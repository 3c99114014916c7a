/**
 That a session gets on: the replay ends after one page more than its rows fill, with every row it
 owes, and the live part takes one queued event after the other
 (crates/rb-daemon/src/server.rs:1289-1357).
 */
module StreamProgress {
  import opened Common
  import opened Oplog
  import opened ChangeStream
  import opened StreamSafety
  import opened StreamExact

  // --------------------------------------------------------------------- replay

  /** What one turn of replay has done. */
  ghost predicate ReplayStep(log: seq<Row>, ns: Namespace, fails: bool, s: Session, next: Session) {
    if fails then
      next.phase.Live? && next.mark == s.mark && next.replayed == s.replayed
    else
      && s.mark <= next.mark && next.replayed == s.replayed + Changes(log, ns, s.mark, next.mark)
      && (next.phase.Live? ==>
            RowCount(log, ns, s.mark, |log|) < REPLAY_BATCH && RowCount(log, ns, next.mark, |log|) == 0)
      && (next.phase.Replaying? ==>
            next.phase.after == next.mark > s.mark && RowCount(log, ns, s.mark, next.mark) == REPLAY_BATCH)
  }

  /** A replay turn whose read fails ends the replay where it was. Any other delivers what it passes, and
      ends the replay with no row of the namespace left, or goes on past exactly one batch of them. */
  lemma {:induction false} ReplayAdvances(w: World, ns: Namespace, s: Session, t: nat)
    requires s.phase == Replaying(s.mark)
    ensures ReplayStep(w.log(t), ns, w.fails(t), s, Turn(w, ns, s, t))
  {
    var log := w.log(t);
    if !w.fails(t) {
      var page := PageOf(log, ns, s.mark, REPLAY_BATCH);
      PageCovers(log, ns, s.mark, REPLAY_BATCH);
      if page.scanned < REPLAY_BATCH {
        if page.lastSeq <= |log| {
          RowsSplit(log, ns, s.mark, page.lastSeq, |log|);
        } else {
          NoRowsBeyond(log, ns, s.mark);
        }
      }
    }
  }

  lemma {:induction false} NoRowsBeyond(log: seq<Row>, ns: Namespace, lo: nat)
    requires |log| <= lo
    ensures RowCount(log, ns, lo, |log|) == 0
  {
  }

  /** While it replays, a session has passed a full batch with every turn. */
  ghost predicate PassedBatches(log: seq<Row>, ns: Namespace, cursor: nat, turns: int, s: Session) {
    && cursor <= s.mark <= Max(cursor, |log|)
    && (s.phase.Replaying? ==>
          s.phase.after == s.mark && RowCount(log, ns, cursor, s.mark) == turns * REPLAY_BATCH)
  }

  lemma {:induction false} TurnPassesBatch(w: World, ns: Namespace, cursor: nat, t0: nat, s: Session, t: nat)
    requires TimeFlows(w) && t0 <= t && PassedBatches(w.log(t), ns, cursor, t - t0, s)
    ensures PassedBatches(w.log(t + 1), ns, cursor, t + 1 - t0, Turn(w, ns, s, t))
  {
    var log, later, next := w.log(t), w.log(t + 1), Turn(w, ns, s, t);
    assert log <= later;
    if s.phase.Live? {
      LiveStaysLive(w, ns, s, t);
    } else {
      ReplayAdvances(w, ns, s, t);
      PageCovers(log, ns, s.mark, REPLAY_BATCH);
      if next.phase.Replaying? {
        RowsSplit(log, ns, cursor, s.mark, next.mark);
        ChangesStable(log, later, ns, cursor, next.mark);
      }
    }
  }

  lemma {:induction false} RunPassesBatches(w: World, ns: Namespace, cursor: nat, t0: nat, run: seq<Session>)
    requires TimeFlows(w) && IsRun(w, ns, Some(cursor), t0, run)
    ensures PassedBatches(w.log(EndTime(t0, run)), ns, cursor, |run| - 1, Last(run))
  {
    var inv := (t: nat, s: Session) => t0 <= t && PassedBatches(w.log(t), ns, cursor, t - t0, s);
    forall t: nat, s | inv(t, s) ensures inv(t + 1, Turn(w, ns, s, t)) {
      TurnPassesBatch(w, ns, cursor, t0, s, t);
    }
    assert inv(t0, run[0]);
    TurnsKeep(w, ns, Some(cursor), t0, run, inv, |run| - 1);
  }

  /** However busy the writer and whatever fails: with N rows of the namespace after the cursor, the
      session is live after N / 500 + 1 turns. */
  lemma {:induction false} ReplayEnds(w: World, ns: Namespace, cursor: nat, t0: nat, run: seq<Session>)
    requires TimeFlows(w) && IsRun(w, ns, Some(cursor), t0, run)
    requires var log := w.log(EndTime(t0, run)); RowCount(log, ns, cursor, |log|) / REPLAY_BATCH + 1 <= |run| - 1
    ensures Last(run).phase.Live?
  {
    var log, s := w.log(EndTime(t0, run)), Last(run);
    RunPassesBatches(w, ns, cursor, t0, run);
    if s.phase.Replaying? {
      assert s.mark > cursor;
      RowsSplit(log, ns, cursor, s.mark, |log|);
    }
  }

  /** Then, if no read has failed, it has replayed every change of the namespace after the cursor that had
      been committed by registration. */
  lemma {:induction false} ReplayIsComplete(w: World, ns: Namespace, cursor: nat, t0: nat, run: seq<Session>, q: nat)
    requires TimeFlows(w) && IsRun(w, ns, Some(cursor), t0, run) && NoFailures(w, t0, EndTime(t0, run))
    requires var log := w.log(EndTime(t0, run)); RowCount(log, ns, cursor, |log|) / REPLAY_BATCH + 1 <= |run| - 1
    requires cursor < q <= |w.log(t0)| && w.log(t0)[q - 1].ns == ns && w.log(t0)[q - 1].id.Some?
    ensures Event(ns, w.log(t0)[q - 1].id.value, w.log(t0)[q - 1].kind, Some(q)) in Last(run).replayed
  {
    var early, log, s := w.log(t0), w.log(EndTime(t0, run)), Last(run);
    assert early <= log;
    ReplayEnds(w, ns, cursor, t0, run);
    MarkPassesRegistration(w, ns, cursor, t0, run);
    ReplayReachesMark(w, ns, cursor, t0, run);
    if s.mark < q {
      RowCounted(early, ns, s.mark, |early|, q);
    }
    ChangesComplete(log, ns, cursor, s.mark, q);
  }

  // ------------------------------------------------------------------ live part

  /** What one live turn has done with `queued` events waiting. */
  ghost predicate LiveStep(queued: int, s: Session, next: Session) {
    if queued <= 0 then next == s
    else if queued <= BROADCAST_CAPACITY then
      next.next == s.next + 1 && |next.fates| == |s.fates| + 1 && next.fates[|s.fates|] != Lost
    else
      && next.next == s.next + queued - BROADCAST_CAPACITY
      && next.live == s.live + [Lagged(queued - BROADCAST_CAPACITY)]
  }

  /** A live turn takes exactly the next queued event; only when more are queued than the channel retains
      it skips to the oldest retained one, and says how many it skipped. */
  lemma {:induction false} LiveAdvances(w: World, ns: Namespace, s: Session, t: nat)
    requires s.phase.Live?
    ensures LiveStep(|w.sent(t)| - s.next, s, Turn(w, ns, s, t))
  {
    if |w.sent(t)| <= s.next {
      assert s.live + [] == s.live && s.fates + [] == s.fates;
    }
  }

  /** Everything broadcast by the time a session went live has been taken after as many turns as it was
      behind by then, however busy the writer since. */
  lemma {:induction false} LiveKeepsUp(w: World, ns: Namespace, since: Option<nat>, t0: nat, run: seq<Session>,
                                       i: nat, j: nat)
    requires TimeFlows(w) && IsRun(w, ns, since, t0, run) && i <= j < |run| && run[i].phase.Live?
    ensures run[j].phase.Live? && run[j].next >= Min(|w.sent(t0 + i)|, run[i].next + (j - i))
    decreases j
  {
    if i < j {
      LiveKeepsUp(w, ns, since, t0, run, i, j - 1);
      assert TurnAt(w, ns, t0, run, j - 1);
      LiveStaysLive(w, ns, run[j - 1], t0 + j - 1);
      LiveAdvances(w, ns, run[j - 1], t0 + j - 1);
      assert w.sent(t0 + i) <= w.sent(t0 + j - 1);
    }
  }
}
