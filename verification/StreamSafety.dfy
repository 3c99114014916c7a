/**
 What the change stream guarantees whatever the writer broadcasts, and however the
 reads fail or the receiver lags.
 */
module StreamSafety {
  import opened Common
  import opened Oplog
  import opened ChangeStream

  function LiveEvents(frames: seq<Frame>): seq<Event> {
    if frames == [] then []
    else
      var last := frames[|frames| - 1];
      LiveEvents(frames[..|frames| - 1]) + if last.Change? then [last.event] else []
  }

  function TotalDropped(frames: seq<Frame>): nat {
    if frames == [] then 0
    else
      var last := frames[|frames| - 1];
      TotalDropped(frames[..|frames| - 1]) + if last.Lagged? then last.dropped else 0
  }

  /** The change events sent to the client, in order. */
  function Delivered(s: Session): seq<Event> {
    s.replayed + LiveEvents(s.live)
  }

  /** The events whose label says they were forwarded. */
  function Kept(events: seq<Event>, fates: seq<Fate>): seq<Event>
    requires |events| == |fates|
  {
    if events == [] then []
    else
      var n := |events| - 1;
      Kept(events[..n], fates[..n]) + if fates[n] == Forwarded then [events[n]] else []
  }

  function LostCount(fates: seq<Fate>): nat {
    if fates == [] then 0
    else LostCount(fates[..|fates| - 1]) + if fates[|fates| - 1] == Lost then 1 else 0
  }

  /** Each event carries exactly one label; received ones are labelled by the rule, forwarded
      ones are the live change frames in order, and lost ones are what the lag frames count. */
  ghost predicate Tally(ns: Namespace, mark: nat, events: seq<Event>, fates: seq<Fate>, live: seq<Frame>) {
    && |events| == |fates|
    && (forall i :: 0 <= i < |fates| ==> fates[i] == Lost || fates[i] == Classify(ns, mark, events[i]))
    && LiveEvents(live) == Kept(events, fates)
    && TotalDropped(live) == LostCount(fates)
  }

  /** The tally covers everything broadcast from registration to the receiver's position. */
  ghost predicate Accounted(ns: Namespace, sent: seq<Event>, start: nat, s: Session) {
    && start <= s.next <= |sent|
    && Tally(ns, s.mark, sent[start..s.next], s.fates, s.live)
    && (s.phase.Replaying? ==> s.live == [] && s.next == start)
  }

  lemma {:induction false} EveryEventAccounted(w: World, ns: Namespace, since: Option<nat>, t0: nat, run: seq<Session>)
    requires TimeFlows(w) && IsRun(w, ns, since, t0, run)
    ensures Accounted(ns, w.sent(EndTime(t0, run)), |w.sent(t0)|, Last(run))
  {
    var start := |w.sent(t0)|;
    var inv := (t: nat, s: Session) => Accounted(ns, w.sent(t), start, s);
    StartAccounted(w, ns, since, t0);
    forall t: nat, s | inv(t, s) ensures inv(t + 1, Turn(w, ns, s, t)) {
      TurnAccounted(w, ns, start, s, t);
    }
    assert inv(t0, run[0]);
    TurnsKeep(w, ns, since, t0, run, inv, |run| - 1);
  }

  /** The rule itself: of the events received, those of other namespaces and those the replay covered are
      dropped, and all others are forwarded, stamped or not. */
  ghost predicate FateIs(ns: Namespace, mark: nat, e: Event, fate: Fate) {
    && (fate == Foreign <==> e.ns != ns)
    && (fate == Covered <==> e.ns == ns && e.stamp.Some? && e.stamp.value <= mark)
    && (fate == Forwarded <==> e.ns == ns && (e.stamp.None? || mark < e.stamp.value))
  }

  lemma {:induction false} FatesAre(w: World, ns: Namespace, since: Option<nat>, t0: nat, run: seq<Session>, k: nat)
    requires TimeFlows(w) && IsRun(w, ns, since, t0, run) && |w.sent(t0)| <= k < Last(run).next
    ensures var s, sent := Last(run), w.sent(EndTime(t0, run));
            && s.next <= |sent| && |s.fates| == s.next - |w.sent(t0)|
            && var fate := s.fates[k - |w.sent(t0)|];
               && (fate == Lost || FateIs(ns, s.mark, sent[k], fate))
               && (fate == Forwarded ==> sent[k] in LiveEvents(s.live))
  {
    var s, sent, start := Last(run), w.sent(EndTime(t0, run)), |w.sent(t0)|;
    EveryEventAccounted(w, ns, since, t0, run);
    assert sent[start..s.next][k - start] == sent[k];
    if s.fates[k - start] == Forwarded { KeptHas(sent[start..s.next], s.fates, k - start); }
  }

  lemma {:induction false} KeptHas(events: seq<Event>, fates: seq<Fate>, i: nat)
    requires |events| == |fates| && i < |events| && fates[i] == Forwarded
    ensures events[i] in Kept(events, fates)
  {
    if i < |events| - 1 { KeptHas(events[..|events| - 1], fates[..|events| - 1], i); }
  }

  /** What registration establishes and every turn keeps holds all along a run. */
  lemma {:induction false} TurnsKeep(w: World, ns: Namespace, since: Option<nat>, t0: nat, run: seq<Session>,
                                     inv: (nat, Session) -> bool, n: nat)
    requires IsRun(w, ns, since, t0, run) && n < |run|
    requires inv(t0, run[0])
    requires forall t: nat, s {:trigger Turn(w, ns, s, t)} :: inv(t, s) ==> inv(t + 1, Turn(w, ns, s, t))
    ensures inv(t0 + n, run[n])
  {
    if n > 0 {
      TurnsKeep(w, ns, since, t0, run, inv, n - 1);
      assert TurnAt(w, ns, t0, run, n - 1);
    }
  }

  lemma {:induction false} StartAccounted(w: World, ns: Namespace, since: Option<nat>, t0: nat)
    ensures Accounted(ns, w.sent(t0), |w.sent(t0)|, Start(w, since, t0))
  {
  }

  lemma {:induction false} TurnAccounted(w: World, ns: Namespace, start: nat, s: Session, t: nat)
    requires TimeFlows(w) && Accounted(ns, w.sent(t), start, s)
    ensures Accounted(ns, w.sent(t + 1), start, Turn(w, ns, s, t))
  {
    if s.phase.Live? {
      ReceiveAccounted(ns, w.sent(t), start, s);
    } else {
      assert w.sent(t)[start..s.next] == [];
    }
    assert w.sent(t) <= w.sent(t + 1);
    AccountedLater(ns, w.sent(t), w.sent(t + 1), start, Turn(w, ns, s, t));
  }

  lemma {:induction false} AccountedLater(ns: Namespace, sent: seq<Event>, later: seq<Event>, start: nat, s: Session)
    requires Accounted(ns, sent, start, s) && sent <= later
    ensures Accounted(ns, later, start, s)
  {
    assert later[start..s.next] == sent[start..s.next];
  }

  lemma {:induction false} ReceiveAccounted(ns: Namespace, sent: seq<Event>, start: nat, s: Session)
    requires Accounted(ns, sent, start, s) && s.phase.Live?
    ensures var r := Receive(sent, ns, s.mark, s.next);
            && s.next <= r.next <= |sent|
            && Tally(ns, s.mark, sent[start..r.next], s.fates + r.fates, s.live + r.frames)
  {
    var r := Receive(sent, ns, s.mark, s.next);
    var heard := sent[start..s.next];
    if s.next >= |sent| {
      assert s.live + [] == s.live && s.fates + [] == s.fates;
    } else if |sent| - s.next > BROADCAST_CAPACITY {
      var missed := sent[s.next..r.next];
      assert sent[start..r.next] == heard + missed;
      TallyLost(ns, s.mark, heard, s.fates, s.live, missed);
    } else {
      assert sent[start..r.next] == heard + [sent[s.next]];
      TallyOne(ns, s.mark, heard, s.fates, s.live, sent[s.next]);
    }
  }

  lemma {:induction false} TallyOne(ns: Namespace, mark: nat, events: seq<Event>, fates: seq<Fate>,
                                    live: seq<Frame>, e: Event)
    requires Tally(ns, mark, events, fates, live)
    ensures var fate := Classify(ns, mark, e);
            Tally(ns, mark, events + [e], fates + [fate],
                  live + if fate == Forwarded then [Change(e)] else [])
  {
    var fate := Classify(ns, mark, e);
    if fate == Forwarded {
    } else {
      assert live + [] == live;
    }
  }

  lemma {:induction false} TallyLost(ns: Namespace, mark: nat, events: seq<Event>, fates: seq<Fate>,
                                     live: seq<Frame>, missed: seq<Event>)
    requires Tally(ns, mark, events, fates, live)
    ensures Tally(ns, mark, events + missed, fates + AllLost(|missed|), live + [Lagged(|missed|)])
  {
    LostTail(events, fates, missed);
  }

  lemma {:induction false} LostTail(events: seq<Event>, fates: seq<Fate>, missed: seq<Event>)
    requires |events| == |fates|
    ensures Kept(events + missed, fates + AllLost(|missed|)) == Kept(events, fates)
    ensures LostCount(fates + AllLost(|missed|)) == LostCount(fates) + |missed|
    decreases |missed|
  {
    if missed == [] {
      assert events + missed == events && fates + AllLost(0) == fates;
    } else {
      var n := |missed| - 1;
      LostTail(events, fates, missed[..n]);
      var es, fs := events + missed[..n], fates + AllLost(n);
      assert es + [missed[n]] == events + missed && fs + [Lost] == fates + AllLost(|missed|);
    }
  }

  /** With a cursor, the replayed frames are exactly the namespace's changes from the cursor
      to the watermark, even when a page read failed part way. */
  lemma {:induction false} ReplayReachesMark(w: World, ns: Namespace, cursor: nat, t0: nat, run: seq<Session>)
    requires TimeFlows(w) && IsRun(w, ns, Some(cursor), t0, run)
    ensures ReplayedTo(w.log(EndTime(t0, run)), ns, cursor, Last(run))
  {
    var inv := (t: nat, s: Session) => ReplayedTo(w.log(t), ns, cursor, s);
    forall t: nat, s | inv(t, s) ensures inv(t + 1, Turn(w, ns, s, t)) {
      TurnReplays(w, ns, cursor, s, t);
    }
    assert inv(t0, run[0]);
    TurnsKeep(w, ns, Some(cursor), t0, run, inv, |run| - 1);
  }

  ghost predicate ReplayedTo(log: seq<Row>, ns: Namespace, cursor: nat, s: Session) {
    && s.replayed == Changes(log, ns, cursor, s.mark)
    && cursor <= s.mark <= Max(cursor, |log|)
    && (s.phase.Replaying? ==> s.phase.after == s.mark)
  }

  lemma {:induction false} TurnReplays(w: World, ns: Namespace, cursor: nat, s: Session, t: nat)
    requires TimeFlows(w) && ReplayedTo(w.log(t), ns, cursor, s)
    ensures ReplayedTo(w.log(t + 1), ns, cursor, Turn(w, ns, s, t))
  {
    var log, next := w.log(t), Turn(w, ns, s, t);
    if s.phase.Replaying? && !w.fails(t) {
      PageCovers(log, ns, s.mark, REPLAY_BATCH);
      ChangesSplit(log, ns, cursor, s.mark, next.mark);
    }
    ChangesKeep(log, w.log(t + 1), ns, cursor, next.mark);
  }

  lemma {:induction false} ChangesKeep(log: seq<Row>, later: seq<Row>, ns: Namespace, lo: nat, hi: nat)
    requires log <= later && (hi <= |log| || hi <= lo)
    ensures Changes(later, ns, lo, hi) == Changes(log, ns, lo, hi)
  {
    if hi <= |log| { ChangesStable(log, later, ns, lo, hi); }
  }

  /** Stamps never repeat or go back (`strict`), or never go back, among stamped events. */
  ghost predicate StampsOrdered(events: seq<Event>, strict: bool) {
    forall i, j :: 0 <= i < j < |events| && events[i].stamp.Some? && events[j].stamp.Some? ==>
      if strict then events[i].stamp.value < events[j].stamp.value
      else events[i].stamp.value <= events[j].stamp.value
  }

  lemma {:induction false} KeptOrdered(ns: Namespace, mark: nat, events: seq<Event>, fates: seq<Fate>, strict: bool)
    requires |events| == |fates|
    requires forall i :: 0 <= i < |fates| ==> fates[i] == Lost || fates[i] == Classify(ns, mark, events[i])
    ensures forall e :: e in Kept(events, fates) ==> e in events && Classify(ns, mark, e) == Forwarded
    ensures StampsOrdered(events, strict) ==> StampsOrdered(Kept(events, fates), strict)
  {
    if events != [] {
      var n := |events| - 1;
      KeptOrdered(ns, mark, events[..n], fates[..n], strict);
      var front := Kept(events[..n], fates[..n]);
      if StampsOrdered(events, strict) && fates[n] == Forwarded {
        forall i | 0 <= i < |front| && front[i].stamp.Some? && events[n].stamp.Some?
          ensures if strict then front[i].stamp.value < events[n].stamp.value
                  else front[i].stamp.value <= events[n].stamp.value
        {
          assert front[i] in events[..n];
        }
      }
    }
  }

  /** In every run: all delivered changes are in the subscriber's namespace; with a cursor the
      replayed ones rise strictly from the cursor to the watermark and every stamped live one
      lies beyond it; and stamps are as ordered as the writer's broadcasts were. */
  lemma {:induction false} StreamIsSafe(w: World, ns: Namespace, since: Option<nat>, t0: nat, run: seq<Session>,
                                        strict: bool)
    requires TimeFlows(w) && IsRun(w, ns, since, t0, run)
    ensures var s := Last(run);
            && (forall e :: e in Delivered(s) ==> e.ns == ns)
            && (since.Some? ==> StampsWithin(s.replayed, since.value, s.mark))
            && (since.None? ==> s.replayed == [] && s.mark == 0)
            && (forall e :: e in LiveEvents(s.live) && e.stamp.Some? ==> s.mark < e.stamp.value)
            && (StampsOrdered(w.sent(EndTime(t0, run)), strict) ==> StampsOrdered(Delivered(s), strict))
  {
    var s, sent, start := Last(run), w.sent(EndTime(t0, run)), |w.sent(t0)|;
    EveryEventAccounted(w, ns, since, t0, run);
    KeptOrdered(ns, s.mark, sent[start..s.next], s.fates, strict);
    match since {
      case Some(cursor) =>
        ReplayReachesMark(w, ns, cursor, t0, run);
        ChangesOrdered(w.log(EndTime(t0, run)), ns, cursor, s.mark);
      case None => NoReplayWithoutCursor(w, ns, t0, run);
    }
    if StampsOrdered(sent, strict) {
      OrderedConcat(s.replayed, LiveEvents(s.live), s.mark, strict);
    }
  }

  lemma {:induction false} NoReplayWithoutCursor(w: World, ns: Namespace, t0: nat, run: seq<Session>)
    requires IsRun(w, ns, None, t0, run)
    ensures var s := Last(run); s.phase.Live? && s.replayed == [] && s.mark == 0
  {
    var inv := (t: nat, s: Session) => s.phase.Live? && s.replayed == [] && s.mark == 0;
    forall t: nat, s | inv(t, s) ensures inv(t + 1, Turn(w, ns, s, t)) {
      LiveStaysLive(w, ns, s, t);
    }
    assert inv(t0, run[0]);
    TurnsKeep(w, ns, None, t0, run, inv, |run| - 1);
  }

  lemma {:induction false} LiveStaysLive(w: World, ns: Namespace, s: Session, t: nat)
    requires s.phase.Live?
    ensures var next := Turn(w, ns, s, t);
            next.phase.Live? && next.replayed == s.replayed && next.mark == s.mark && s.next <= next.next
  {
  }

  lemma {:induction false} OrderedConcat(x: seq<Event>, y: seq<Event>, mark: nat, strict: bool)
    requires StampsOrdered(x, true) && StampsOrdered(y, strict)
    requires forall i :: 0 <= i < |x| && x[i].stamp.Some? ==> x[i].stamp.value <= mark
    requires forall e :: e in y && e.stamp.Some? ==> mark < e.stamp.value
    ensures StampsOrdered(x + y, strict)
  {
  }

  /** Every stamped event lies strictly beyond `cursor`. */
  ghost predicate Beyond(events: seq<Event>, cursor: nat) {
    forall e :: e in events && e.stamp.Some? ==> cursor < e.stamp.value
  }

  /** A session never delivers anything stamped at or below the cursor it resumed from. */
  lemma {:induction false} NothingBelowCursor(w: World, ns: Namespace, cursor: nat, t0: nat, run: seq<Session>)
    requires TimeFlows(w) && IsRun(w, ns, Some(cursor), t0, run)
    ensures Beyond(Delivered(Last(run)), cursor)
  {
    StreamIsSafe(w, ns, Some(cursor), t0, run, false);
    ReplayReachesMark(w, ns, cursor, t0, run);
  }
}
