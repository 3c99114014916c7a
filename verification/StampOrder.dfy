/**
 When the stamps the writer broadcasts, and those its subscribers see, rise strictly.
 */
module StampOrder {
  import opened Common
  import opened Oplog
  import opened ChangeStream
  import opened StreamSafety
  import opened WriterArms
  import opened WriterRuns

  /** The commands whose events carry numbers of rows they have just committed, each its own. */
  predicate StampsAfresh(c: Command) {
    match c
    case Update(_, _, changed) => changed
    case Archive(_, _, changed) => changed
    case ReviewMerge(_, _, _, _) => false
    case _ => true
  }

  ghost predicate RisesFrom(events: seq<Event>, base: nat) {
    StampsOrdered(events, true) && forall e :: e in events ==> e.stamp.Some? && base < e.stamp.value
  }

  /** Exactly these: an unchanged edit repeats the number on top of the log, and a merge gives
      its three events one and the same. */
  lemma {:induction false} AfreshExactlyWhen(c: Command, base: nat)
    ensures RisesFrom(Events(c, base), base) <==> StampsAfresh(c)
  {
    if !StampsAfresh(c) {
      var events := Events(c, base);
      assert events[0] in events;
      if c.ReviewMerge? { assert events[0].stamp == events[1].stamp == Some(base + 4); }
    }
  }

  ghost predicate HasStamp(events: seq<Event>, n: nat) {
    exists e :: e in events && e.stamp == Some(n)
  }

  /** The command stamps afresh, or is an unchanged edit while the top of the log is unannounced. */
  predicate RisesNext(c: Command, topStamped: bool) {
    StampsAfresh(c) || (!c.ReviewMerge? && !topStamped)
  }

  /** Every command keeps the stamps rising in the state it meets. */
  ghost predicate KeepsRising(commands: seq<Command>, states: seq<State>, n: nat)
    requires n <= |commands| && n <= |states|
  {
    forall i :: 0 <= i < n ==> RisesAt(commands, states, i)
  }

  ghost predicate RisesAt(commands: seq<Command>, states: seq<State>, i: nat)
    requires i < |commands| && i < |states|
  {
    RisesNext(commands[i], HasStamp(states[i].sent, |states[i].log|))
  }

  /** Broadcast stamps rise strictly over a history exactly when every command keeps them rising. */
  lemma {:induction false} StampsRiseExactlyWhen(commands: seq<Command>, states: seq<State>, n: nat)
    requires IsWork(commands, states) && n <= |commands|
    ensures StampsOrdered(states[n].sent, true) <==> KeepsRising(commands, states, n)
  {
    if n > 0 {
      StampsRiseExactlyWhen(commands, states, n - 1);
      StampsNeverGoBack(commands, states, n - 1);
      assert WorkAt(commands, states, n - 1);
      RisingStep(states[n - 1].sent, commands[n - 1], |states[n - 1].log|);
      assert KeepsRising(commands, states, n)
        <==> KeepsRising(commands, states, n - 1) && RisesAt(commands, states, n - 1);
    }
  }

  lemma {:induction false} RisingPrefix(x: seq<Event>, y: seq<Event>)
    ensures StampsOrdered(x + y, true) ==> StampsOrdered(x, true) && StampsOrdered(y, true)
  {
    assert forall i :: 0 <= i < |x| ==> (x + y)[i] == x[i];
    assert forall i :: 0 <= i < |y| ==> (x + y)[|x| + i] == y[i];
  }

  lemma {:induction false} RisingStep(sent: seq<Event>, c: Command, base: nat)
    requires StampsAtMost(sent, base)
    ensures StampsOrdered(sent + Events(c, base), true)
       <==> StampsOrdered(sent, true) && RisesNext(c, HasStamp(sent, base))
  {
    var events := Events(c, base);
    AfreshExactlyWhen(c, base);
    RisingPrefix(sent, events);
    if !StampsOrdered(sent, true) {
    } else if StampsAfresh(c) {
      JoinRising(sent, events, base);
    } else if c.ReviewMerge? {
      assert events[0].stamp == events[1].stamp == Some(base + 4);
    } else {
      assert events[0].stamp == Some(base) && |events| == 1;
      RisingOne(sent, events[0], base);
    }
  }

  lemma {:induction false} RisingOne(sent: seq<Event>, e: Event, base: nat)
    requires StampsOrdered(sent, true) && StampsAtMost(sent, base) && e.stamp == Some(base)
    ensures StampsOrdered(sent + [e], true) <==> !HasStamp(sent, base)
  {
    if HasStamp(sent, base) {
      var d :| d in sent && d.stamp == Some(base);
      var i :| 0 <= i < |sent| && sent[i] == d;
      assert (sent + [e])[i] == d && (sent + [e])[|sent|] == e;
    } else {
      forall i | 0 <= i < |sent| ensures sent[i].stamp.value < base {
        assert sent[i] in sent;
      }
    }
  }

  lemma {:induction false} JoinRising(x: seq<Event>, y: seq<Event>, base: nat)
    requires StampsOrdered(x, true) && StampsAtMost(x, base) && RisesFrom(y, base)
    ensures StampsOrdered(x + y, true)
  {
  }

  /** What every subscriber sees, whatever its timing, lag or failed reads: stamps never go back, and
      they rise strictly if every command keeps them rising. */
  lemma {:induction false} SubscribersSeeRisingStamps(commands: seq<Command>, states: seq<State>, w: World,
                                                      cut: nat -> nat, ns: Namespace, since: Option<nat>, t0: nat,
                                                      run: seq<Session>)
    requires IsWork(commands, states) && CarriesOut(w, states, cut) && IsRun(w, ns, since, t0, run)
    ensures StampsOrdered(Delivered(Last(run)), false)
    ensures KeepsRising(commands, states, |commands|) ==> StampsOrdered(Delivered(Last(run)), true)
  {
    var now, all := EndTime(t0, run), states[|commands|].sent;
    UnfoldedPrefix(commands, states, w, cut, now);
    StampsNeverGoBack(commands, states, |commands|);
    StampsRiseExactlyWhen(commands, states, |commands|);
    OrderedPrefix(w.sent(now), all, false);
    OrderedPrefix(w.sent(now), all, true);
    StreamIsSafe(w, ns, since, t0, run, false);
    StreamIsSafe(w, ns, since, t0, run, true);
  }

  lemma {:induction false} OrderedPrefix(x: seq<Event>, all: seq<Event>, strict: bool)
    requires x <= all
    ensures StampsOrdered(all, strict) ==> StampsOrdered(x, strict)
  {
    assert forall i :: 0 <= i < |x| ==> all[i] == x[i];
  }
}
