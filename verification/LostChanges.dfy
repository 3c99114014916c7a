/**
 Two runs in which a subscriber loses changes for good although nothing lagged and no read
 failed: a merge cut off half way, and a link change overtaken by an edit.
 */
module LostChanges {
  import opened Common
  import opened Oplog
  import opened ChangeStream
  import opened StreamSafety
  import opened StreamExact
  import opened WriterArms
  import opened WriterRuns

  /** What a writer has done at time 0, at time 1, and from time 2 on. */
  function Stage(first: seq<Micro>, second: seq<Micro>, third: seq<Micro>, t: nat): seq<Micro> {
    if t == 0 then first else if t == 1 then second else third
  }

  ghost function Staged(found: seq<Row>, first: seq<Micro>, second: seq<Micro>, third: seq<Micro>): World {
    World((t: nat) => found + Committed(Stage(first, second, third, t)),
          (t: nat) => Published(Stage(first, second, third, t)), (t: nat) => false)
  }

  lemma {:induction false} StagedUnfolds(found: seq<Row>, first: seq<Micro>, second: seq<Micro>, third: seq<Micro>)
    requires first <= second <= third
    ensures Unfolds(Staged(found, first, second, third), found, third, (t: nat) => |Stage(first, second, third, t)|)
    ensures TimeFlows(Staged(found, first, second, third))
  {
    var w, cut := Staged(found, first, second, third), (t: nat) => |Stage(first, second, third, t)|;
    forall t: nat ensures third[..cut(t)] == Stage(first, second, third, t) {
      StageIsPrefix(first, second, third, t);
    }
    UnfoldingFlows(w, found, third, cut);
  }

  lemma {:induction false} StageIsPrefix(first: seq<Micro>, second: seq<Micro>, third: seq<Micro>, t: nat)
    requires first <= second <= third
    ensures var stage := Stage(first, second, third, t); |stage| <= |third| && third[..|stage|] == stage
  {
  }

  /** A client that registers at time 0 with everything so far behind it, goes live at once,
      receives one event at time 1 and is cut off. */
  function CutOffLeg(w: World, ns: Namespace): Leg {
    var start := Start(w, Some(|w.log(0)|), 0);
    var live := Turn(w, ns, start, 0);
    Leg(0, [start, live, Turn(w, ns, live, 1)], 1)
  }

  lemma {:induction false} NothingToReplay(log: seq<Row>, ns: Namespace, limit: nat)
    ensures PageOf(log, ns, |log|, limit) == Page([], 0, |log|)
  {
  }

  lemma {:induction false} GoesLive(w: World, ns: Namespace)
    requires !w.fails(0)
    ensures Turn(w, ns, Start(w, Some(|w.log(0)|), 0), 0) == Session(Live, |w.log(0)|, |w.sent(0)|, [], [], [])
  {
    NothingToReplay(w.log(0), ns, REPLAY_BATCH);
  }

  lemma {:induction false} ReceivesOne(sent: seq<Event>, events: seq<Event>, ns: Namespace, mark: nat)
    requires 0 < |events| <= BROADCAST_CAPACITY && Classify(ns, mark, events[0]) == Forwarded
    ensures Receive(sent + events, ns, mark, |sent|) == Received(|sent| + 1, [Change(events[0])], [Forwarded])
  {
  }

  /** A client with everything up to time 0 behind it got just `e`, smoothly, and was cut off. */
  ghost predicate CutOffAfter(w: World, ns: Namespace, leg: Leg, e: Event) {
    && IsLeg(w, ns, |w.log(0)|, leg, 2) && Smooth(w, leg)
    && e.stamp.Some? && LegEvents(leg) == [e]
  }

  lemma {:induction false} CutOff(w: World, ns: Namespace, events: seq<Event>) returns (leg: Leg)
    requires !w.fails(0) && !w.fails(1) && w.sent(1) == w.sent(0) + events && 0 < |events| <= BROADCAST_CAPACITY
    requires events[0].stamp.Some? && Classify(ns, |w.log(0)|, events[0]) == Forwarded
    ensures CutOffAfter(w, ns, leg, events[0])
  {
    leg := CutOffLeg(w, ns);
    GoesLive(w, ns);
    ReceivesOne(w.sent(0), events, ns, |w.log(0)|);
    CutOffRun(w, ns);
    assert Last(leg.run).replayed == [] && Last(leg.run).live == [Change(events[0])];
    OneLiveEvent(events[0]);
  }

  lemma {:induction false} OneLiveEvent(e: Event)
    ensures LiveEvents([Change(e)]) == [e]
  {
    assert LiveEvents([]) == [];
  }

  lemma {:induction false} CutOffRun(w: World, ns: Namespace)
    ensures IsRun(w, ns, Some(|w.log(0)|), 0, CutOffLeg(w, ns).run)
  {
    var run := CutOffLeg(w, ns).run;
    assert TurnAt(w, ns, 0, run, 0) && TurnAt(w, ns, 0, run, 1);
  }

  /** Having got `e`, the client is owed `owed` below its new cursor, and no chain of reconnects
      ever brings it. */
  ghost predicate LostForGood(w: World, ns: Namespace, e: Event, legs: seq<Leg>, until: nat, owed: Event)
    requires e.stamp.Some? && IsChain(w, ns, e.stamp.value, legs, until)
  {
    && owed in Changes(w.log(until), ns, |w.log(0)|, e.stamp.value)
    && owed != e
    && owed !in ChainEvents(w, ns, e.stamp.value, legs, until)
  }

  lemma {:induction false} PassedIsLost(w: World, ns: Namespace, e: Event, legs: seq<Leg>, until: nat, owed: Event)
    requires TimeFlows(w) && e.stamp.Some? && IsChain(w, ns, e.stamp.value, legs, until)
    requires owed.ns == ns && IsOwn(w.log(until), owed) && owed != e
    requires |w.log(0)| < owed.stamp.value <= e.stamp.value
    ensures LostForGood(w, ns, e, legs, until, owed)
  {
    ChangesMember(w.log(until), ns, |w.log(0)|, e.stamp.value, owed);
    ChainStaysBeyond(w, ns, e.stamp.value, legs, until);
  }

  /** At time 1 the writer has just carried out a command on top of what it had done at time 0,
      its rows being `rows` and its events `events`. */
  ghost predicate Scene(w: World, rows: seq<Row>, events: seq<Event>) {
    && TimeFlows(w) && !w.fails(0) && !w.fails(1)
    && w.log(1) == w.log(0) + rows && w.sent(1) == w.sent(0) + events
  }

  /** A merge stamps its three events with the number of its own trailing bulk row. A client live
      before the merge that receives the first of them and is cut off resumes past both archivals,
      which it is owed, and whatever follows no chain of reconnects delivers them. */
  lemma {:induction false} MergeCutLosesArchives(w: World, merge: Command, legs: seq<Leg>, until: nat)
    returns (leg: Leg)
    requires merge.ReviewMerge? && Scene(w, Rows(merge), Events(merge, |w.log(0)|)) && until >= 2
    requires IsChain(w, merge.ns, |w.log(0)| + 4, legs, until)
    ensures var base, ns := |w.log(0)|, merge.ns;
            var got := Event(ns, merge.merged, Created, Some(base + 4));
            && CutOffAfter(w, ns, leg, got)
            && LostForGood(w, ns, got, legs, until, Event(ns, merge.a, Archived, Some(base + 2)))
            && LostForGood(w, ns, got, legs, until, Event(ns, merge.b, Archived, Some(base + 3)))
  {
    var base, ns := |w.log(0)|, merge.ns;
    var got := Event(ns, merge.merged, Created, Some(base + 4));
    leg := CutOff(w, ns, Events(merge, base));
    assert w.log(1) <= w.log(until);
    MergeRowsAre(w.log(0), merge, w.log(until));
    PassedIsLost(w, ns, got, legs, until, Event(ns, merge.a, Archived, Some(base + 2)));
    PassedIsLost(w, ns, got, legs, until, Event(ns, merge.b, Archived, Some(base + 3)));
  }

  lemma {:induction false} MergeRowsAre(earlier: seq<Row>, merge: Command, log: seq<Row>)
    requires merge.ReviewMerge? && earlier + Rows(merge) <= log
    ensures IsOwn(log, Event(merge.ns, merge.a, Archived, Some(|earlier| + 2)))
    ensures IsOwn(log, Event(merge.ns, merge.b, Archived, Some(|earlier| + 3)))
  {
    var base := |earlier|;
    assert log[base + 1] == (earlier + Rows(merge))[base + 1];
    assert log[base + 2] == (earlier + Rows(merge))[base + 2];
  }

  /** Such a moment arises in all work, between its `m`th and its `n`th state. */
  lemma {:induction false} SceneArises(commands: seq<Command>, states: seq<State>, m: nat, n: nat, rows: seq<Row>,
                                       events: seq<Event>)
    returns (w: World, cut: nat -> nat)
    requires IsWork(commands, states) && m <= n <= |commands|
    requires states[n].log == states[m].log + rows && states[n].sent == states[m].sent + events
    ensures CarriesOut(w, states, cut) && w.log(0) == states[m].log && Scene(w, rows, events)
  {
    WorkGrows(commands, states);
    HistoryIs(states, m);
    HistoryIs(states, n);
    HistoryGrows(states, m, n);
    HistoryGrows(states, n, |commands|);
    w, cut := StagedScene(states[0].log, History(states, m), History(states, n), History(states, |commands|), rows,
                          events);
  }

  lemma {:induction false} StagedScene(found: seq<Row>, first: seq<Micro>, second: seq<Micro>, third: seq<Micro>,
                                       rows: seq<Row>, events: seq<Event>) returns (w: World, cut: nat -> nat)
    requires first <= second <= third
    requires found + Committed(second) == found + Committed(first) + rows
    requires Published(second) == Published(first) + events
    ensures Unfolds(w, found, third, cut) && w.log(0) == found + Committed(first) && Scene(w, rows, events)
  {
    StagedUnfolds(found, first, second, third);
    w, cut := Staged(found, first, second, third), (t: nat) => |Stage(first, second, third, t)|;
  }

  /** Every merge in every list of commands can strike a client so. */
  lemma {:induction false} MergeSceneArises(commands: seq<Command>, states: seq<State>, k: nat)
    returns (w: World, cut: nat -> nat)
    requires IsWork(commands, states) && k < |commands| && commands[k].ReviewMerge?
    ensures CarriesOut(w, states, cut)
    ensures w.log(0) == states[k].log && Scene(w, Rows(commands[k]), Events(commands[k], |w.log(0)|))
  {
    assert WorkAt(commands, states, k);
    w, cut := SceneArises(commands, states, k, k + 1, Rows(commands[k]), Events(commands[k], |states[k].log|));
  }

  /** A link change followed by a real edit: a client live before them receives the edit alone.
      Its cursor is then past the link row, which no chain of reconnects ever delivers. */
  lemma {:induction false} LinkChangeIsLost(w: World, link: Command, edit: Command, legs: seq<Leg>, until: nat)
    returns (leg: Leg)
    requires link.ChangeLink? && edit.Update? && edit.changed && edit.ns == link.ns && until >= 2
    requires Scene(w, Rows(link) + Rows(edit), Events(edit, |w.log(0)| + 1))
    requires IsChain(w, link.ns, |w.log(0)| + 2, legs, until)
    ensures var base, ns := |w.log(0)|, link.ns;
            var got := Event(ns, edit.id, Updated, Some(base + 2));
            && CutOffAfter(w, ns, leg, got)
            && LostForGood(w, ns, got, legs, until, Event(ns, link.id, Updated, Some(base + 1)))
  {
    var base, ns := |w.log(0)|, link.ns;
    leg := CutOff(w, ns, Events(edit, base + 1));
    assert w.log(1) <= w.log(until);
    assert w.log(until)[base] == w.log(1)[base] == Row(ns, Some(link.id), Updated);
    PassedIsLost(w, ns, Event(ns, edit.id, Updated, Some(base + 2)), legs, until,
                 Event(ns, link.id, Updated, Some(base + 1)));
  }

  /** Every link change followed by an edit, in every list of commands, can strike a client so. */
  lemma {:induction false} LinkSceneArises(commands: seq<Command>, states: seq<State>, k: nat)
    returns (w: World, cut: nat -> nat)
    requires IsWork(commands, states) && k + 1 < |commands| && commands[k].ChangeLink?
    ensures CarriesOut(w, states, cut) && w.log(0) == states[k].log
    ensures Scene(w, Rows(commands[k]) + Rows(commands[k + 1]), Events(commands[k + 1], |w.log(0)| + 1))
  {
    var link, edit := commands[k], commands[k + 1];
    assert WorkAt(commands, states, k) && WorkAt(commands, states, k + 1);
    Regroup(states[k].log, Rows(link), Rows(edit));
    w, cut := SceneArises(commands, states, k, k + 2, Rows(link) + Rows(edit), Events(edit, |states[k].log| + 1));
  }
}
