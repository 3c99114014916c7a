/**
 The change stream: oplog replay followed by a lossy live broadcast, joined by a
 watermark (`stream_changes`, crates/rb-daemon/src/server.rs:1270-1358), while one
 writer commits rows and broadcasts events at any moment in between.
 */
module ChangeStream {
  import opened Common
  import opened Oplog

  /** Rows fetched per replay page. */
  const REPLAY_BATCH: nat := 500
  /** Events the broadcast channel retains for a slow receiver. */
  const BROADCAST_CAPACITY: nat := 256

  // ------------------------------------------------------------ the writer's side

  /** What the single writer has committed and broadcast at each moment, and at which moments
      the read pool fails. Every interleaving with a subscriber is some choice of these. */
  datatype World = World(log: nat -> seq<Row>, sent: nat -> seq<Event>, fails: nat -> bool)

  /** Rows and broadcasts are only ever added. */
  ghost predicate TimeFlows(w: World) {
    && (forall t, u :: 0 <= t <= u ==> w.log(t) <= w.log(u))
    && (forall t, u :: 0 <= t <= u ==> w.sent(t) <= w.sent(u))
  }

  // -------------------------------------------------------- the subscriber's side

  datatype Phase = Replaying(after: nat) | Live

  datatype Frame = Change(event: Event) | Lagged(dropped: nat)

  /** What became of one event broadcast after registration. */
  datatype Fate = Forwarded | Foreign | Covered | Lost

  /** The subscriber's variables, its frames split into the replayed and the live ones.
      `next` is the broadcast receiver's position; `fates` labels every broadcast event
      from registration up to it. */
  datatype Session = Session(phase: Phase, mark: nat, next: nat,
                             replayed: seq<Event>, live: seq<Frame>, fates: seq<Fate>)

  function Start(w: World, since: Option<nat>, t: nat): Session {
    match since
    case Some(cursor) => Session(Replaying(cursor), cursor, |w.sent(t)|, [], [], [])
    case None => Session(Live, 0, |w.sent(t)|, [], [], [])
  }

  predicate IsCovered(mark: nat, e: Event) {
    e.stamp.Some? && e.stamp.value <= mark
  }

  function Classify(ns: Namespace, mark: nat, e: Event): Fate {
    if e.ns != ns then Foreign else if IsCovered(mark, e) then Covered else Forwarded
  }

  /** One page of replay read at time `t`. */
  function ReplayTurn(w: World, ns: Namespace, s: Session, t: nat): Session
    requires s.phase.Replaying?
  {
    if w.fails(t) then s.(phase := Live)
    else
      var page := PageOf(w.log(t), ns, s.phase.after, REPLAY_BATCH);
      s.(mark := Max(s.mark, page.lastSeq),
         replayed := s.replayed + page.changes,
         phase := if page.scanned < REPLAY_BATCH then Live else Replaying(page.lastSeq))
  }

  function AllLost(n: nat): (r: seq<Fate>)
    ensures |r| == n && forall i :: 0 <= i < n ==> r[i] == Lost
  {
    seq(n, _ => Lost)
  }

  datatype Received = Received(next: nat, frames: seq<Frame>, fates: seq<Fate>)

  /** One receive from a channel that has carried `sent`: nothing queued, a lag notice
      for the events no longer retained, or the next event. */
  function Receive(sent: seq<Event>, ns: Namespace, mark: nat, next: nat): Received {
    if next >= |sent| then Received(next, [], [])
    else if |sent| - next > BROADCAST_CAPACITY then
      var dropped := |sent| - BROADCAST_CAPACITY - next;
      Received(next + dropped, [Lagged(dropped)], AllLost(dropped))
    else
      var fate := Classify(ns, mark, sent[next]);
      Received(next + 1, if fate == Forwarded then [Change(sent[next])] else [], [fate])
  }

  function LiveTurn(w: World, ns: Namespace, s: Session, t: nat): Session {
    var r := Receive(w.sent(t), ns, s.mark, s.next);
    s.(next := r.next, live := s.live + r.frames, fates := s.fates + r.fates)
  }

  function Turn(w: World, ns: Namespace, s: Session, t: nat): Session {
    if s.phase.Replaying? then ReplayTurn(w, ns, s, t) else LiveTurn(w, ns, s, t)
  }

  /** The successive states of a session registered at `t0`, one turn apart. */
  ghost predicate IsRun(w: World, ns: Namespace, since: Option<nat>, t0: nat, run: seq<Session>) {
    && run != []
    && run[0] == Start(w, since, t0)
    && (forall i :: 0 <= i < |run| - 1 ==> TurnAt(w, ns, t0, run, i))
  }

  ghost predicate TurnAt(w: World, ns: Namespace, t0: nat, run: seq<Session>, i: nat)
    requires i + 1 < |run|
  {
    run[i + 1] == Turn(w, ns, run[i], t0 + i)
  }

  ghost function Last(run: seq<Session>): Session
    requires run != []
  {
    run[|run| - 1]
  }

  /** When the last state of a run was reached. */
  function EndTime(t0: nat, run: seq<Session>): nat
    requires run != []
  {
    t0 + |run| - 1
  }

  lemma {:induction false} Extend(w: World, ns: Namespace, since: Option<nat>, t0: nat, run: seq<Session>, s: Session)
    requires IsRun(w, ns, since, t0, run) && s == Turn(w, ns, Last(run), EndTime(t0, run))
    ensures IsRun(w, ns, since, t0, run + [s])
  {
    var longer := run + [s];
    forall i | 0 <= i < |longer| - 1 ensures TurnAt(w, ns, t0, longer, i) {
      if i < |run| - 1 { assert TurnAt(w, ns, t0, run, i); }
    }
  }

  /** A session registered at `t0` is in state `s` after `turns` turns. */
  ghost predicate Reaches(w: World, ns: Namespace, since: Option<nat>, t0: nat, turns: nat, s: Session) {
    exists run :: IsRun(w, ns, since, t0, run) && |run| == turns + 1 && Last(run) == s
  }

  /** The writer's timing decides everything: there is one such state. */
  lemma {:induction false} RunsAgree(w: World, ns: Namespace, since: Option<nat>, t0: nat, a: seq<Session>,
                                     b: seq<Session>, n: nat)
    requires IsRun(w, ns, since, t0, a) && IsRun(w, ns, since, t0, b) && n < |a| && n < |b|
    ensures a[n] == b[n]
  {
    if n > 0 {
      RunsAgree(w, ns, since, t0, a, b, n - 1);
      assert TurnAt(w, ns, t0, a, n - 1) && TurnAt(w, ns, t0, b, n - 1);
    }
  }

  /** `stream_changes` for `turns` awaits from registration time `t0`. */
  method StreamChanges(w: World, ns: Namespace, since: Option<nat>, t0: nat, turns: nat)
    returns (s: Session, ghost run: seq<Session>)
    ensures IsRun(w, ns, since, t0, run) && |run| == turns + 1 && s == Last(run)
    ensures Reaches(w, ns, since, t0, turns, s)
  {
    var n := 0;
    s := Start(w, since, t0);
    run := [s];
    if since.Some? {
      n, s, run := Replay(w, ns, since.value, t0, turns);
    }
    if s.phase.Live? {
      s, run := Listen(w, ns, since, t0, n, s, run, turns);
    }
  }

  /** The replay loop: page until a short page or a store error. */
  method Replay(w: World, ns: Namespace, cursor: nat, t0: nat, turns: nat)
    returns (n: nat, s: Session, ghost run: seq<Session>)
    ensures IsRun(w, ns, Some(cursor), t0, run) && |run| == n + 1 && s == Last(run)
    ensures n <= turns && (n == turns || s.phase.Live?)
    ensures s.live == [] && s.fates == []
  {
    var rx: nat := |w.sent(t0)|;
    var replayedTo: nat := cursor;
    var replayed: seq<Event> := [];
    var after := cursor;
    var done := false;
    n := 0;
    run := [Start(w, Some(cursor), t0)];
    while n < turns && !done
      invariant n <= turns && |run| == n + 1 && IsRun(w, ns, Some(cursor), t0, run)
      invariant Last(run)
             == Session(if done then Live else Replaying(after), replayedTo, rx, replayed, [], [])
    {
      if w.fails(t0 + n) {
        done := true;
      } else {
        var page := ReadPage(w.log(t0 + n), ns, after, REPLAY_BATCH);
        done := page.scanned < REPLAY_BATCH;
        replayedTo := Max(replayedTo, page.lastSeq);
        replayed := replayed + page.changes;
        if !done {
          after := page.lastSeq;
        }
      }
      Extend(w, ns, Some(cursor), t0, run, Turn(w, ns, Last(run), t0 + n));
      run := run + [Turn(w, ns, Last(run), t0 + n)];
      n := n + 1;
    }
    s := Session(if done then Live else Replaying(after), replayedTo, rx, replayed, [], []);
  }

  /** The live loop: filter by namespace, drop what the replay covered, report lag. */
  method Listen(w: World, ns: Namespace, ghost since: Option<nat>, t0: nat, n0: nat, s0: Session,
                ghost run0: seq<Session>, turns: nat)
    returns (s: Session, ghost run: seq<Session>)
    requires IsRun(w, ns, since, t0, run0) && |run0| == n0 + 1 && s0 == Last(run0)
    requires n0 <= turns && s0.phase.Live? && s0.live == [] && s0.fates == []
    ensures IsRun(w, ns, since, t0, run) && |run| == turns + 1 && s == Last(run)
    ensures Reaches(w, ns, since, t0, turns, s)
  {
    var rx: nat := s0.next;
    var live: seq<Frame> := [];
    var fates: seq<Fate> := [];
    var n := n0;
    run := run0;
    while n < turns
      invariant n0 <= n <= turns && |run| == n + 1 && IsRun(w, ns, since, t0, run)
      invariant Last(run) == Session(Live, s0.mark, rx, s0.replayed, live, fates)
    {
      Extend(w, ns, since, t0, run, Turn(w, ns, Last(run), t0 + n));
      run := run + [Turn(w, ns, Last(run), t0 + n)];
      var frames, labels;
      rx, frames, labels := ReceiveOne(w.sent(t0 + n), ns, s0.mark, rx);
      live, fates := live + frames, fates + labels;
      n := n + 1;
    }
    s := Session(Live, s0.mark, rx, s0.replayed, live, fates);
  }

  method ReceiveOne(sent: seq<Event>, ns: Namespace, replayedTo: nat, position: nat)
    returns (rx: nat, frames: seq<Frame>, fates: seq<Fate>)
    ensures Received(rx, frames, fates) == Receive(sent, ns, replayedTo, position)
  {
    rx, frames, fates := position, [], [];
    if rx < |sent| {
      if |sent| - rx > BROADCAST_CAPACITY {
        var dropped := |sent| - BROADCAST_CAPACITY - rx;
        frames, fates := [Lagged(dropped)], AllLost(dropped);
        rx := rx + dropped;
      } else {
        var evt := sent[rx];
        rx := rx + 1;
        if evt.ns != ns {
          fates := [Foreign];
        } else if evt.stamp.Some? && evt.stamp.value <= replayedTo {
          fates := [Covered];
        } else {
          frames, fates := [Change(evt)], [Forwarded];
        }
      }
    }
  }
}
