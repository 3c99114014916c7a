/**
 The writer at work: the log and the broadcasts after each of a list of commands, the visible
 actions in between, and the worlds in which those actions are spread over time.
 */
module WriterRuns {
  import opened Common
  import opened Oplog
  import opened ChangeStream
  import opened StreamSafety
  import opened WriterArms

  /** What has been committed and broadcast so far. */
  datatype State = State(log: seq<Row>, sent: seq<Event>)

  function After(s: State, c: Command): State {
    State(s.log + Rows(c), s.sent + Events(c, |s.log|))
  }

  /** `states` are the successive states of a writer carrying out `commands` one at a time, from its
      start with a fresh channel over whatever log it finds. */
  ghost predicate IsWork(commands: seq<Command>, states: seq<State>) {
    && |states| == |commands| + 1 && states[0].sent == []
    && (forall i :: 0 <= i < |commands| ==> WorkAt(commands, states, i))
  }

  ghost predicate WorkAt(commands: seq<Command>, states: seq<State>, i: nat)
    requires i < |commands| && i + 1 < |states|
  {
    states[i + 1] == After(states[i], commands[i])
  }

  /** Every list of commands can be carried out over every log. */
  function StatesOf(log: seq<Row>, commands: seq<Command>): (states: seq<State>)
    ensures IsWork(commands, states) && states[0].log == log
    decreases |commands|
  {
    if commands == [] then [State(log, [])]
    else
      var n := |commands| - 1;
      var states := StatesOf(log, commands[..n]);
      ExtendWork(commands, states);
      states + [After(states[n], commands[n])]
  }

  lemma {:induction false} ExtendWork(commands: seq<Command>, states: seq<State>)
    requires commands != [] && IsWork(commands[..|commands| - 1], states)
    ensures IsWork(commands, states + [After(states[|commands| - 1], commands[|commands| - 1])])
  {
    var n := |commands| - 1;
    var longer := states + [After(states[n], commands[n])];
    forall i | 0 <= i < |commands| ensures WorkAt(commands, longer, i) {
      if i < n {
        assert WorkAt(commands[..n], states, i);
        assert longer[i] == states[i] && longer[i + 1] == states[i + 1] && commands[..n][i] == commands[i];
      }
    }
  }

  /** One visible action of the writer. */
  datatype Micro = Commit(row: Row) | Publish(event: Event)

  function Committed(history: seq<Micro>): seq<Row> {
    if history == [] then []
    else
      var last := history[|history| - 1];
      Committed(history[..|history| - 1]) + if last.Commit? then [last.row] else []
  }

  function Published(history: seq<Micro>): seq<Event> {
    if history == [] then []
    else
      var last := history[|history| - 1];
      Published(history[..|history| - 1]) + if last.Publish? then [last.event] else []
  }

  /** The world in which the first `cut(t)` of the writer's actions have happened by time `t`, on top of
      the log `found` at its start. */
  ghost predicate Unfolds(w: World, found: seq<Row>, history: seq<Micro>, cut: nat -> nat) {
    && (forall t, u :: 0 <= t <= u ==> cut(t) <= cut(u) <= |history|)
    && (forall t :: 0 <= t ==> w.log(t) == found + Committed(history[..cut(t)]))
    && (forall t :: 0 <= t ==> w.sent(t) == Published(history[..cut(t)]))
  }

  function Commits(rows: seq<Row>): seq<Micro> {
    seq(|rows|, i requires 0 <= i < |rows| => Commit(rows[i]))
  }

  function Publishes(events: seq<Event>): seq<Micro> {
    seq(|events|, i requires 0 <= i < |events| => Publish(events[i]))
  }

  /** One state leads to a longer one. */
  ghost predicate Grows(a: State, b: State) {
    a.log <= b.log && a.sent <= b.sent
  }

  ghost predicate AllGrow(states: seq<State>) {
    forall i :: 0 <= i < |states| - 1 ==> Grows(states[i], states[i + 1])
  }

  /** The visible actions between two states: all the commits, then all the broadcasts. */
  function Between(a: State, b: State): seq<Micro>
    requires |a.log| <= |b.log| && |a.sent| <= |b.sent|
  {
    Commits(b.log[|a.log|..]) + Publishes(b.sent[|a.sent|..])
  }

  /** The writer's visible actions up to its `n`th state. */
  ghost function History(states: seq<State>, n: nat): seq<Micro>
    requires n < |states| && AllGrow(states)
  {
    if n == 0 then [] else History(states, n - 1) + Between(states[n - 1], states[n])
  }

  /** The writer carries out all its work, its visible actions spread over time by `cut`. */
  ghost predicate CarriesOut(w: World, states: seq<State>, cut: nat -> nat) {
    states != [] && AllGrow(states) && Unfolds(w, states[0].log, History(states, |states| - 1), cut)
  }

  lemma {:induction false} PrefixOfHistory(history: seq<Micro>, m: nat, n: nat)
    requires m <= n <= |history|
    ensures Committed(history[..m]) <= Committed(history[..n])
    ensures Published(history[..m]) <= Published(history[..n])
    decreases n
  {
    if m < n {
      PrefixOfHistory(history, m, n - 1);
      assert history[..n][..n - 1] == history[..n - 1];
    }
  }

  lemma {:induction false} UnfoldingFlows(w: World, found: seq<Row>, history: seq<Micro>, cut: nat -> nat)
    requires Unfolds(w, found, history, cut)
    ensures TimeFlows(w)
  {
    forall t: nat, u: nat | t <= u ensures w.log(t) <= w.log(u) && w.sent(t) <= w.sent(u) {
      PrefixOfHistory(history, cut(t), cut(u));
      OnTop(found, Committed(history[..cut(t)]), Committed(history[..cut(u)]));
    }
  }

  lemma {:induction false} OnTop(found: seq<Row>, x: seq<Row>, y: seq<Row>)
    requires x <= y
    ensures found + x <= found + y
  {
  }

  lemma {:induction false} CommitsLog(before: seq<Micro>, rows: seq<Row>)
    ensures Committed(before + Commits(rows)) == Committed(before) + rows
    ensures Published(before + Commits(rows)) == Published(before)
  {
    if rows == [] {
      assert before + Commits(rows) == before;
    } else {
      var n := |rows| - 1;
      CommitsLog(before, rows[..n]);
      var h := before + Commits(rows);
      assert h[..|h| - 1] == before + Commits(rows[..n]);
    }
  }

  lemma {:induction false} PublishesSend(before: seq<Micro>, events: seq<Event>)
    ensures Committed(before + Publishes(events)) == Committed(before)
    ensures Published(before + Publishes(events)) == Published(before) + events
  {
    if events == [] {
      assert before + Publishes(events) == before;
    } else {
      var n := |events| - 1;
      PublishesSend(before, events[..n]);
      var h := before + Publishes(events);
      assert h[..|h| - 1] == before + Publishes(events[..n]);
    }
  }

  lemma {:induction false} BetweenIs(found: seq<Row>, before: seq<Micro>, a: State, b: State)
    requires found + Committed(before) == a.log && Published(before) == a.sent && Grows(a, b)
    ensures found + Committed(before + Between(a, b)) == b.log && Published(before + Between(a, b)) == b.sent
  {
    var rows, events := b.log[|a.log|..], b.sent[|a.sent|..];
    CommitsLog(before, rows);
    PublishesSend(before + Commits(rows), events);
    Regroup(before, Commits(rows), Publishes(events));
    Regroup(found, Committed(before), rows);
    assert a.log + rows == b.log && a.sent + events == b.sent;
  }

  lemma {:induction false} HistoryIs(states: seq<State>, n: nat)
    requires n < |states| && AllGrow(states) && states[0].sent == []
    ensures states[0].log + Committed(History(states, n)) == states[n].log
    ensures Published(History(states, n)) == states[n].sent
  {
    if n > 0 {
      HistoryIs(states, n - 1);
      assert Grows(states[n - 1], states[n - 1 + 1]);
      BetweenIs(states[0].log, History(states, n - 1), states[n - 1], states[n]);
    }
  }

  lemma {:induction false} HistoryGrows(states: seq<State>, m: nat, n: nat)
    requires m <= n < |states| && AllGrow(states)
    ensures History(states, m) <= History(states, n)
    decreases n
  {
    if m < n { HistoryGrows(states, m, n - 1); }
  }

  lemma {:induction false} WorkGrows(commands: seq<Command>, states: seq<State>)
    requires IsWork(commands, states)
    ensures AllGrow(states)
  {
    forall i | 0 <= i < |states| - 1 ensures Grows(states[i], states[i + 1]) {
      assert WorkAt(commands, states, i);
    }
  }

  lemma {:induction false} LaterIsLonger(states: seq<State>, m: nat, n: nat)
    requires m <= n < |states| && AllGrow(states)
    ensures Grows(states[m], states[n])
    decreases n
  {
    if m < n {
      LaterIsLonger(states, m, n - 1);
      assert Grows(states[n - 1], states[n - 1 + 1]);
    }
  }

  // ------------------------------------------------------ what always holds

  ghost predicate StampsAtMost(events: seq<Event>, hi: nat) {
    forall e :: e in events ==> e.stamp.Some? && e.stamp.value <= hi
  }

  lemma {:induction false} StampsInRange(c: Command, base: nat)
    ensures StampsOrdered(Events(c, base), false)
    ensures forall e :: e in Events(c, base) ==>
              e.stamp.Some? && base <= e.stamp.value <= base + |Rows(c)|
  {
  }

  ghost predicate StampsSound(s: State) {
    StampsOrdered(s.sent, false) && StampsAtMost(s.sent, |s.log|)
  }

  lemma {:induction false} CommandKeepsStampsSound(s: State, c: Command)
    requires StampsSound(s)
    ensures StampsSound(After(s, c))
  {
    StampsInRange(c, |s.log|);
    JoinOrdered(s.sent, Events(c, |s.log|), |s.log|);
  }

  /** Whatever the commands, broadcast stamps never go back and never run ahead of the log. */
  lemma {:induction false} StampsNeverGoBack(commands: seq<Command>, states: seq<State>, n: nat)
    requires IsWork(commands, states) && n <= |commands|
    ensures StampsSound(states[n])
  {
    if n > 0 {
      StampsNeverGoBack(commands, states, n - 1);
      assert WorkAt(commands, states, n - 1);
      CommandKeepsStampsSound(states[n - 1], commands[n - 1]);
    }
  }

  lemma {:induction false} JoinOrdered(x: seq<Event>, y: seq<Event>, base: nat)
    requires StampsOrdered(x, false) && StampsOrdered(y, false)
    requires forall e :: e in x ==> e.stamp.Some? && e.stamp.value <= base
    requires forall e :: e in y ==> e.stamp.Some? && base <= e.stamp.value
    ensures StampsOrdered(x + y, false)
  {
  }

  ghost predicate AllAtMost(states: seq<State>) {
    forall i :: 0 <= i < |states| ==> StampsAtMost(states[i].sent, |states[i].log|)
  }

  /** After the first `k` actions, no event carries a number beyond the log. */
  ghost predicate TrailsAt(found: nat, history: seq<Micro>, k: nat)
    requires k <= |history|
  {
    StampsAtMost(Published(history[..k]), found + |Committed(history[..k])|)
  }

  /** No event is broadcast before the row whose number it carries is committed. */
  lemma {:induction false} StampsTrailLog(states: seq<State>, n: nat, k: nat)
    requires n < |states| && AllGrow(states) && AllAtMost(states) && states[0].sent == []
    requires k <= |History(states, n)|
    ensures TrailsAt(|states[0].log|, History(states, n), k)
    decreases n
  {
    if n > 0 {
      var before, a, b := History(states, n - 1), states[n - 1], states[n];
      assert Grows(states[n - 1], states[n - 1 + 1]);
      HistoryIs(states, n - 1);
      if k <= |before| { StampsTrailLog(states, n - 1, k); }
      TrailsNext(|states[0].log|, before, a, b, k);
    }
  }

  lemma {:induction false} TrailsNext(found: nat, before: seq<Micro>, a: State, b: State, k: nat)
    requires Grows(a, b) && found + |Committed(before)| == |a.log| && Published(before) == a.sent
    requires StampsAtMost(a.sent, |a.log|) && StampsAtMost(b.sent, |b.log|)
    requires k <= |before + Between(a, b)| && (k <= |before| ==> TrailsAt(found, before, k))
    ensures TrailsAt(found, before + Between(a, b), k)
  {
    if k <= |before| {
      assert (before + Between(a, b))[..k] == before[..k];
    } else {
      var rows, events := b.log[|a.log|..], b.sent[|a.sent|..];
      Regroup(before, Commits(rows), Publishes(events));
      TrailsWithin(found, before, rows, events, k);
    }
  }

  lemma {:induction false} TrailsWithin(found: nat, before: seq<Micro>, rows: seq<Row>, events: seq<Event>, n: nat)
    requires |before| < n <= |before + Commits(rows) + Publishes(events)|
    requires StampsAtMost(Published(before), found + |Committed(before)|)
    requires StampsAtMost(events, found + |Committed(before)| + |rows|)
    ensures var h := (before + Commits(rows) + Publishes(events))[..n];
            StampsAtMost(Published(h), found + |Committed(h)|)
  {
    HistorySlices(before, rows, events, n);
    if n <= |before| + |rows| {
      CommitsLog(before, rows[..n - |before|]);
    } else {
      CommitsLog(before, rows);
      PublishesSend(before + Commits(rows), events[..n - |before| - |rows|]);
    }
  }

  lemma {:induction false} HistorySlices(before: seq<Micro>, rows: seq<Row>, events: seq<Event>, n: nat)
    requires n <= |before + Commits(rows) + Publishes(events)|
    ensures var h := (before + Commits(rows) + Publishes(events))[..n];
            && (n <= |before| ==> h == before[..n])
            && (|before| <= n <= |before| + |rows| ==> h == before + Commits(rows[..n - |before|]))
            && (|before| + |rows| <= n ==>
                  h == before + Commits(rows) + Publishes(events[..n - |before| - |rows|]))
  {
  }

  lemma {:induction false} UnfoldedPrefix(commands: seq<Command>, states: seq<State>, w: World, cut: nat -> nat, t: nat)
    requires IsWork(commands, states) && CarriesOut(w, states, cut)
    ensures TimeFlows(w) && Grows(State(w.log(t), w.sent(t)), states[|commands|])
    ensures StampsAtMost(w.sent(t), |w.log(t)|)
  {
    var n := |commands|;
    var h := History(states, n);
    UnfoldingFlows(w, states[0].log, h, cut);
    forall i | 0 <= i < |states| ensures StampsAtMost(states[i].sent, |states[i].log|) {
      StampsNeverGoBack(commands, states, i);
    }
    assert cut(t) <= cut(t) <= |h|;
    assert h[..|h|] == h;
    PrefixOfHistory(h, cut(t), |h|);
    OnTop(states[0].log, Committed(h[..cut(t)]), Committed(h));
    StampsTrailLog(states, n, cut(t));
    HistoryIs(states, n);
  }
}
