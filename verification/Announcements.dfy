/**
 Which histories of the writer's commands announce only own rows, which rows they leave
 unannounced, and therefore exactly when their subscribers miss nothing.
 */
module Announcements {
  import opened Common
  import opened Oplog
  import opened ChangeStream
  import opened StreamSafety
  import opened StreamExact
  import opened WriterArms
  import opened WriterRuns

  lemma {:induction false} OwnOfMember(log: seq<Row>, rows: seq<Row>, e: Event)
    ensures e in OwnOf(rows, |log|) <==> IsOwn(log + rows, e) && |log| < e.stamp.value
    decreases |rows|
  {
    if rows != [] {
      var front, last := rows[..|rows| - 1], rows[|rows| - 1];
      OwnOfMember(log, front, e);
      assert log + rows == log + front + [last];
      OwnSnoc(log + front, last, e);
    }
  }

  lemma {:induction false} OwnSnoc(log: seq<Row>, row: Row, e: Event)
    ensures IsOwn(log + [row], e) <==> IsOwn(log, e) || e in OwnEvent(row, |log| + 1)
  {
  }

  lemma {:induction false} OwnOfRising(rows: seq<Row>, base: nat)
    ensures StampsOrdered(OwnOf(rows, base), true)
    ensures forall e :: e in OwnOf(rows, base) ==> e.stamp.Some? && base < e.stamp.value <= base + |rows|
  {
    if rows != [] { OwnOfRising(rows[..|rows| - 1], base); }
  }

  // ------------------------------------------- which histories announce only own rows

  /** Whether a command is about `ns` at all. */
  predicate Concerns(c: Command, ns: Namespace) {
    !c.Silent? && c.ns == ns
  }

  /** The last row of the log is this change, and nobody has announced it yet. */
  predicate AnnouncesTop(log: seq<Row>, sent: seq<Event>, ns: Namespace, id: MemoryId, kind: ChangeKind) {
    && log != [] && log[|log| - 1] == Row(ns, Some(id), kind)
    && Event(ns, id, kind, Some(|log|)) !in sent
  }

  /** What a command about `ns` must be, given log and broadcasts so far, for each of its events
      beyond `from` to carry its own row. An edit that changed nothing still broadcasts the highest
      number in the log, which is right only if that row is this very change and unannounced. */
  predicate TruthfulNext(log: seq<Row>, sent: seq<Event>, ns: Namespace, from: nat, c: Command) {
    Concerns(c, ns) ==>
      match MannerOf(c)
      case OwnRows => true
      case NoMention => true
      case TopOfLog(id, kind) => |log| <= from || AnnouncesTop(log, sent, ns, id, kind)
      case AnotherRow => false
  }

  /** Whatever the first `past` commands were, each of the later ones up to the `n`th was truthful
      when it came. */
  ghost predicate Truthful(commands: seq<Command>, states: seq<State>, past: nat, n: nat, ns: Namespace)
    requires past <= n <= |commands| && n < |states|
  {
    forall i :: past <= i < n ==> TruthfulAt(commands, states, past, i, ns)
  }

  ghost predicate TruthfulAt(commands: seq<Command>, states: seq<State>, past: nat, i: nat, ns: Namespace)
    requires past <= i < |commands| && i < |states|
  {
    TruthfulNext(states[i].log, states[i].sent, ns, |states[past].log|, commands[i])
  }

  /** One command, on values: its news keeps to own rows exactly when it is truthful. */
  lemma {:induction false} TruthfulStep(log: seq<Row>, sent: seq<Event>, ns: Namespace, from: nat, c: Command)
    requires OwnInOrder(log, ns, from, sent) && StampsAtMost(sent, |log|) && from <= |log|
    ensures OwnInOrder(log + Rows(c), ns, from, sent + Events(c, |log|)) <==> TruthfulNext(log, sent, ns, from, c)
  {
    if !Concerns(c, ns) {
      ForeignStep(log, sent, ns, from, c);
    } else if MannerOf(c).OwnRows? || MannerOf(c).NoMention? {
      OwnStep(log, sent, ns, from, c);
    } else if MannerOf(c).TopOfLog? {
      UnchangedStep(log, sent, ns, from, c);
    } else {
      WrongStamp(log, c);
      assert Events(c, |log|)[0] in sent + Events(c, |log|);
    }
  }

  lemma {:induction false} ForeignEvents(ns: Namespace, c: Command, base: nat)
    requires !Concerns(c, ns)
    ensures forall e :: e in Events(c, base) ==> e.ns != ns
    ensures forall row :: row in Rows(c) ==> row.ns != ns
  {
  }

  lemma {:induction false} ForeignStep(log: seq<Row>, sent: seq<Event>, ns: Namespace, from: nat, c: Command)
    requires OwnInOrder(log, ns, from, sent) && !Concerns(c, ns)
    ensures OwnInOrder(log + Rows(c), ns, from, sent + Events(c, |log|))
  {
    ForeignEvents(ns, c, |log|);
    AppendOwn(log, log + Rows(c), ns, from, sent, Events(c, |log|));
  }

  /** Appending no news, or news of own rows beyond everything before, keeps the order. */
  lemma {:induction false} AppendOwn(log: seq<Row>, longer: seq<Row>, ns: Namespace, from: nat, sent: seq<Event>,
                                     events: seq<Event>)
    requires OwnInOrder(log, ns, from, sent) && log <= longer && RisingIn(ns, from, events)
    requires forall e :: e in events && IsNews(ns, from, e) ==> IsOwn(longer, e)
    requires forall d, e :: (&& d in sent && e in events && IsNews(ns, from, d) && IsNews(ns, from, e)
                             && d.stamp.Some? && e.stamp.Some?) ==> d.stamp.value < e.stamp.value
    ensures OwnInOrder(longer, ns, from, sent + events)
  {
    var all := sent + events;
    forall i, j | 0 <= i < j < |all| && IsNews(ns, from, all[i]) && IsNews(ns, from, all[j])
                  && all[i].stamp.Some? && all[j].stamp.Some?
      ensures all[i].stamp.value < all[j].stamp.value
    {
      if j < |sent| {
        assert sent[i] == all[i] && sent[j] == all[j];
      } else if i < |sent| {
        assert sent[i] == all[i] && events[j - |sent|] == all[j];
      } else {
        assert events[i - |sent|] == all[i] && events[j - |sent|] == all[j];
      }
    }
  }

  lemma {:induction false} OwnStep(log: seq<Row>, sent: seq<Event>, ns: Namespace, from: nat, c: Command)
    requires OwnInOrder(log, ns, from, sent) && StampsAtMost(sent, |log|)
    requires MannerOf(c).OwnRows? || MannerOf(c).NoMention?
    ensures OwnInOrder(log + Rows(c), ns, from, sent + Events(c, |log|))
  {
    var events := Events(c, |log|);
    if MannerOf(c).OwnRows? { FaithfulExactlyWhen(c, |log|); }
    OwnOfRising(Rows(c), |log|);
    forall e | e in events ensures IsOwn(log + Rows(c), e) {
      OwnOfMember(log, Rows(c), e);
    }
    AppendOwn(log, log + Rows(c), ns, from, sent, events);
  }

  lemma {:induction false} UnchangedStep(log: seq<Row>, sent: seq<Event>, ns: Namespace, from: nat, c: Command)
    requires OwnInOrder(log, ns, from, sent) && StampsAtMost(sent, |log|) && from <= |log|
    requires MannerOf(c).TopOfLog? && c.ns == ns
    ensures OwnInOrder(log + Rows(c), ns, from, sent + Events(c, |log|)) <==> TruthfulNext(log, sent, ns, from, c)
  {
    var e := Event(ns, MannerOf(c).id, MannerOf(c).kind, Some(|log|));
    assert Events(c, |log|) == [e] && log + Rows(c) == log;
    TopEvent(log, sent, ns, from, e);
  }

  /** Broadcasting the number on top of the log is in order exactly when it is no news, or when it
      announces that row for the first time. */
  lemma {:induction false} TopEvent(log: seq<Row>, sent: seq<Event>, ns: Namespace, from: nat, e: Event)
    requires OwnInOrder(log, ns, from, sent) && StampsAtMost(sent, |log|) && from <= |log|
    requires e.ns == ns && e.stamp == Some(|log|)
    ensures OwnInOrder(log, ns, from, sent + [e]) <==> |log| <= from || (IsOwn(log, e) && e !in sent)
  {
    if |log| <= from {
      AppendOwn(log, log, ns, from, sent, [e]);
    } else if IsOwn(log, e) && e !in sent {
      forall d | d in sent && IsNews(ns, from, d) ensures d.stamp.value < |log| {
        assert IsOwn(log, d);
      }
      AppendOwn(log, log, ns, from, sent, [e]);
    } else if OwnInOrder(log, ns, from, sent + [e]) {
      assert (sent + [e])[|sent|] == e;
      forall i | 0 <= i < |sent| ensures sent[i] != e {
        assert (sent + [e])[i] == sent[i];
      }
    }
  }

  /** The stamp of the first event is a link row's, or the merge's bulk row's. */
  lemma {:induction false} WrongStamp(log: seq<Row>, c: Command)
    requires MannerOf(c).AnotherRow?
    ensures var e := Events(c, |log|)[0];
            e.ns == c.ns && e.stamp.Some? && |log| < e.stamp.value && !IsOwn(log + Rows(c), e)
  {
    if c.ReviewMerge? {
      assert (log + Rows(c))[|log| + 3] == Row(c.ns, None, Updated);
    } else {
      assert (log + Rows(c))[|log| + c.links] == Rows(c)[c.links] == Row(c.ns, Some(c.id), Updated);
    }
  }

  /** Since the first `past` commands, a history has announced only own rows about `ns`, in row order,
      exactly when each later command was truthful about `ns` when it came. */
  lemma {:induction false} HonestExactlyWhen(commands: seq<Command>, states: seq<State>, past: nat, n: nat,
                                             ns: Namespace)
    requires IsWork(commands, states) && past <= n <= |commands|
    ensures OwnInOrder(states[n].log, ns, |states[past].log|, states[n].sent)
       <==> Truthful(commands, states, past, n, ns)
    decreases n
  {
    StampsNeverGoBack(commands, states, n);
    if n > past {
      HonestExactlyWhen(commands, states, past, n - 1, ns);
      HonestAt(commands, states, past, n - 1, ns);
      assert Truthful(commands, states, past, n, ns)
        <==> Truthful(commands, states, past, n - 1, ns) && TruthfulAt(commands, states, past, n - 1, ns);
    }
  }

  lemma {:induction false} HonestAt(commands: seq<Command>, states: seq<State>, past: nat, i: nat, ns: Namespace)
    requires IsWork(commands, states) && past <= i < |commands|
    ensures OwnInOrder(states[i + 1].log, ns, |states[past].log|, states[i + 1].sent)
       <==> OwnInOrder(states[i].log, ns, |states[past].log|, states[i].sent) &&
            TruthfulAt(commands, states, past, i, ns)
  {
    WorkGrows(commands, states);
    LaterIsLonger(states, past, i);
    StampsNeverGoBack(commands, states, i);
    assert WorkAt(commands, states, i);
    HonestNext(states[i].log, states[i].sent, ns, |states[past].log|, commands[i]);
  }

  lemma {:induction false} HonestNext(log: seq<Row>, sent: seq<Event>, ns: Namespace, from: nat, c: Command)
    requires StampsAtMost(sent, |log|) && from <= |log|
    ensures OwnInOrder(log + Rows(c), ns, from, sent + Events(c, |log|))
       <==> OwnInOrder(log, ns, from, sent) && TruthfulNext(log, sent, ns, from, c)
  {
    OwnPrefix(log, log + Rows(c), ns, from, sent, sent + Events(c, |log|));
    if OwnInOrder(log, ns, from, sent) { TruthfulStep(log, sent, ns, from, c); }
  }

  lemma {:induction false} OwnPrefix(log: seq<Row>, longer: seq<Row>, ns: Namespace, from: nat, sent: seq<Event>,
                                     all: seq<Event>)
    requires log <= longer && sent <= all && StampsAtMost(sent, |log|)
    ensures OwnInOrder(longer, ns, from, all) ==> OwnInOrder(log, ns, from, sent)
  {
    assert forall i :: 0 <= i < |sent| ==> all[i] == sent[i];
    assert forall e :: e in sent ==> e in all;
  }

  /** Commands that are truthful about `ns` make an honest writer for it, whatever came before, however
      their commits and broadcasts are spread over time, and whatever happens in other namespaces. */
  lemma {:induction false} HonestWriter(commands: seq<Command>, states: seq<State>, past: nat, w: World,
                                        cut: nat -> nat, ns: Namespace)
    requires IsWork(commands, states) && CarriesOut(w, states, cut)
    requires past <= |commands| && Truthful(commands, states, past, |commands|, ns)
    ensures TimeFlows(w) && Honest(w, ns, |states[past].log|)
  {
    var n, from := |commands|, |states[past].log|;
    UnfoldedPrefix(commands, states, w, cut, 0);
    HonestExactlyWhen(commands, states, past, n, ns);
    forall t: nat ensures OwnInOrder(w.log(t), ns, from, w.sent(t)) {
      UnfoldedPrefix(commands, states, w, cut, t);
      OwnPrefix(w.log(t), states[n].log, ns, from, w.sent(t), states[n].sent);
    }
  }

  // --------------------------------------------------- which rows stay unannounced

  /** The rows of `ns` since the first `past` commands that no event announces: those of link changes,
      except one that an edit which changed nothing happened to announce. */
  ghost function Unheard(commands: seq<Command>, states: seq<State>, past: nat, n: nat, ns: Namespace): set<nat>
    requires past <= n <= |commands| && n < |states|
    decreases n
  {
    if n == past then {}
    else UnheardAfter(Unheard(commands, states, past, n - 1, ns), |states[n - 1].log|, ns, commands[n - 1])
  }

  function UnheardAfter(rows: set<nat>, base: nat, ns: Namespace, c: Command): set<nat> {
    if !Concerns(c, ns) then rows
    else
      match MannerOf(c)
      case NoMention => rows + {base + 1}
      case TopOfLog(_, _) => rows - {base}
      case _ => rows
  }

  lemma {:induction false} UnannouncedAre(commands: seq<Command>, states: seq<State>, past: nat, n: nat, ns: Namespace,
                                          q: nat)
    requires IsWork(commands, states) && past <= n <= |commands| && Truthful(commands, states, past, n, ns)
    requires |states[past].log| < q
    ensures q in Unannounced(states[n].log, ns, states[n].sent) <==> q in Unheard(commands, states, past, n, ns)
    decreases n
  {
    if n > past {
      UnannouncedAre(commands, states, past, n - 1, ns, q);
      StampsNeverGoBack(commands, states, n - 1);
      assert WorkAt(commands, states, n - 1) && TruthfulAt(commands, states, past, n - 1, ns);
      UnannouncedStep(states[n - 1].log, states[n - 1].sent, ns, |states[past].log|, commands[n - 1], q);
    }
  }

  lemma {:induction false} UnannouncedStep(log: seq<Row>, sent: seq<Event>, ns: Namespace, from: nat, c: Command,
                                           q: nat)
    requires StampsAtMost(sent, |log|) && from < q
    ensures TruthfulNext(log, sent, ns, from, c) ==>
              (q in Unannounced(log + Rows(c), ns, sent + Events(c, |log|)) <==>
               q in UnheardAfter(Unannounced(log, ns, sent), |log|, ns, c))
  {
    var base := |log|;
    if !TruthfulNext(log, sent, ns, from, c) {
    } else if !Concerns(c, ns) {
      ForeignEvents(ns, c, base);
      ForeignLeavesGaps(log, Rows(c), ns, sent, Events(c, base));
    } else if MannerOf(c).NoMention? {
      LinkOpensGap(log, Row(ns, Some(c.id), Updated), ns, sent);
      assert sent + Events(c, base) == sent;
    } else if MannerOf(c).TopOfLog? {
      assert log + Rows(c) == log && Events(c, base) == [Events(c, base)[0]];
      if base > from { EditClosesGap(log, ns, sent, Events(c, base)[0]); }
    } else {
      FaithfulExactlyWhen(c, base);
      OwnLeavesGaps(log, Rows(c), ns, sent);
    }
  }

  lemma {:induction false} ForeignLeavesGaps(log: seq<Row>, rows: seq<Row>, ns: Namespace, sent: seq<Event>,
                                             events: seq<Event>)
    requires forall row :: row in rows ==> row.ns != ns
    requires forall e :: e in events ==> e.ns != ns
    ensures Unannounced(log + rows, ns, sent + events) == Unannounced(log, ns, sent)
  {
    var longer := log + rows;
    forall q: nat | 0 < q <= |longer|
      ensures IsUnannounced(longer, ns, sent + events, q) <==> IsUnannounced(log, ns, sent, q)
    {
      if q > |log| { assert longer[q - 1] == rows[q - 1 - |log|]; }
    }
  }

  lemma {:induction false} OwnLeavesGaps(log: seq<Row>, rows: seq<Row>, ns: Namespace, sent: seq<Event>)
    ensures Unannounced(log + rows, ns, sent + OwnOf(rows, |log|)) == Unannounced(log, ns, sent)
  {
    var longer, all := log + rows, sent + OwnOf(rows, |log|);
    OwnOfRising(rows, |log|);
    forall q: nat | 0 < q <= |longer| ensures IsUnannounced(longer, ns, all, q) <==> IsUnannounced(log, ns, sent, q) {
      if longer[q - 1].id.Some? { OwnOfMember(log, rows, OwnEvent(longer[q - 1], q)[0]); }
    }
  }

  lemma {:induction false} LinkOpensGap(log: seq<Row>, row: Row, ns: Namespace, sent: seq<Event>)
    requires row.ns == ns && row.id.Some? && StampsAtMost(sent, |log|)
    ensures Unannounced(log + [row], ns, sent) == Unannounced(log, ns, sent) + {|log| + 1}
  {
    var longer := log + [row];
    assert longer[|log|] == row;
    assert IsUnannounced(longer, ns, sent, |log| + 1);
    forall q: nat | 0 < q <= |log| ensures IsUnannounced(longer, ns, sent, q) <==> IsUnannounced(log, ns, sent, q) {
      assert longer[q - 1] == log[q - 1];
    }
  }

  lemma {:induction false} EditClosesGap(log: seq<Row>, ns: Namespace, sent: seq<Event>, e: Event)
    requires e.ns == ns && e.stamp == Some(|log|) && IsOwn(log, e)
    ensures Unannounced(log, ns, sent + [e]) == Unannounced(log, ns, sent) - {|log|}
  {
    forall q: nat | 0 < q <= |log|
      ensures IsUnannounced(log, ns, sent + [e], q) <==> IsUnannounced(log, ns, sent, q) && q != |log|
    {
    }
  }

  /** Below a number already broadcast, what is unannounced stays so. */
  lemma {:induction false} GapsStay(log: seq<Row>, longer: seq<Row>, ns: Namespace, from: nat, sent: seq<Event>,
                                    all: seq<Event>, e: Event, q: nat)
    requires log <= longer && sent <= all && OwnInOrder(longer, ns, from, all) && StampsAtMost(sent, |log|)
    requires e in sent && e.ns == ns && from < q <= e.stamp.value
    ensures q in Unannounced(log, ns, sent) <==> q in Unannounced(longer, ns, all)
  {
    if log[q - 1].ns == ns && log[q - 1].id.Some? {
      var own := OwnEvent(log[q - 1], q)[0];
      var k :| 0 <= k < |sent| && sent[k] == e;
      assert all[k] == e;
      assert own in sent ==> own in all;
      if own in all {
        var i :| 0 <= i < |all| && all[i] == own;
        assert i <= k;
        assert sent[i] == own;
      }
    }
  }

  /** Link changes alone decide: a connection cut off anywhere has given its client exactly the
      changes from its cursor to the last stamp received if and only if no link row of the
      namespace that stays unannounced lies between watermark and stamp. */
  lemma {:induction false} LinksDecide(commands: seq<Command>, states: seq<State>, past: nat, w: World, cut: nat -> nat,
                                       ns: Namespace, cursor: nat, leg: Leg, until: nat)
    requires IsWork(commands, states) && CarriesOut(w, states, cut)
    requires past <= |commands| && Truthful(commands, states, past, |commands|, ns)
    requires IsLeg(w, ns, cursor, leg, until) && Smooth(w, leg) && |states[past].log| <= Last(leg.run).mark
    ensures UpToLast(w.log(until), ns, cursor, LegEvents(leg))
       <==> Clear(Unheard(commands, states, past, |commands|, ns), Last(leg.run).mark,
                  CursorAfter(cursor, LegEvents(leg)))
  {
    HonestWriter(commands, states, past, w, cut, ns);
    LegExactlyWhen(w, ns, |states[past].log|, cursor, leg, until);
    LegGapsStay(commands, states, past, w, cut, ns, cursor, leg, until);
  }

  lemma {:induction false} LegGapsStay(commands: seq<Command>, states: seq<State>, past: nat, w: World, cut: nat -> nat,
                                       ns: Namespace, cursor: nat, leg: Leg, until: nat)
    requires IsWork(commands, states) && CarriesOut(w, states, cut)
    requires past <= |commands| && Truthful(commands, states, past, |commands|, ns)
    requires IsLeg(w, ns, cursor, leg, until) && Smooth(w, leg) && |states[past].log| <= Last(leg.run).mark
    ensures var lo, hi := Last(leg.run).mark, CursorAfter(cursor, LegEvents(leg));
            Clear(Unannounced(w.log(until), ns, w.sent(until)), lo, hi) <==>
            Clear(Unheard(commands, states, past, |commands|, ns), lo, hi)
  {
    var lo, hi, n := Last(leg.run).mark, CursorAfter(cursor, LegEvents(leg)), |commands|;
    HonestWriter(commands, states, past, w, cut, ns);
    HonestExactlyWhen(commands, states, past, n, ns);
    UnfoldedPrefix(commands, states, w, cut, until);
    if lo < hi {
      var e := LegEndsHeard(w, ns, |states[past].log|, cursor, leg, until);
      forall q: nat | lo < q <= hi
        ensures q in Unannounced(w.log(until), ns, w.sent(until))
                <==> q in Unheard(commands, states, past, |commands|, ns)
      {
        UnannouncedAre(commands, states, past, n, ns, q);
        GapsStay(w.log(until), states[n].log, ns, |states[past].log|, w.sent(until), states[n].sent, e, q);
      }
    }
  }

  /** The same over any chain of reconnects. */
  lemma {:induction false} LinksDecideReconnects(commands: seq<Command>, states: seq<State>, past: nat, w: World,
                                                 cut: nat -> nat, ns: Namespace,
                                                 cursor: nat, legs: seq<Leg>, until: nat)
    requires IsWork(commands, states) && CarriesOut(w, states, cut)
    requires past <= |commands| && Truthful(commands, states, past, |commands|, ns)
    requires IsChain(w, ns, cursor, legs, until) && AllSmooth(w, |states[past].log|, legs)
    ensures UpToLast(w.log(until), ns, cursor, ChainEvents(w, ns, cursor, legs, until))
       <==> ChainClear(w, ns, cursor, legs, until, Unheard(commands, states, past, |commands|, ns))
  {
    HonestWriter(commands, states, past, w, cut, ns);
    ReconnectsExactlyWhen(w, ns, |states[past].log|, cursor, legs, until);
    ChainGapsStay(commands, states, past, w, cut, ns, cursor, legs, until);
  }

  lemma {:induction false} ChainGapsStay(commands: seq<Command>, states: seq<State>, past: nat, w: World,
                                         cut: nat -> nat, ns: Namespace, cursor: nat, legs: seq<Leg>, until: nat)
    requires IsWork(commands, states) && CarriesOut(w, states, cut)
    requires past <= |commands| && Truthful(commands, states, past, |commands|, ns)
    requires IsChain(w, ns, cursor, legs, until) && AllSmooth(w, |states[past].log|, legs)
    ensures ChainClear(w, ns, cursor, legs, until, Unannounced(w.log(until), ns, w.sent(until)))
       <==> ChainClear(w, ns, cursor, legs, until, Unheard(commands, states, past, |commands|, ns))
    decreases |legs|
  {
    if legs != [] {
      LegGapsStay(commands, states, past, w, cut, ns, cursor, legs[0], until);
      ChainGapsStay(commands, states, past, w, cut, ns, CursorAfter(cursor, LegEvents(legs[0])), legs[1..], until);
    }
  }

  /** Commands that each stamp their own rows leave nothing unheard, so no reconnect loses anything. */
  lemma {:induction false} ReconnectsLoseNothing(commands: seq<Command>, states: seq<State>, past: nat, w: World,
                                                 cut: nat -> nat, ns: Namespace,
                                                 cursor: nat, legs: seq<Leg>, until: nat)
    requires IsWork(commands, states) && CarriesOut(w, states, cut) && past <= |commands|
    requires forall i :: past <= i < |commands| && Concerns(commands[i], ns) ==> MannerOf(commands[i]).OwnRows?
    requires IsChain(w, ns, cursor, legs, until) && AllSmooth(w, |states[past].log|, legs)
    ensures UpToLast(w.log(until), ns, cursor, ChainEvents(w, ns, cursor, legs, until))
  {
    NothingUnheard(commands, states, past, |commands|, ns);
    LinksDecideReconnects(commands, states, past, w, cut, ns, cursor, legs, until);
    EmptyIsClear(w, ns, cursor, legs, until);
  }

  lemma {:induction false} NothingUnheard(commands: seq<Command>, states: seq<State>, past: nat, n: nat, ns: Namespace)
    requires past <= n <= |commands| && n < |states|
    requires forall i :: past <= i < n && Concerns(commands[i], ns) ==> MannerOf(commands[i]).OwnRows?
    ensures Truthful(commands, states, past, n, ns) && Unheard(commands, states, past, n, ns) == {}
    decreases n
  {
    if n > past {
      NothingUnheard(commands, states, past, n - 1, ns);
      OwnIsTruthful(states[n - 1].log, states[n - 1].sent, ns, |states[past].log|, commands[n - 1]);
      assert TruthfulAt(commands, states, past, n - 1, ns);
    }
  }

  lemma {:induction false} OwnIsTruthful(log: seq<Row>, sent: seq<Event>, ns: Namespace, from: nat, c: Command)
    requires Concerns(c, ns) ==> MannerOf(c).OwnRows?
    ensures TruthfulNext(log, sent, ns, from, c) && UnheardAfter({}, |log|, ns, c) == {}
  {
  }

  lemma {:induction false} EmptyIsClear(w: World, ns: Namespace, cursor: nat, legs: seq<Leg>, until: nat)
    requires IsChain(w, ns, cursor, legs, until)
    ensures ChainClear(w, ns, cursor, legs, until, {})
    decreases |legs|
  {
    if legs != [] { EmptyIsClear(w, ns, CursorAfter(cursor, LegEvents(legs[0])), legs[1..], until); }
  }
}
