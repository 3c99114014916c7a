/**
 When delivery is exactly-once and in order, for any writer whose events about a namespace
 each carry the number of the row they announce. Such a writer may commit rows it never
 announces (a link change is one); exactly those rows decide, for one session and for any
 chain of reconnects.
 */
module StreamExact {
  import opened Common
  import opened Oplog
  import opened ChangeStream
  import opened StreamSafety

  // ------------------------------------------------------- writers that announce their own rows

  /** The event announces a committed row under that row's own number. */
  ghost predicate IsOwn(log: seq<Row>, e: Event) {
    && e.stamp.Some? && 0 < e.stamp.value <= |log|
    && log[e.stamp.value - 1] == Row(e.ns, Some(e.id), e.kind)
  }

  /** The event is news to a subscriber of `ns` that has seen everything up to `from`. */
  predicate IsNews(ns: Namespace, from: nat, e: Event) {
    Classify(ns, from, e) == Forwarded
  }

  /** The news in `events` comes in strictly rising order; nothing else matters. */
  ghost predicate RisingIn(ns: Namespace, from: nat, events: seq<Event>) {
    forall i, j :: 0 <= i < j < |events| && IsNews(ns, from, events[i]) && IsNews(ns, from, events[j])
                   && events[i].stamp.Some? && events[j].stamp.Some? ==>
      events[i].stamp.value < events[j].stamp.value
  }

  /** All news about `ns` beyond `from` announces its own row, in row order, possibly with gaps. */
  ghost predicate OwnInOrder(log: seq<Row>, ns: Namespace, from: nat, events: seq<Event>) {
    && RisingIn(ns, from, events)
    && (forall e :: e in events && IsNews(ns, from, e) ==> IsOwn(log, e))
  }

  /** Whatever the writer broadcast about other namespaces, or stamped at or below `from`. */
  ghost predicate Honest(w: World, ns: Namespace, from: nat) {
    forall t :: 0 <= t ==> OwnInOrder(w.log(t), ns, from, w.sent(t))
  }

  /** Row `q` is a non-bulk row of `ns` that no event in `sent` announces. */
  ghost predicate IsUnannounced(log: seq<Row>, ns: Namespace, sent: seq<Event>, q: nat) {
    && 0 < q <= |log| && log[q - 1].ns == ns && log[q - 1].id.Some?
    && OwnEvent(log[q - 1], q)[0] !in sent
  }

  ghost function Unannounced(log: seq<Row>, ns: Namespace, sent: seq<Event>): set<nat> {
    set q: nat | q <= |log| && IsUnannounced(log, ns, sent, q)
  }

  /** None of `rows` lies in (lo, hi]. */
  ghost predicate Clear(rows: set<nat>, lo: nat, hi: nat) {
    forall q :: q in rows ==> !(lo < q <= hi)
  }

  lemma {:induction false} ChangesMember(log: seq<Row>, ns: Namespace, lo: nat, hi: nat, e: Event)
    ensures e in Changes(log, ns, lo, hi) <==> e.ns == ns && IsOwn(log, e) && lo < e.stamp.value <= hi
    decreases hi
  {
    if lo < hi { ChangesMember(log, ns, lo, hi - 1, e); }
  }

  ghost predicate AllStamped(events: seq<Event>) {
    forall e :: e in events ==> e.stamp.Some?
  }

  /** A strictly rising list is determined by its elements. */
  lemma {:induction false} RisingSame(x: seq<Event>, y: seq<Event>)
    requires AllStamped(x) && AllStamped(y) && StampsOrdered(x, true) && StampsOrdered(y, true)
    requires forall e :: e in x <==> e in y
    ensures x == y
  {
    assert x != [] ==> x[|x| - 1] in y;
    assert y != [] ==> y[|y| - 1] in x;
    if x != [] {
      var m, n := |x| - 1, |y| - 1;
      assert x[m] == y[n];
      forall e ensures e in x[..m] <==> e in y[..n] {
        FrontElements(x, e);
        FrontElements(y, e);
      }
      RisingSame(x[..m], y[..n]);
      assert x == x[..m] + [x[m]] && y == y[..n] + [y[n]];
    }
  }

  lemma {:induction false} FrontElements(x: seq<Event>, e: Event)
    requires x != [] && AllStamped(x) && StampsOrdered(x, true)
    ensures e in x[..|x| - 1] <==> e in x && e != x[|x| - 1]
  {
    if e in x && e != x[|x| - 1] {
      var i :| 0 <= i < |x| && x[i] == e;
      assert x[..|x| - 1][i] == e;
    }
  }

  /** What was taken from `heard` in (lo, hi] is all the changes there exactly when `heard`
      announces every one of them. */
  lemma {:induction false} SegmentExactly(log: seq<Row>, ns: Namespace, lo: nat, hi: nat, heard: seq<Event>,
                                          taken: seq<Event>)
    requires StampsOrdered(taken, true)
    requires forall e :: e in taken <==> e in heard && e.ns == ns && IsOwn(log, e) && lo < e.stamp.value <= hi
    ensures taken == Changes(log, ns, lo, hi) <==> forall e :: e in Changes(log, ns, lo, hi) ==> e in heard
  {
    var owed := Changes(log, ns, lo, hi);
    ChangesOrdered(log, ns, lo, hi);
    forall e ensures e in owed <==> e.ns == ns && IsOwn(log, e) && lo < e.stamp.value <= hi {
      ChangesMember(log, ns, lo, hi, e);
    }
    if forall e :: e in owed ==> e in heard {
      RisingSame(taken, owed);
    }
  }

  // ------------------------------------------------------------- what a session hears

  /** The events a subscriber with watermark `mark` forwards, were nothing lost. */
  function Forwards(ns: Namespace, mark: nat, events: seq<Event>): seq<Event> {
    if events == [] then []
    else
      var last := events[|events| - 1];
      Forwards(ns, mark, events[..|events| - 1])
      + if Classify(ns, mark, last) == Forwarded then [last] else []
  }

  lemma {:induction false} ForwardsMember(ns: Namespace, mark: nat, events: seq<Event>, e: Event)
    ensures e in Forwards(ns, mark, events) <==> e in events && Classify(ns, mark, e) == Forwarded
  {
    if events != [] {
      var n := |events| - 1;
      ForwardsMember(ns, mark, events[..n], e);
      assert events == events[..n] + [events[n]];
    }
  }

  lemma {:induction false} ForwardsRising(ns: Namespace, from: nat, mark: nat, events: seq<Event>)
    requires RisingIn(ns, from, events) && from <= mark
    ensures StampsOrdered(Forwards(ns, mark, events), true)
  {
    if events != [] {
      var n := |events| - 1;
      ForwardsRising(ns, from, mark, events[..n]);
      var front := Forwards(ns, mark, events[..n]);
      forall i | 0 <= i < |front| ensures front[i] in events[..n] && IsNews(ns, from, front[i]) {
        ForwardsMember(ns, mark, events[..n], front[i]);
      }
    }
  }

  /** The events not lost to lag. */
  function Caught(events: seq<Event>, fates: seq<Fate>): seq<Event>
    requires |events| == |fates|
  {
    if events == [] then []
    else
      var n := |events| - 1;
      Caught(events[..n], fates[..n]) + if fates[n] == Lost then [] else [events[n]]
  }

  lemma {:induction false} CaughtMembers(events: seq<Event>, fates: seq<Fate>, e: Event)
    requires |events| == |fates| && e in Caught(events, fates)
    ensures e in events
  {
    if events != [] {
      var n := |events| - 1;
      if e in Caught(events[..n], fates[..n]) { CaughtMembers(events[..n], fates[..n], e); }
      assert events == events[..n] + [events[n]];
    }
  }

  lemma {:induction false} CaughtRises(ns: Namespace, from: nat, events: seq<Event>, fates: seq<Fate>)
    requires |events| == |fates| && RisingIn(ns, from, events)
    ensures RisingIn(ns, from, Caught(events, fates))
  {
    if events != [] {
      var n := |events| - 1;
      CaughtRises(ns, from, events[..n], fates[..n]);
      if fates[n] != Lost {
        forall e | e in Caught(events[..n], fates[..n]) ensures e in events[..n] {
          CaughtMembers(events[..n], fates[..n], e);
        }
        assert events == events[..n] + [events[n]];
        RisingSnoc(ns, from, Caught(events[..n], fates[..n]), events[..n], events[n]);
      }
    }
  }

  lemma {:induction false} CaughtAll(events: seq<Event>, fates: seq<Fate>)
    requires |events| == |fates| && LostCount(fates) == 0
    ensures Caught(events, fates) == events
  {
    if events != [] {
      var n := |events| - 1;
      assert LostCount(fates) == LostCount(fates[..n]) + if fates[n] == Lost then 1 else 0;
      CaughtAll(events[..n], fates[..n]);
      assert Caught(events, fates) == Caught(events[..n], fates[..n]) + [events[n]];
      assert events == events[..n] + [events[n]];
    }
  }

  lemma {:induction false} RisingSnoc(ns: Namespace, from: nat, some: seq<Event>, all: seq<Event>, e: Event)
    requires RisingIn(ns, from, some) && RisingIn(ns, from, all + [e]) && forall x :: x in some ==> x in all
    ensures RisingIn(ns, from, some + [e])
  {
    forall i | 0 <= i < |some| && IsNews(ns, from, some[i]) && IsNews(ns, from, e) && some[i].stamp.Some?
      && e.stamp.Some?
      ensures some[i].stamp.value < e.stamp.value
    {
      assert some[i] in all;
      var k :| 0 <= k < |all| && all[k] == some[i];
      assert (all + [e])[k] == some[i] && (all + [e])[|all|] == e;
    }
  }

  /** What the receiver took off the channel since registration, in time. */
  ghost function Heard(w: World, t0: nat, run: seq<Session>): seq<Event>
    requires run != []
  {
    var sent, start, s := w.sent(EndTime(t0, run)), |w.sent(t0)|, Last(run);
    if start <= s.next <= |sent| && |s.fates| == s.next - start then Caught(sent[start..s.next], s.fates) else []
  }

  lemma {:induction false} KeptIsForwards(ns: Namespace, mark: nat, events: seq<Event>, fates: seq<Fate>)
    requires |events| == |fates|
    requires forall i :: 0 <= i < |fates| ==> fates[i] == Lost || fates[i] == Classify(ns, mark, events[i])
    ensures Kept(events, fates) == Forwards(ns, mark, Caught(events, fates))
  {
    if events != [] {
      var n := |events| - 1;
      KeptIsForwards(ns, mark, events[..n], fates[..n]);
      if fates[n] == Lost {
        assert Caught(events, fates) == Caught(events[..n], fates[..n])
          && Kept(events, fates) == Kept(events[..n], fates[..n]);
      } else {
        ForwardsSnoc(ns, mark, Caught(events[..n], fates[..n]), events[n]);
      }
    }
  }

  lemma {:induction false} ForwardsSnoc(ns: Namespace, mark: nat, events: seq<Event>, e: Event)
    ensures Forwards(ns, mark, events + [e])
         == Forwards(ns, mark, events) + if Classify(ns, mark, e) == Forwarded then [e] else []
  {
    assert (events + [e])[..|events + [e]| - 1] == events;
  }

  /** The live changes are what the rule forwards of everything received in time. */
  lemma {:induction false} LiveIsForwards(w: World, ns: Namespace, since: Option<nat>, t0: nat, run: seq<Session>)
    requires TimeFlows(w) && IsRun(w, ns, since, t0, run)
    ensures LiveEvents(Last(run).live) == Forwards(ns, Last(run).mark, Heard(w, t0, run))
    ensures Last(run).phase.Replaying? ==> LiveEvents(Last(run).live) == []
  {
    var s := Last(run);
    EveryEventAccounted(w, ns, since, t0, run);
    KeptIsForwards(ns, s.mark, w.sent(EndTime(t0, run))[|w.sent(t0)|..s.next], s.fates);
  }

  ghost predicate LagFree(s: Session) {
    forall i :: 0 <= i < |s.live| ==> s.live[i].Change?
  }

  lemma {:induction false} NoLagNothingDropped(frames: seq<Frame>)
    requires forall i :: 0 <= i < |frames| ==> frames[i].Change?
    ensures TotalDropped(frames) == 0
  {
    if frames != [] { NoLagNothingDropped(frames[..|frames| - 1]); }
  }

  /** Without lag everything that came along was heard. */
  lemma {:induction false} HeardIsAll(w: World, ns: Namespace, since: Option<nat>, t0: nat, run: seq<Session>)
    requires TimeFlows(w) && IsRun(w, ns, since, t0, run) && LagFree(Last(run))
    ensures var s, sent := Last(run), w.sent(EndTime(t0, run));
            |w.sent(t0)| <= s.next <= |sent| && Heard(w, t0, run) == sent[|w.sent(t0)|..s.next]
  {
    var s := Last(run);
    EveryEventAccounted(w, ns, since, t0, run);
    NoLagNothingDropped(s.live);
    CaughtAll(w.sent(EndTime(t0, run))[|w.sent(t0)|..s.next], s.fates);
  }

  lemma {:induction false} HeardIs(w: World, ns: Namespace, since: Option<nat>, t0: nat, run: seq<Session>)
    requires TimeFlows(w) && IsRun(w, ns, since, t0, run)
    ensures var s, sent, start := Last(run), w.sent(EndTime(t0, run)), |w.sent(t0)|;
            && start <= s.next <= |sent| && |s.fates| == s.next - start
            && Heard(w, t0, run) == Caught(sent[start..s.next], s.fates)
  {
    EveryEventAccounted(w, ns, since, t0, run);
  }

  lemma {:induction false} HeardRises(w: World, ns: Namespace, from: nat, since: Option<nat>, t0: nat,
                                      run: seq<Session>)
    requires TimeFlows(w) && IsRun(w, ns, since, t0, run) && RisingIn(ns, from, w.sent(EndTime(t0, run)))
    ensures RisingIn(ns, from, Heard(w, t0, run))
  {
    HeardIs(w, ns, since, t0, run);
    CaughtRises(ns, from, w.sent(EndTime(t0, run))[|w.sent(t0)|..Last(run).next], Last(run).fates);
  }

  /** Where on the channel an event that was heard stood. */
  lemma {:induction false} HeardAt(w: World, ns: Namespace, since: Option<nat>, t0: nat, run: seq<Session>, e: Event)
    returns (k: nat)
    requires TimeFlows(w) && IsRun(w, ns, since, t0, run) && e in Heard(w, t0, run)
    ensures |w.sent(t0)| <= k < Last(run).next <= |w.sent(EndTime(t0, run))| && w.sent(EndTime(t0, run))[k] == e
  {
    HeardIs(w, ns, since, t0, run);
    CaughtMembers(w.sent(EndTime(t0, run))[|w.sent(t0)|..Last(run).next], Last(run).fates, e);
    k := SliceAt(w.sent(EndTime(t0, run)), |w.sent(t0)|, Last(run).next, e);
  }

  lemma {:induction false} SliceAt(sent: seq<Event>, start: nat, next: nat, e: Event) returns (k: nat)
    requires start <= next <= |sent| && e in sent[start..next]
    ensures start <= k < next && sent[k] == e
  {
    var i :| 0 <= i < next - start && sent[start..next][i] == e;
    k := start + i;
  }

  ghost predicate NoFailures(w: World, t0: nat, until: nat) {
    forall t :: t0 <= t < until ==> !w.fails(t)
  }

  /** Either still paging, or the watermark is past every row of the namespace in `early`. */
  ghost predicate PastEarly(early: seq<Row>, ns: Namespace, s: Session) {
    if s.phase.Live? then RowCount(early, ns, s.mark, |early|) == 0 else s.phase.after == s.mark
  }

  /** Once live without a read failure, the watermark is past every row of the namespace
      that was committed by registration. */
  lemma {:induction false} MarkPassesRegistration(w: World, ns: Namespace, cursor: nat, t0: nat, run: seq<Session>)
    requires TimeFlows(w) && IsRun(w, ns, Some(cursor), t0, run) && NoFailures(w, t0, EndTime(t0, run))
    ensures PastEarly(w.log(t0), ns, Last(run))
  {
    var inv := (t: nat, s: Session) => t0 <= t && (t <= EndTime(t0, run) ==> PastEarly(w.log(t0), ns, s));
    forall t: nat, s | inv(t, s) ensures inv(t + 1, Turn(w, ns, s, t)) {
      if t < EndTime(t0, run) { TurnPassesEarly(w, ns, s, t0, t); }
    }
    assert PastEarly(w.log(t0), ns, run[0]);
    TurnsKeep(w, ns, Some(cursor), t0, run, inv, |run| - 1);
  }

  lemma {:induction false} TurnPassesEarly(w: World, ns: Namespace, s: Session, t0: nat, t: nat)
    requires TimeFlows(w) && t0 <= t && !w.fails(t) && PastEarly(w.log(t0), ns, s)
    ensures PastEarly(w.log(t0), ns, Turn(w, ns, s, t))
  {
    if s.phase.Live? {
      LiveStaysLive(w, ns, s, t);
    } else {
      var log, early := w.log(t), w.log(t0);
      assert early <= log;
      PageCovers(log, ns, s.mark, REPLAY_BATCH);
      ShortPagePasses(log, early, ns, s.mark);
    }
  }

  lemma {:induction false} ShortPagePasses(log: seq<Row>, early: seq<Row>, ns: Namespace, after: nat)
    requires early <= log
    ensures var page := PageOf(log, ns, after, REPLAY_BATCH);
            page.scanned < REPLAY_BATCH ==> RowCount(early, ns, page.lastSeq, |early|) == 0
  {
    var page := PageOf(log, ns, after, REPLAY_BATCH);
    PageCovers(log, ns, after, REPLAY_BATCH);
    if page.scanned < REPLAY_BATCH && page.lastSeq <= |early| {
      RowsSplit(log, ns, page.lastSeq, |early|, |log|);
      ChangesStable(early, log, ns, page.lastSeq, |early|);
    }
  }

  /** The live changes are what was heard about `ns` beyond the watermark. */
  lemma {:induction false} LiveIsOwn(w: World, ns: Namespace, from: nat, since: Option<nat>, t0: nat, run: seq<Session>)
    requires TimeFlows(w) && Honest(w, ns, from) && IsRun(w, ns, since, t0, run) && from <= Last(run).mark
    ensures var s, live := Last(run), LiveEvents(Last(run).live);
            && StampsOrdered(live, true)
            && (forall e :: e in live <==>
                  e in Heard(w, t0, run) && e.ns == ns && IsOwn(w.log(EndTime(t0, run)), e) && s.mark < e.stamp.value)
  {
    var s, sent, heard := Last(run), w.sent(EndTime(t0, run)), Heard(w, t0, run);
    LiveIsForwards(w, ns, since, t0, run);
    assert OwnInOrder(w.log(EndTime(t0, run)), ns, from, sent);
    HeardRises(w, ns, from, since, t0, run);
    ForwardsRising(ns, from, s.mark, heard);
    forall e ensures e in LiveEvents(s.live) <==>
                       e in heard && e.ns == ns && IsOwn(w.log(EndTime(t0, run)), e) && s.mark < e.stamp.value {
      ForwardsMember(ns, s.mark, heard, e);
      if e in heard {
        var k := HeardAt(w, ns, since, t0, run, e);
        assert sent[k] == e && e in sent;
        assert IsNews(ns, s.mark, e) ==> IsNews(ns, from, e) && IsOwn(w.log(EndTime(t0, run)), e);
      }
    }
  }

  lemma {:induction false} RowCounted(log: seq<Row>, ns: Namespace, lo: nat, hi: nat, q: nat)
    requires lo < q <= hi && q <= |log| && log[q - 1].ns == ns
    ensures RowCount(log, ns, lo, hi) > 0
    decreases hi
  {
    if q < hi { RowCounted(log, ns, lo, hi - 1, q); }
  }

  /** Nothing about `ns` broadcast before registration lies beyond `lo`. */
  ghost predicate EarlierBelow(w: World, ns: Namespace, t0: nat, lo: nat) {
    forall e :: e in w.sent(t0) && e.ns == ns && IsOwn(w.log(t0), e) ==> e.stamp.value <= lo
  }

  /** Nothing about `ns` broadcast by `until` and not yet received lies in (lo, hi]. */
  ghost predicate LaterAbove(w: World, ns: Namespace, next: nat, until: nat, lo: nat, hi: nat) {
    forall i :: next <= i < |w.sent(until)| && IsNews(ns, lo, w.sent(until)[i]) && w.sent(until)[i].stamp.Some? ==>
      hi < w.sent(until)[i].stamp.value
  }

  /** An announced row of (lo, hi] was announced to this very session. */
  lemma {:induction false} AnnouncedIsHeard(w: World, ns: Namespace, from: nat, since: Option<nat>, t0: nat,
                                            run: seq<Session>, until: nat, lo: nat, hi: nat, e: Event)
    requires TimeFlows(w) && Honest(w, ns, from) && IsRun(w, ns, since, t0, run) && EndTime(t0, run) <= until
    requires LagFree(Last(run)) && from <= lo
    requires EarlierBelow(w, ns, t0, lo) && LaterAbove(w, ns, Last(run).next, until, lo, hi)
    requires e in w.sent(until) && e.ns == ns && e.stamp.Some? && lo < e.stamp.value <= hi
    ensures e in Heard(w, t0, run)
  {
    var early, sent, all := w.sent(t0), w.sent(EndTime(t0, run)), w.sent(until);
    HeardIsAll(w, ns, since, t0, run);
    assert early <= sent <= all;
    assert OwnInOrder(w.log(t0), ns, from, early);
    InBetween(early, sent, all, Last(run).next, e);
  }

  lemma {:induction false} InBetween(early: seq<Event>, sent: seq<Event>, all: seq<Event>, next: nat, e: Event)
    requires early <= sent <= all && |early| <= next <= |sent|
    requires e in all && e !in early && forall i :: next <= i < |all| ==> all[i] != e
    ensures e in sent[|early|..next]
  {
    var i :| 0 <= i < |all| && all[i] == e;
    assert forall k :: 0 <= k < |early| ==> all[k] in early;
    assert sent[|early|..next][i - |early|] == e;
  }

  lemma {:induction false} HeardIsAnnounced(w: World, ns: Namespace, since: Option<nat>, t0: nat, run: seq<Session>,
                                            until: nat, e: Event)
    requires TimeFlows(w) && IsRun(w, ns, since, t0, run) && EndTime(t0, run) <= until
    requires e in Heard(w, t0, run)
    ensures e in w.sent(until)
  {
    var k := HeardAt(w, ns, since, t0, run, e);
    assert w.sent(EndTime(t0, run)) <= w.sent(until);
    assert w.sent(until)[k] == e;
  }

  /** The part of a session's live changes up to `hi`. */
  ghost predicate LiveUpTo(s: Session, hi: nat, taken: seq<Event>) {
    && taken <= LiveEvents(s.live)
    && (forall e :: e in LiveEvents(s.live) && e.stamp.Some? ==> (e in taken <==> e.stamp.value <= hi))
  }

  /** The session heard every change in (lo, hi]. */
  ghost predicate HeardAll(w: World, ns: Namespace, t0: nat, run: seq<Session>, until: nat, lo: nat, hi: nat)
    requires run != []
  {
    forall e :: e in Changes(w.log(until), ns, lo, hi) ==> e in Heard(w, t0, run)
  }

  /** In (lo, hi] a session took every change exactly when it heard them all. */
  lemma {:induction false} SpanReceived(w: World, ns: Namespace, from: nat, since: Option<nat>, t0: nat,
                                        run: seq<Session>, until: nat, lo: nat, hi: nat, taken: seq<Event>)
    requires TimeFlows(w) && Honest(w, ns, from) && IsRun(w, ns, since, t0, run) && EndTime(t0, run) <= until
    requires LiveUpTo(Last(run), hi, taken) && from <= Last(run).mark <= lo
    requires Beyond(LiveEvents(Last(run).live), lo)
    ensures taken == Changes(w.log(until), ns, lo, hi) <==> HeardAll(w, ns, t0, run, until, lo, hi)
  {
    LiveIsOwn(w, ns, from, since, t0, run);
    forall e
      ensures e in taken <==> e in Heard(w, t0, run) && e.ns == ns && IsOwn(w.log(until), e) && lo < e.stamp.value <= hi
    {
      TakenMember(w, ns, from, since, t0, run, until, lo, hi, taken, e);
    }
    SegmentExactly(w.log(until), ns, lo, hi, Heard(w, t0, run), taken);
  }

  lemma {:induction false} TakenMember(w: World, ns: Namespace, from: nat, since: Option<nat>, t0: nat,
                                       run: seq<Session>, until: nat, lo: nat, hi: nat, taken: seq<Event>, e: Event)
    requires TimeFlows(w) && Honest(w, ns, from) && IsRun(w, ns, since, t0, run) && EndTime(t0, run) <= until
    requires LiveUpTo(Last(run), hi, taken) && from <= Last(run).mark <= lo
    requires Beyond(LiveEvents(Last(run).live), lo)
    ensures e in taken <==> e in Heard(w, t0, run) && e.ns == ns && IsOwn(w.log(until), e) && lo < e.stamp.value <= hi
  {
    LiveIsOwn(w, ns, from, since, t0, run);
    var log := w.log(EndTime(t0, run));
    assert log <= w.log(until);
    if e in Heard(w, t0, run) {
      HeardIsAnnounced(w, ns, since, t0, run, EndTime(t0, run), e);
      assert OwnInOrder(log, ns, from, w.sent(EndTime(t0, run)));
    }
    assert e in taken ==> e in LiveEvents(Last(run).live);
  }

  lemma {:induction false} AnnouncedOrNot(w: World, ns: Namespace, from: nat, since: Option<nat>, t0: nat,
                                          run: seq<Session>, until: nat, lo: nat, hi: nat)
    requires TimeFlows(w) && Honest(w, ns, from) && IsRun(w, ns, since, t0, run) && EndTime(t0, run) <= until
    requires LagFree(Last(run)) && from <= lo
    requires EarlierBelow(w, ns, t0, lo) && LaterAbove(w, ns, Last(run).next, until, lo, hi)
    ensures HeardAll(w, ns, t0, run, until, lo, hi) <==> Clear(Unannounced(w.log(until), ns, w.sent(until)), lo, hi)
  {
    if Clear(Unannounced(w.log(until), ns, w.sent(until)), lo, hi) {
      forall e | e in Changes(w.log(until), ns, lo, hi) ensures e in Heard(w, t0, run) {
        OwedIsAnnounced(w.log(until), ns, w.sent(until), lo, hi, e);
        AnnouncedIsHeard(w, ns, from, since, t0, run, until, lo, hi, e);
      }
    }
    forall e | e in Heard(w, t0, run) ensures e in w.sent(until) {
      HeardIsAnnounced(w, ns, since, t0, run, until, e);
    }
    ClearIfOwedIsAnnounced(w.log(until), ns, w.sent(until), lo, hi);
  }

  lemma {:induction false} OwedIsAnnounced(log: seq<Row>, ns: Namespace, sent: seq<Event>, lo: nat, hi: nat, e: Event)
    requires Clear(Unannounced(log, ns, sent), lo, hi) && e in Changes(log, ns, lo, hi)
    ensures e in sent && e.ns == ns && e.stamp.Some? && lo < e.stamp.value <= hi
  {
    ChangesMember(log, ns, lo, hi, e);
    assert OwnEvent(log[e.stamp.value - 1], e.stamp.value)[0] == e;
    assert e.stamp.value !in Unannounced(log, ns, sent);
  }

  lemma {:induction false} ClearIfOwedIsAnnounced(log: seq<Row>, ns: Namespace, sent: seq<Event>, lo: nat, hi: nat)
    ensures (forall e :: e in Changes(log, ns, lo, hi) ==> e in sent) ==> Clear(Unannounced(log, ns, sent), lo, hi)
  {
    forall q | q in Unannounced(log, ns, sent) && lo < q <= hi
      ensures exists e :: e in Changes(log, ns, lo, hi) && e !in sent
    {
      var e := OwnEvent(log[q - 1], q)[0];
      ChangesMember(log, ns, lo, hi, e);
    }
  }

  // ------------------------------------------------------------------- one connection

  /** One connection: when it registered, its run, and how many change frames the client got
      before it broke off. */
  datatype Leg = Leg(t0: nat, run: seq<Session>, got: nat)

  ghost predicate IsLeg(w: World, ns: Namespace, cursor: nat, leg: Leg, until: nat) {
    && IsRun(w, ns, Some(cursor), leg.t0, leg.run)
    && EndTime(leg.t0, leg.run) <= until
    && leg.got <= |Delivered(Last(leg.run))|
  }

  /** No page read failed and nothing was lost to lag. */
  ghost predicate Smooth(w: World, leg: Leg)
    requires leg.run != []
  {
    NoFailures(w, leg.t0, EndTime(leg.t0, leg.run)) && LagFree(Last(leg.run))
  }

  ghost function LegEvents(leg: Leg): seq<Event>
    requires leg.run != [] && leg.got <= |Delivered(Last(leg.run))|
  {
    Delivered(Last(leg.run))[..leg.got]
  }

  /** The cursor a client holds after some events: the last stamp it saw. */
  function CursorAfter(cursor: nat, events: seq<Event>): nat {
    if events == [] || events[|events| - 1].stamp.None? then cursor else events[|events| - 1].stamp.value
  }

  /** `events` are the changes from `cursor` to the last stamp among them. */
  ghost predicate UpToLast(log: seq<Row>, ns: Namespace, cursor: nat, events: seq<Event>) {
    var c := CursorAfter(cursor, events);
    cursor <= c && events == Changes(log, ns, cursor, c)
  }

  /** Cutting a list of changes anywhere leaves the changes up to the last stamp seen. */
  lemma {:induction false} CutChanges(log: seq<Row>, ns: Namespace, cursor: nat, reach: nat, got: nat)
    requires got <= |Changes(log, ns, cursor, reach)|
    requires cursor <= reach <= Max(cursor, |log|)
    ensures var events := Changes(log, ns, cursor, reach)[..got];
            var c := CursorAfter(cursor, events);
            cursor <= c <= reach && events == Changes(log, ns, cursor, c)
    decreases reach
  {
    var all := Changes(log, ns, cursor, reach);
    if reach > cursor {
      var front := Changes(log, ns, cursor, reach - 1);
      if got <= |front| {
        CutChanges(log, ns, cursor, reach - 1, got);
        assert all[..got] == front[..got];
      } else {
        assert all[..got] == all;
      }
    } else {
      assert all[..got] == [];
    }
  }

  /** Whatever lagged or failed: a connection, cut off wherever it may be, has given the client exactly
      the changes from its cursor to the last stamp received if and only if it heard every change
      between the session's watermark and that stamp. */
  lemma {:induction false} LegReceivedExactlyWhen(w: World, ns: Namespace, from: nat, cursor: nat, leg: Leg, until: nat)
    requires TimeFlows(w) && Honest(w, ns, from) && IsLeg(w, ns, cursor, leg, until) && from <= Last(leg.run).mark
    ensures UpToLast(w.log(until), ns, cursor, LegEvents(leg))
       <==> HeardAll(w, ns, leg.t0, leg.run, until, Last(leg.run).mark, CursorAfter(cursor, LegEvents(leg)))
  {
    var s, log := Last(leg.run), w.log(EndTime(leg.t0, leg.run));
    ReplayReachesMark(w, ns, cursor, leg.t0, leg.run);
    if leg.got <= |s.replayed| {
      assert LegEvents(leg) == s.replayed[..leg.got];
      CutChanges(log, ns, cursor, s.mark, leg.got);
      CutKeeps(log, w.log(until), ns, cursor, s.mark, leg.got);
    } else {
      LiveLegReceived(w, ns, from, cursor, leg, until);
    }
  }

  lemma {:induction false} LiveLegReceived(w: World, ns: Namespace, from: nat, cursor: nat, leg: Leg, until: nat)
    requires TimeFlows(w) && Honest(w, ns, from) && IsLeg(w, ns, cursor, leg, until)
    requires from <= Last(leg.run).mark && leg.got > |Last(leg.run).replayed|
    ensures UpToLast(w.log(until), ns, cursor, LegEvents(leg))
       <==> HeardAll(w, ns, leg.t0, leg.run, until, Last(leg.run).mark, CursorAfter(cursor, LegEvents(leg)))
  {
    var s := Last(leg.run);
    var taken := LiveEvents(s.live)[..leg.got - |s.replayed|];
    var hi := CursorAfter(cursor, LegEvents(leg));
    assert LegEvents(leg) == s.replayed + taken;
    TakenPart(w, ns, from, cursor, leg, until, taken, hi);
    SpanReceived(w, ns, from, Some(cursor), leg.t0, leg.run, until, s.mark, hi, taken);
    JoinReplay(w, ns, cursor, leg, until, taken, hi);
  }

  /** Without lag or failed read that is so if and only if no unannounced row lies between the session's
      watermark and the last stamp received. */
  lemma {:induction false} LegExactlyWhen(w: World, ns: Namespace, from: nat, cursor: nat, leg: Leg, until: nat)
    requires TimeFlows(w) && Honest(w, ns, from) && IsLeg(w, ns, cursor, leg, until) && Smooth(w, leg)
    requires from <= Last(leg.run).mark
    ensures UpToLast(w.log(until), ns, cursor, LegEvents(leg))
       <==> Clear(Unannounced(w.log(until), ns, w.sent(until)), Last(leg.run).mark, CursorAfter(cursor, LegEvents(leg)))
  {
    LegReceivedExactlyWhen(w, ns, from, cursor, leg, until);
    HeardExactlyWhenClear(w, ns, from, cursor, leg, until);
  }

  lemma {:induction false} HeardExactlyWhenClear(w: World, ns: Namespace, from: nat, cursor: nat, leg: Leg, until: nat)
    requires TimeFlows(w) && Honest(w, ns, from) && IsLeg(w, ns, cursor, leg, until) && Smooth(w, leg)
    requires from <= Last(leg.run).mark
    ensures var lo, hi := Last(leg.run).mark, CursorAfter(cursor, LegEvents(leg));
            HeardAll(w, ns, leg.t0, leg.run, until, lo, hi) <==>
            Clear(Unannounced(w.log(until), ns, w.sent(until)), lo, hi)
  {
    var s, hi := Last(leg.run), CursorAfter(cursor, LegEvents(leg));
    if s.mark < hi {
      var e := LegEndsHeard(w, ns, from, cursor, leg, until);
      RegistrationBelow(w, ns, cursor, leg.t0, leg.run);
      RestAbove(w, ns, from, Some(cursor), leg.t0, leg.run, until, s.mark, e);
      AnnouncedOrNot(w, ns, from, Some(cursor), leg.t0, leg.run, until, s.mark, hi);
    } else {
      NoneBetween(w.log(until), ns, s.mark, hi);
    }
  }

  lemma {:induction false} NoneBetween(log: seq<Row>, ns: Namespace, lo: nat, hi: nat)
    requires hi <= lo
    ensures Changes(log, ns, lo, hi) == []
  {
  }

  /** The live part of a cut-off connection meets the terms of `SpanReceived`. */
  lemma {:induction false} TakenPart(w: World, ns: Namespace, from: nat, cursor: nat, leg: Leg, until: nat,
                                     taken: seq<Event>, hi: nat)
    requires TimeFlows(w) && Honest(w, ns, from) && IsLeg(w, ns, cursor, leg, until) && from <= Last(leg.run).mark
    requires taken != [] && taken <= LiveEvents(Last(leg.run).live) && hi == CursorAfter(cursor, taken)
    ensures var s := Last(leg.run); s.mark < hi && Beyond(LiveEvents(s.live), s.mark) && LiveUpTo(s, hi, taken)
  {
    var s := Last(leg.run);
    LiveIsOwn(w, ns, from, Some(cursor), leg.t0, leg.run);
    assert taken[|taken| - 1] in LiveEvents(s.live);
    PrefixByStamp(LiveEvents(s.live), taken, hi);
  }

  lemma {:induction false} PrefixByStamp(live: seq<Event>, taken: seq<Event>, hi: nat)
    requires StampsOrdered(live, true) && AllStamped(live)
    requires taken != [] && taken <= live && taken[|taken| - 1].stamp == Some(hi)
    ensures forall e :: e in live ==> (e in taken <==> e.stamp.value <= hi)
  {
    var n := |taken| - 1;
    assert live[n] == taken[n];
    forall e | e in live ensures e in taken <==> e.stamp.value <= hi {
      var i :| 0 <= i < |live| && live[i] == e;
      if i <= n { assert taken[i] == e; }
      if e in taken {
        var k :| 0 <= k <= n && taken[k] == e;
        assert live[k] == e;
      }
    }
  }

  lemma {:induction false} RegistrationBelow(w: World, ns: Namespace, cursor: nat, t0: nat, run: seq<Session>)
    requires TimeFlows(w) && IsRun(w, ns, Some(cursor), t0, run) && NoFailures(w, t0, EndTime(t0, run))
    requires Last(run).phase.Live?
    ensures EarlierBelow(w, ns, t0, Last(run).mark)
  {
    var early, mark := w.log(t0), Last(run).mark;
    MarkPassesRegistration(w, ns, cursor, t0, run);
    forall e | e in w.sent(t0) && e.ns == ns && IsOwn(early, e) ensures e.stamp.value <= mark {
      if mark < e.stamp.value { RowCounted(early, ns, mark, |early|, e.stamp.value); }
    }
  }

  lemma {:induction false} RestAbove(w: World, ns: Namespace, from: nat, since: Option<nat>, t0: nat, run: seq<Session>,
                                     until: nat, lo: nat, e: Event)
    requires TimeFlows(w) && Honest(w, ns, from) && IsRun(w, ns, since, t0, run) && EndTime(t0, run) <= until
    requires from <= lo && e in Heard(w, t0, run) && IsNews(ns, lo, e) && e.stamp.Some?
    ensures LaterAbove(w, ns, Last(run).next, until, lo, e.stamp.value)
  {
    var sent, all := w.sent(EndTime(t0, run)), w.sent(until);
    assert sent <= all && OwnInOrder(w.log(until), ns, from, all);
    var k := HeardAt(w, ns, since, t0, run, e);
    assert all[k] == e;
    RestRises(ns, from, lo, all, k, Last(run).next);
  }

  lemma {:induction false} RestRises(ns: Namespace, from: nat, lo: nat, all: seq<Event>, m: nat, next: nat)
    requires RisingIn(ns, from, all) && from <= lo && m < next <= |all| && IsNews(ns, lo, all[m]) && all[m].stamp.Some?
    ensures forall i :: next <= i < |all| && IsNews(ns, lo, all[i]) && all[i].stamp.Some? ==>
              all[m].stamp.value < all[i].stamp.value
  {
  }

  lemma {:induction false} JoinReplay(w: World, ns: Namespace, cursor: nat, leg: Leg, until: nat, taken: seq<Event>,
                                      hi: nat)
    requires TimeFlows(w) && IsLeg(w, ns, cursor, leg, until) && Last(leg.run).mark <= hi
    ensures var s := Last(leg.run);
            cursor <= hi
            && (s.replayed + taken == Changes(w.log(until), ns, cursor, hi) <==>
                  taken == Changes(w.log(until), ns, s.mark, hi))
  {
    var s, log, later := Last(leg.run), w.log(EndTime(leg.t0, leg.run)), w.log(until);
    ReplayReachesMark(w, ns, cursor, leg.t0, leg.run);
    ChangesKeep(log, later, ns, cursor, s.mark);
    ChangesSplit(later, ns, cursor, s.mark, hi);
    if s.replayed + taken == Changes(later, ns, cursor, hi) {
      CancelLeft(s.replayed, taken, Changes(later, ns, s.mark, hi));
    }
  }

  lemma {:induction false} CutKeeps(log: seq<Row>, later: seq<Row>, ns: Namespace, cursor: nat, reach: nat, got: nat)
    requires log <= later && cursor <= reach <= Max(cursor, |log|)
    requires got <= |Changes(log, ns, cursor, reach)|
    ensures UpToLast(later, ns, cursor, Changes(log, ns, cursor, reach)[..got])
  {
    CutChanges(log, ns, cursor, reach, got);
    ChangesKeep(log, later, ns, cursor, CursorAfter(cursor, Changes(log, ns, cursor, reach)[..got]));
  }

  /** At any moment of a session, what was delivered is exactly the changes from the cursor to the
      last stamp delivered if and only if no unannounced row lies between watermark and stamp. */
  lemma {:induction false} DeliveredExactlyWhen(w: World, ns: Namespace, from: nat, cursor: nat, t0: nat,
                                                run: seq<Session>)
    requires TimeFlows(w) && Honest(w, ns, from) && IsRun(w, ns, Some(cursor), t0, run)
    requires NoFailures(w, t0, EndTime(t0, run)) && LagFree(Last(run)) && from <= Last(run).mark
    ensures var s, log, sent := Last(run), w.log(EndTime(t0, run)), w.sent(EndTime(t0, run));
            (UpToLast(log, ns, cursor, Delivered(s)) <==>
               Clear(Unannounced(log, ns, sent), s.mark, CursorAfter(cursor, Delivered(s))))
  {
    var leg := Leg(t0, run, |Delivered(Last(run))|);
    assert LegEvents(leg) == Delivered(Last(run));
    LegExactlyWhen(w, ns, from, cursor, leg, EndTime(t0, run));
  }

  /** Once the receiver has caught up, every change from the cursor on has been delivered, once and
      in order, if and only if no row beyond the watermark is unannounced. */
  lemma {:induction false} CaughtUpExactlyWhen(w: World, ns: Namespace, from: nat, cursor: nat, t0: nat,
                                               run: seq<Session>)
    requires TimeFlows(w) && Honest(w, ns, from) && IsRun(w, ns, Some(cursor), t0, run)
    requires NoFailures(w, t0, EndTime(t0, run)) && LagFree(Last(run)) && from <= Last(run).mark
    requires Last(run).phase.Live? && Last(run).next == |w.sent(EndTime(t0, run))|
    ensures var s, log, sent := Last(run), w.log(EndTime(t0, run)), w.sent(EndTime(t0, run));
            (Delivered(s) == Changes(log, ns, cursor, Max(cursor, |log|)) <==>
               Clear(Unannounced(log, ns, sent), s.mark, |log|))
  {
    var s, now := Last(run), EndTime(t0, run);
    var hi := Max(cursor, |w.log(now)|);
    LiveIsOwn(w, ns, from, Some(cursor), t0, run);
    ReplayReachesMark(w, ns, cursor, t0, run);
    RegistrationBelow(w, ns, cursor, t0, run);
    SpanReceived(w, ns, from, Some(cursor), t0, run, now, s.mark, hi, LiveEvents(s.live));
    AnnouncedOrNot(w, ns, from, Some(cursor), t0, run, now, s.mark, hi);
    JoinReplay(w, ns, cursor, Leg(t0, run, 0), now, LiveEvents(s.live), hi);
  }

  /** The number the last event about `ns` carried. */
  function LastStamp(ns: Namespace, events: seq<Event>): nat {
    if events == [] then 0
    else
      var last := events[|events| - 1];
      if IsNews(ns, 0, last) && last.stamp.Some? then last.stamp.value else LastStamp(ns, events[..|events| - 1])
  }

  lemma {:induction false} LastStampIsGreatest(ns: Namespace, events: seq<Event>)
    requires RisingIn(ns, 0, events)
    ensures forall e :: e in events && IsNews(ns, 0, e) && e.stamp.Some? ==> e.stamp.value <= LastStamp(ns, events)
    ensures LastStamp(ns, events) > 0 ==>
              exists i :: 0 <= i < |events| && IsNews(ns, 0, events[i])
                && events[i].stamp == Some(LastStamp(ns, events))
  {
    if events != [] {
      var n := |events| - 1;
      LastStampIsGreatest(ns, events[..n]);
      assert events == events[..n] + [events[n]];
    }
  }

  /** Without a cursor: the same, counted from the last number announced before registration. */
  lemma {:induction false} FromRegistrationExactlyWhen(w: World, ns: Namespace, t0: nat, run: seq<Session>)
    requires TimeFlows(w) && Honest(w, ns, 0) && IsRun(w, ns, None, t0, run) && LagFree(Last(run))
    ensures var s, log, sent, from := Last(run), w.log(EndTime(t0, run)), w.sent(EndTime(t0, run)),
            LastStamp(ns, w.sent(t0));
            (UpToLast(log, ns, from, Delivered(s)) <==>
               Clear(Unannounced(log, ns, sent), from, CursorAfter(from, Delivered(s))))
  {
    var s, now, from := Last(run), EndTime(t0, run), LastStamp(ns, w.sent(t0));
    NoReplayWithoutCursor(w, ns, t0, run);
    assert Delivered(s) == LiveEvents(s.live);
    if Delivered(s) != [] {
      var hi := CursorAfter(from, Delivered(s));
      LivePart(w, ns, t0, run, hi);
      SpanReceived(w, ns, 0, None, t0, run, now, from, hi, Delivered(s));
      AnnouncedOrNot(w, ns, 0, None, t0, run, now, from, hi);
    }
  }

  lemma {:induction false} LivePart(w: World, ns: Namespace, t0: nat, run: seq<Session>, hi: nat)
    requires TimeFlows(w) && Honest(w, ns, 0) && IsRun(w, ns, None, t0, run) && LagFree(Last(run))
    requires LiveEvents(Last(run).live) != []
             && hi == CursorAfter(LastStamp(ns, w.sent(t0)), LiveEvents(Last(run).live))
    ensures var s, live, from := Last(run), LiveEvents(Last(run).live), LastStamp(ns, w.sent(t0));
            && from < hi && Beyond(live, from) && LiveUpTo(s, hi, live)
            && EarlierBelow(w, ns, t0, from) && LaterAbove(w, ns, s.next, EndTime(t0, run), from, hi)
  {
    var live := LiveEvents(Last(run).live);
    LiveIsOwn(w, ns, 0, None, t0, run);
    HeardBeyond(w, ns, None, t0, run);
    assert live[|live| - 1] in live;
    PrefixByStamp(live, live, hi);
    RestAbove(w, ns, 0, None, t0, run, EndTime(t0, run), LastStamp(ns, w.sent(t0)), live[|live| - 1]);
  }

  lemma {:induction false} HeardBeyond(w: World, ns: Namespace, since: Option<nat>, t0: nat, run: seq<Session>)
    requires TimeFlows(w) && Honest(w, ns, 0) && IsRun(w, ns, since, t0, run)
    ensures EarlierBelow(w, ns, t0, LastStamp(ns, w.sent(t0)))
    ensures forall e :: e in Heard(w, t0, run) && IsNews(ns, 0, e) && e.stamp.Some? ==>
            LastStamp(ns, w.sent(t0)) < e.stamp.value
  {
    var early, sent := w.sent(t0), w.sent(EndTime(t0, run));
    assert early <= sent && OwnInOrder(w.log(t0), ns, 0, early) && OwnInOrder(w.log(EndTime(t0, run)), ns, 0, sent);
    LastStampIsGreatest(ns, early);
    assert forall i :: 0 <= i < |early| ==> sent[i] == early[i];
    forall e | e in Heard(w, t0, run) && IsNews(ns, 0, e) && e.stamp.Some?
      ensures LastStamp(ns, early) < e.stamp.value
    {
      var k := HeardAt(w, ns, since, t0, run, e);
    }
  }

  /** If a connection ended beyond its watermark, the event it ended with has been broadcast. */
  lemma {:induction false} LegEndsHeard(w: World, ns: Namespace, from: nat, cursor: nat, leg: Leg, until: nat)
    returns (e: Event)
    requires TimeFlows(w) && Honest(w, ns, from) && IsLeg(w, ns, cursor, leg, until)
    requires from <= Last(leg.run).mark < CursorAfter(cursor, LegEvents(leg))
    ensures e in w.sent(until) && e.ns == ns && e.stamp == Some(CursorAfter(cursor, LegEvents(leg)))
    ensures e in Heard(w, leg.t0, leg.run) && Last(leg.run).phase.Live?
  {
    var s, events := Last(leg.run), LegEvents(leg);
    ReplayReachesMark(w, ns, cursor, leg.t0, leg.run);
    ChangesOrdered(w.log(EndTime(leg.t0, leg.run)), ns, cursor, s.mark);
    LiveIsOwn(w, ns, from, Some(cursor), leg.t0, leg.run);
    e := events[|events| - 1];
    assert e in LiveEvents(s.live);
    LiveIsForwards(w, ns, Some(cursor), leg.t0, leg.run);
    HeardIsAnnounced(w, ns, Some(cursor), leg.t0, leg.run, until, e);
  }

  // ------------------------------------------------------------------- reconnects

  /** Connections that each resume from the last stamp received. */
  ghost predicate IsChain(w: World, ns: Namespace, cursor: nat, legs: seq<Leg>, until: nat)
    decreases |legs|
  {
    legs == [] ||
    (&& IsLeg(w, ns, cursor, legs[0], until)
     && IsChain(w, ns, CursorAfter(cursor, LegEvents(legs[0])), legs[1..], until))
  }

  /** Every connection's watermark reached `from`. */
  ghost predicate AllPast(from: nat, legs: seq<Leg>) {
    forall leg :: leg in legs ==> leg.run != [] && from <= Last(leg.run).mark
  }

  /** Every connection was smooth and its watermark reached `from`. */
  ghost predicate AllSmooth(w: World, from: nat, legs: seq<Leg>) {
    AllPast(from, legs) && forall leg :: leg in legs ==> leg.run != [] && Smooth(w, leg)
  }

  /** Everything received over the chain, in order. */
  ghost function ChainEvents(w: World, ns: Namespace, cursor: nat, legs: seq<Leg>, until: nat): seq<Event>
    requires IsChain(w, ns, cursor, legs, until)
    decreases |legs|
  {
    if legs == [] then []
    else
      var events := LegEvents(legs[0]);
      events + ChainEvents(w, ns, CursorAfter(cursor, events), legs[1..], until)
  }

  /** No connection of the chain went from its watermark past one of `rows`. */
  ghost predicate ChainClear(w: World, ns: Namespace, cursor: nat, legs: seq<Leg>, until: nat, rows: set<nat>)
    requires IsChain(w, ns, cursor, legs, until)
    decreases |legs|
  {
    legs == [] ||
    (var next := CursorAfter(cursor, LegEvents(legs[0]));
     Clear(rows, Last(legs[0].run).mark, next) && ChainClear(w, ns, next, legs[1..], until, rows))
  }

  /** Strictly rising own-stamped events about `ns` beyond `cursor`: some of the changes there. */
  ghost predicate SomeChanges(log: seq<Row>, ns: Namespace, cursor: nat, events: seq<Event>) {
    && StampsOrdered(events, true)
    && (forall e :: e in events ==> e.ns == ns && IsOwn(log, e) && cursor < e.stamp.value)
  }

  lemma {:induction false} LegGivesChanges(w: World, ns: Namespace, from: nat, cursor: nat, leg: Leg, until: nat)
    requires TimeFlows(w) && Honest(w, ns, from) && IsLeg(w, ns, cursor, leg, until)
    requires from <= Last(leg.run).mark
    ensures SomeChanges(w.log(until), ns, cursor, LegEvents(leg))
  {
    var s, log := Last(leg.run), w.log(EndTime(leg.t0, leg.run));
    ReplayReachesMark(w, ns, cursor, leg.t0, leg.run);
    LiveIsOwn(w, ns, from, Some(cursor), leg.t0, leg.run);
    ChangesOrdered(log, ns, cursor, s.mark);
    forall e | e in s.replayed ensures e.ns == ns && IsOwn(log, e) && cursor < e.stamp.value <= s.mark {
      ChangesMember(log, ns, cursor, s.mark, e);
    }
    OrderedConcat(s.replayed, LiveEvents(s.live), s.mark, true);
    assert log <= w.log(until);
    CutSomeChanges(log, w.log(until), ns, cursor, Delivered(s), leg.got);
  }

  lemma {:induction false} CutSomeChanges(log: seq<Row>, later: seq<Row>, ns: Namespace, cursor: nat,
                                          events: seq<Event>, got: nat)
    requires log <= later && got <= |events| && SomeChanges(log, ns, cursor, events)
    ensures SomeChanges(later, ns, cursor, events[..got])
  {
  }

  lemma {:induction false} CursorRises(log: seq<Row>, ns: Namespace, cursor: nat, events: seq<Event>)
    requires SomeChanges(log, ns, cursor, events)
    ensures cursor <= CursorAfter(cursor, events)
    ensures forall e :: e in events ==> e.stamp.value <= CursorAfter(cursor, events)
  {
    if events != [] { assert events[|events| - 1] in events; }
  }

  lemma {:induction false} JoinSomeChanges(log: seq<Row>, ns: Namespace, cursor: nat, first: seq<Event>,
                                           rest: seq<Event>)
    requires SomeChanges(log, ns, cursor, first) && SomeChanges(log, ns, CursorAfter(cursor, first), rest)
    ensures SomeChanges(log, ns, cursor, first + rest)
  {
    CursorRises(log, ns, cursor, first);
  }

  lemma {:induction false} ChainGivesChanges(w: World, ns: Namespace, from: nat, cursor: nat, legs: seq<Leg>,
                                             until: nat)
    requires TimeFlows(w) && Honest(w, ns, from) && IsChain(w, ns, cursor, legs, until) && AllPast(from, legs)
    ensures SomeChanges(w.log(until), ns, cursor, ChainEvents(w, ns, cursor, legs, until))
    decreases |legs|
  {
    if legs != [] {
      var first := LegEvents(legs[0]);
      var next := CursorAfter(cursor, first);
      LegGivesChanges(w, ns, from, cursor, legs[0], until);
      ChainGivesChanges(w, ns, from, next, legs[1..], until);
      JoinSomeChanges(w.log(until), ns, cursor, first, ChainEvents(w, ns, next, legs[1..], until));
    }
  }

  /** Two stretches together are complete exactly when each is. */
  lemma {:induction false} JoinUpToLast(log: seq<Row>, ns: Namespace, cursor: nat, first: seq<Event>, rest: seq<Event>)
    requires SomeChanges(log, ns, cursor, first) && SomeChanges(log, ns, CursorAfter(cursor, first), rest)
    ensures UpToLast(log, ns, cursor, first + rest)
       <==> UpToLast(log, ns, cursor, first) && UpToLast(log, ns, CursorAfter(cursor, first), rest)
  {
    var mid := CursorAfter(cursor, first);
    var last := CursorAfter(mid, rest);
    CursorRises(log, ns, cursor, first);
    CursorRises(log, ns, mid, rest);
    assert rest == [] ==> first + rest == first;
    assert CursorAfter(cursor, first + rest) == last;
    ChangesSplit(log, ns, cursor, mid, last);
    if first + rest == Changes(log, ns, cursor, last) {
      FirstStretch(log, ns, cursor, mid, last, first, rest);
      CancelLeft(first, rest, Changes(log, ns, mid, last));
    }
  }

  lemma {:induction false} FirstStretch(log: seq<Row>, ns: Namespace, cursor: nat, mid: nat, last: nat,
                                        first: seq<Event>, rest: seq<Event>)
    requires SomeChanges(log, ns, cursor, first) && SomeChanges(log, ns, mid, rest)
    requires mid <= last && forall e :: e in first ==> e.stamp.value <= mid
    requires first + rest == Changes(log, ns, cursor, last)
    ensures first == Changes(log, ns, cursor, mid)
  {
    var owed := Changes(log, ns, cursor, mid);
    ChangesOrdered(log, ns, cursor, mid);
    forall e ensures e in first <==> e in owed {
      ChangesMember(log, ns, cursor, mid, e);
      ChangesMember(log, ns, cursor, last, e);
      assert e in first + rest <==> e in first || e in rest;
    }
    RisingSame(first, owed);
  }

  /** Every connection of the chain heard all changes between its watermark and its last stamp. */
  ghost predicate ChainHeard(w: World, ns: Namespace, cursor: nat, legs: seq<Leg>, until: nat)
    requires IsChain(w, ns, cursor, legs, until)
    decreases |legs|
  {
    legs == [] ||
    (var next := CursorAfter(cursor, LegEvents(legs[0]));
     && HeardAll(w, ns, legs[0].t0, legs[0].run, until, Last(legs[0].run).mark, next)
     && ChainHeard(w, ns, next, legs[1..], until))
  }

  /** Over any chain of reconnects, with whatever lag and failed reads and wherever cut off, the client
      has exactly the changes from its first cursor to its last, none missing and none twice, if and
      only if each connection heard every change between its watermark and its last stamp. */
  lemma {:induction false} ReconnectsReceivedExactlyWhen(w: World, ns: Namespace, from: nat, cursor: nat,
                                                         legs: seq<Leg>, until: nat)
    requires TimeFlows(w) && Honest(w, ns, from) && IsChain(w, ns, cursor, legs, until) && AllPast(from, legs)
    ensures UpToLast(w.log(until), ns, cursor, ChainEvents(w, ns, cursor, legs, until))
       <==> ChainHeard(w, ns, cursor, legs, until)
    decreases |legs|
  {
    if legs != [] {
      var first := LegEvents(legs[0]);
      var next := CursorAfter(cursor, first);
      LegReceivedExactlyWhen(w, ns, from, cursor, legs[0], until);
      LegGivesChanges(w, ns, from, cursor, legs[0], until);
      ReconnectsReceivedExactlyWhen(w, ns, from, next, legs[1..], until);
      ChainGivesChanges(w, ns, from, next, legs[1..], until);
      JoinUpToLast(w.log(until), ns, cursor, first, ChainEvents(w, ns, next, legs[1..], until));
    }
  }

  /** If no connection lagged or failed, that is so if and only if none went from its watermark past a
      row the writer never announced. */
  lemma {:induction false} ReconnectsExactlyWhen(w: World, ns: Namespace, from: nat, cursor: nat, legs: seq<Leg>,
                                                 until: nat)
    requires TimeFlows(w) && Honest(w, ns, from) && IsChain(w, ns, cursor, legs, until) && AllSmooth(w, from, legs)
    ensures UpToLast(w.log(until), ns, cursor, ChainEvents(w, ns, cursor, legs, until))
       <==> ChainClear(w, ns, cursor, legs, until, Unannounced(w.log(until), ns, w.sent(until)))
  {
    ReconnectsReceivedExactlyWhen(w, ns, from, cursor, legs, until);
    ChainHeardExactlyWhenClear(w, ns, from, cursor, legs, until);
  }

  lemma {:induction false} ChainHeardExactlyWhenClear(w: World, ns: Namespace, from: nat, cursor: nat, legs: seq<Leg>,
                                                      until: nat)
    requires TimeFlows(w) && Honest(w, ns, from) && IsChain(w, ns, cursor, legs, until) && AllSmooth(w, from, legs)
    ensures ChainHeard(w, ns, cursor, legs, until)
       <==> ChainClear(w, ns, cursor, legs, until, Unannounced(w.log(until), ns, w.sent(until)))
    decreases |legs|
  {
    if legs != [] {
      HeardExactlyWhenClear(w, ns, from, cursor, legs[0], until);
      ChainHeardExactlyWhenClear(w, ns, from, CursorAfter(cursor, LegEvents(legs[0])), legs[1..], until);
    }
  }

  /** What a chain has gone past is gone for good, whatever the writer and however the reads fail. */
  lemma {:induction false} ChainStaysBeyond(w: World, ns: Namespace, cursor: nat, legs: seq<Leg>, until: nat)
    requires TimeFlows(w) && IsChain(w, ns, cursor, legs, until)
    ensures Beyond(ChainEvents(w, ns, cursor, legs, until), cursor)
    decreases |legs|
  {
    if legs != [] {
      var first := LegEvents(legs[0]);
      NothingBelowCursor(w, ns, cursor, legs[0].t0, legs[0].run);
      assert Beyond(first, cursor) && cursor <= CursorAfter(cursor, first);
      ChainStaysBeyond(w, ns, CursorAfter(cursor, first), legs[1..], until);
    }
  }
}
