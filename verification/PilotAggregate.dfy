/**
 Checking and aggregating the pilot's event lines, and what their order can change
 (scripts/dogfood-pilot.py:571-640).
 */
module PilotAggregate {
  import opened Common
  import opened Folds
  import opened PilotPlan
  import opened PilotReport
  import opened PilotOrder
  import opened PilotRules
  import opened PilotVerdict

  datatype Error = TooEarly | InvalidPair(id: string) | DuplicatePair(id: string) | NoObservations | Incomplete

  /** The ids of the observations read so far are distinct and are exactly those seen. */
  ghost predicate Tracking(pairs: seq<Pair>, i: nat, seen: set<string>)
    requires i <= |pairs|
  {
    NoDuplicates(PairIdsOf(pairs)[..i]) && seen == Elements(PairIdsOf(pairs)[..i])
  }

  lemma TrackNextPair(pairs: seq<Pair>, i: nat, seen: set<string>)
    requires i < |pairs| && Tracking(pairs, i, seen)
    ensures pairs[i].id in seen ==> !NoDuplicates(PairIdsOf(pairs))
    ensures pairs[i].id !in seen ==> Tracking(pairs, i + 1, seen + {pairs[i].id})
  {
  }

  /** Validate each observation and refuse a repeated one. */
  method Collect(m: Manifest, pairs: seq<Pair>, final: bool) returns (error: Option<Error>)
    ensures error.None? <==> Complete(m, pairs, final)
  {
    var seen: set<string> := {};
    for i := 0 to |pairs|
      invariant forall j :: 0 <= j < i ==> PairOk(m, pairs[j])
      invariant Tracking(pairs, i, seen)
    {
      var ok := PairOk(m, pairs[i]);
      if !ok {
        return Some(InvalidPair(pairs[i].id));
      }
      TrackNextPair(pairs, i, seen);
      if pairs[i].id in seen {
        return Some(DuplicatePair(pairs[i].id));
      }
      seen := seen + {pairs[i].id};
    }
    assert PairIdsOf(pairs)[..|pairs|] == PairIdsOf(pairs);
    assert |pairs| > 0 ==> PairIdsOf(pairs)[0] in Elements(PairIdsOf(pairs));
    if seen == {} {
      return Some(NoObservations);
    }
    var planned := PlannedIds(m);
    if (final && seen != planned) || !(seen <= planned) {
      return Some(Incomplete);
    }
    error := None;
  }

  /** Check, sort by time, report. Sorting is stable, so the report is that of the lines as they came. */
  method Aggregate(m: Manifest, stats: Statistics, pairs: seq<Pair>, final: bool, now: Time)
    returns (r: Result<Report, Error>)
    requires Admitted(m)
    ensures r.Ok? <==> Complete(m, pairs, final) && (final ==> now >= m.end)
    ensures r.Ok? ==> r.value == ReportOf(m, stats, pairs, final)
    ensures r.Ok? && final ==>
              (r.value.verdict == Go <==>
                 && SafeBounds(GuardsOf(pairs)) && ValueBounds(TallyOf(stats, pairs)) && EveryRepository(m, pairs))
  {
    if final && now < m.end {
      return Err(TooEarly);
    }
    var error := Collect(m, pairs, final);
    if error.Some? {
      return Err(error.value);
    }
    var ordered := SortBy(OBSERVED, pairs);
    assert |multiset(ordered)| == |multiset(pairs)|;
    SortingIsInvisible(m, stats, ordered, pairs, final);
    GoExactlyWhen(m, stats, pairs);
    r := Ok(ReportOf(m, stats, ordered, final));
  }

  // ------------------------------------------------------------------- order

  lemma {:induction false} PlanScenarios(plan: seq<Plan>)
    ensures |ScenarioIds(plan)| == |plan| && forall k :: 0 <= k < |plan| ==> ScenarioIds(plan)[k] == plan[k].scenarioId
  {
    if plan != [] { PlanScenarios(plan[..|plan| - 1]); }
  }

  /** A scenario planned in some repository is in the list of all of them. */
  lemma {:induction false} PlannedIsListed(rs: seq<Repository>, a: nat, k: nat)
    requires a < |rs| && k < |rs[a].plan|
    ensures rs[a].plan[k].scenarioId in Flat(SCENARIOS, rs)
  {
    PlanScenarios(rs[a].plan);
    var n := |rs| - 1;
    if a < n { PlannedIsListed(rs[..n], a, k); }
    assert Flat(SCENARIOS, rs) == Flat(SCENARIOS, rs[..n]) + ScenarioIds(rs[n].plan);
  }

  /** Nowhere are two plan entries made for one scenario. */
  lemma {:induction false} ScenarioTellsEntry(rs: seq<Repository>, a: nat, k: nat, b: nat, l: nat)
    requires NoDuplicates(Flat(SCENARIOS, rs)) && a < |rs| && k < |rs[a].plan| && b < |rs| && l < |rs[b].plan|
    requires rs[a].plan[k].scenarioId == rs[b].plan[l].scenarioId
    ensures a == b && k == l
  {
    var n := |rs| - 1;
    var front, last := Flat(SCENARIOS, rs[..n]), ScenarioIds(rs[n].plan);
    assert Flat(SCENARIOS, rs) == front + last;
    assert forall i :: 0 <= i < |front| ==> (front + last)[i] == front[i];
    DistinctAppend(front, last);
    PlanScenarios(rs[n].plan);
    if a < n { PlannedIsListed(rs[..n], a, k); }
    if b < n { PlannedIsListed(rs[..n], b, l); }
    assert a == n ==> rs[a].plan[k].scenarioId == last[k] && last[k] in Elements(last);
    assert b == n ==> rs[b].plan[l].scenarioId == last[l] && last[l] in Elements(last);
    assert forall x :: x in front ==> x in Elements(front);
    if a < n && b < n { ScenarioTellsEntry(rs[..n], a, k, b, l); }
  }

  /** Accepted observations are of different scenarios: the plan gives each scenario one pair. */
  lemma {:induction false} CompleteScenariosDiffer(m: Manifest, pairs: seq<Pair>, final: bool)
    requires Isolated(m) && Complete(m, pairs, final)
    ensures DistinctScenarios(pairs)
  {
    forall i, j | 0 <= i < j < |pairs| ensures pairs[i].scenario != pairs[j].scenario {
      assert PairIdsOf(pairs)[i] != PairIdsOf(pairs)[j];
      assert PairOk(m, pairs[i]) && PairOk(m, pairs[j]);
      ScenarioTellsPair(m, pairs[i], pairs[j]);
    }
  }

  lemma {:induction false} ScenarioTellsPair(m: Manifest, p: Pair, q: Pair)
    requires Isolated(m) && PairOk(m, p) && PairOk(m, q)
    ensures p.scenario == q.scenario ==> p.id == q.id
  {
    var a :| 0 <= a < |m.repositories| && PlannedIn(m.repositories[a], p);
    var b :| 0 <= b < |m.repositories| && PlannedIn(m.repositories[b], q);
    var k :| 0 <= k < |m.repositories[a].plan|
      && m.repositories[a].plan[k] == Plan(p.id, p.scenario, p.armOrder, p.snapshot);
    var l :| 0 <= l < |m.repositories[b].plan|
      && m.repositories[b].plan[l] == Plan(q.id, q.scenario, q.armOrder, q.snapshot);
    if p.scenario == q.scenario { ScenarioTellsEntry(m.repositories, a, k, b, l); }
  }

  /** A checked schedule places each observation's scenario with the repository that planned it. */
  lemma {:induction false} ScheduleMatches(m: Manifest, slots: seq<Slot>, pairs: seq<Pair>, final: bool)
    requires Isolated(m) && ScheduleOk(m, slots) && Complete(m, pairs, final)
    ensures Matches(slots, pairs)
  {
    forall i, k | 0 <= i < |pairs| && 0 <= k < |slots| && slots[k].scenario == pairs[i].scenario
      ensures slots[k].repository == pairs[i].repository
    {
      assert PairOk(m, pairs[i]) && SlotOk(m, slots[k]);
      SlotMatches(m, slots[k], pairs[i]);
    }
  }

  lemma {:induction false} SlotMatches(m: Manifest, slot: Slot, p: Pair)
    requires Isolated(m) && SlotOk(m, slot) && PairOk(m, p) && slot.scenario == p.scenario
    ensures slot.repository == p.repository
  {
    var a :| 0 <= a < |m.repositories| && PlannedIn(m.repositories[a], p);
    var k :| 0 <= k < |m.repositories[a].plan|
      && m.repositories[a].plan[k] == Plan(p.id, p.scenario, p.armOrder, p.snapshot);
    var b :| 0 <= b < |m.repositories| && slot.repository == m.repositories[b].name
             && slot.scenario in ScenarioIds(m.repositories[b].plan);
    PlanScenarios(m.repositories[b].plan);
    var l :| 0 <= l < |m.repositories[b].plan| && ScenarioIds(m.repositories[b].plan)[l] == slot.scenario;
    ScenarioTellsEntry(m.repositories, a, k, b, l);
  }

  /** A checked schedule has a slot for every observation that passes the other checks. */
  lemma {:induction false} EveryPairHasASlot(m: Manifest, slots: seq<Slot>, p: Pair)
    requires Isolated(m) && ScheduleOk(m, slots) && PairOk(m, p)
    ensures exists k :: 0 <= k < |slots| && slots[k].scenario == p.scenario
  {
    ScheduledArePlanned(m, slots);
    PairIsPlanned(m, p);
    CoversAll(SlotScenarios(slots), Flat(SCENARIOS, m.repositories), p.scenario);
    var k :| 0 <= k < |slots| && SlotScenarios(slots)[k] == p.scenario;
    assert slots[k].scenario == p.scenario;
  }

  function SlotScenarios(slots: seq<Slot>): (r: seq<string>)
    ensures |r| == |slots| && forall k :: 0 <= k < |slots| ==> r[k] == slots[k].scenario
  {
    seq(|slots|, k requires 0 <= k < |slots| => slots[k].scenario)
  }

  lemma {:induction false} ScheduledArePlanned(m: Manifest, slots: seq<Slot>)
    requires ScheduledOnce(slots) && SlotsOk(m, slots)
    ensures NoDuplicates(SlotScenarios(slots))
    ensures forall x :: x in SlotScenarios(slots) ==> x in Flat(SCENARIOS, m.repositories)
  {
    forall k | 0 <= k < |slots| ensures SlotScenarios(slots)[k] in Flat(SCENARIOS, m.repositories) {
      SlotIsPlanned(m, slots[k]);
    }
  }

  /** As many distinct names as there are to choose from are all of them. */
  lemma {:induction false} CoversAll(some: seq<string>, all: seq<string>, x: string)
    requires NoDuplicates(some) && NoDuplicates(all) && |some| == |all| && x in all
    requires forall y :: y in some ==> y in all
    ensures x in some
  {
    DistinctCount(some);
    DistinctCount(all);
    assert Elements(some) <= Elements(all);
    if Elements(some) < Elements(all) { ProperSubsetIsSmaller(Elements(some), Elements(all)); }
    assert x in Elements(all);
  }

  lemma {:induction false} SlotIsPlanned(m: Manifest, slot: Slot)
    requires SlotOk(m, slot)
    ensures slot.scenario in Flat(SCENARIOS, m.repositories)
  {
    var b :| 0 <= b < |m.repositories| && slot.repository == m.repositories[b].name
             && slot.scenario in ScenarioIds(m.repositories[b].plan);
    PlanScenarios(m.repositories[b].plan);
    var l :| 0 <= l < |m.repositories[b].plan| && ScenarioIds(m.repositories[b].plan)[l] == slot.scenario;
    PlannedIsListed(m.repositories, b, l);
  }

  lemma {:induction false} PairIsPlanned(m: Manifest, p: Pair)
    requires PairOk(m, p)
    ensures p.scenario in Flat(SCENARIOS, m.repositories)
  {
    var a :| 0 <= a < |m.repositories| && PlannedIn(m.repositories[a], p);
    var k :| 0 <= k < |m.repositories[a].plan|
      && m.repositories[a].plan[k] == Plan(p.id, p.scenario, p.armOrder, p.snapshot);
    PlannedIsListed(m.repositories, a, k);
  }

  /** Whether observations are accepted does not depend on their order either. */
  lemma {:induction false} CompleteInAnyOrder(m: Manifest, a: seq<Pair>, b: seq<Pair>, final: bool)
    requires SameBag(a, b) && Complete(m, a, final)
    ensures Complete(m, b, final)
  {
    SameBagMembers(a, b);
    forall i | 0 <= i < |b| ensures PairOk(m, b[i]) {
      assert b[i] in a;
    }
    IdsInAnyOrder(a, b);
  }

  lemma {:induction false} IdsInAnyOrder(a: seq<Pair>, b: seq<Pair>)
    requires SameBag(a, b) && NoDuplicates(PairIdsOf(a))
    ensures NoDuplicates(PairIdsOf(b)) && Elements(PairIdsOf(b)) == Elements(PairIdsOf(a))
  {
    SameBagMembers(a, b);
    IdsTell(a);
    OnceEach(a, b);
    forall i, j | 0 <= i < j < |b| ensures PairIdsOf(b)[i] != PairIdsOf(b)[j] {
      assert b[i] in a && b[j] in a && b[i] != b[j];
    }
    SameIds(a, b);
    SameIds(b, a);
  }

  lemma {:induction false} SameIds(a: seq<Pair>, b: seq<Pair>)
    requires forall p :: p in a ==> p in b
    ensures Elements(PairIdsOf(a)) <= Elements(PairIdsOf(b))
  {
    forall id | id in PairIdsOf(a) ensures id in PairIdsOf(b) {
      var i :| 0 <= i < |a| && PairIdsOf(a)[i] == id;
      assert a[i] in b;
      var j :| 0 <= j < |b| && b[j] == a[i];
      assert PairIdsOf(b)[j] == id;
    }
  }

  lemma {:induction false} IdsTell(s: seq<Pair>)
    requires NoDuplicates(PairIdsOf(s))
    ensures NoDuplicates(s)
    ensures forall p, q :: p in s && q in s && p.id == q.id ==> p == q
  {
    forall p, q | p in s && q in s && p.id == q.id ensures p == q {
      var i :| 0 <= i < |s| && s[i] == p;
      var j :| 0 <= j < |s| && s[j] == q;
      assert PairIdsOf(s)[i] == PairIdsOf(s)[j];
    }
    forall i, j | 0 <= i < j < |s| ensures s[i] != s[j] {
      assert PairIdsOf(s)[i] != PairIdsOf(s)[j];
    }
  }

  lemma {:induction false} OnceEach(a: seq<Pair>, b: seq<Pair>)
    requires SameBag(a, b) && NoDuplicates(a)
    ensures NoDuplicates(b)
  {
    forall i, j | 0 <= i < j < |b| ensures b[i] != b[j] {
      AtMostOnce(a, b[i]);
      assert b == b[..j] + b[j..];
      assert b[i] in b[..j] && b[j] in b[j..];
      assert multiset(b)[b[i]] == multiset(b[..j])[b[i]] + multiset(b[j..])[b[i]];
    }
  }

  lemma {:induction false} AtMostOnce(s: seq<Pair>, p: Pair)
    requires NoDuplicates(s)
    ensures multiset(s)[p] <= 1
  {
    if s != [] {
      var front, last := s[..|s| - 1], s[|s| - 1];
      AtMostOnce(front, p);
      assert s == front + [last] && last !in front;
    }
  }

  /** With one slot per time in each repository, the lines may come in any order: the same are accepted
      and the whole report is the same. */
  lemma {:induction false} OrderDoesNotMatter(m: Manifest, stats: Statistics, slots: seq<Slot>, pairs: seq<Pair>,
                                              shuffled: seq<Pair>, final: bool)
    requires Admitted(m) && Complete(m, pairs, final) && SameBag(pairs, shuffled)
    requires ScheduleOk(m, slots) && DistinctSlots(slots)
    requires forall i :: 0 <= i < |pairs| ==> Accepted(m, slots, pairs[i])
    ensures Complete(m, shuffled, final) && ReportOf(m, stats, shuffled, final) == ReportOf(m, stats, pairs, final)
  {
    CompleteInAnyOrder(m, pairs, shuffled, final);
    CompleteScenariosDiffer(m, pairs, final);
    ScheduleMatches(m, slots, pairs, final);
    ScheduleIdentifies(m, slots, pairs);
    forall i | 0 <= i < |m.repositories| ensures Determined(Mine(m, i, pairs)) {
      TimesDetermine(m, pairs, i);
    }
    ReportFixedExactlyWhen(m, stats, pairs, final);
  }

  /** Two accepted observations tied for the first useful one of a repository: some other order of
      the same lines is accepted too and gives another report. */
  lemma {:induction false} TiedSlotsLetOrderDecide(m: Manifest, stats: Statistics, pairs: seq<Pair>, final: bool,
                                                   i: nat, p: Pair, q: Pair)
    returns (shuffled: seq<Pair>)
    requires Complete(m, pairs, final) && i < |m.repositories| && p != q
    requires IsFirstUseful(Mine(m, i, pairs), p) && IsFirstUseful(Mine(m, i, pairs), q)
    ensures SameBag(pairs, shuffled) && Complete(m, shuffled, final)
    ensures ReportOf(m, stats, shuffled, final) != ReportOf(m, stats, pairs, final)
  {
    IdsTell(pairs);
    FilterMembers(InRepository(m.repositories[i].name), pairs);
    assert !OneFirstUseful(Mine(m, i, pairs));
    ReportFixedExactlyWhen(m, stats, pairs, final);
    shuffled := AnotherOrder(m, stats, pairs, final);
    CompleteInAnyOrder(m, pairs, shuffled, final);
  }

  lemma {:induction false} AnotherOrder(m: Manifest, stats: Statistics, pairs: seq<Pair>, final: bool)
    returns (other: seq<Pair>)
    requires pairs != [] && m.repositories != [] && !ReportIsFixed(m, stats, pairs, final)
    ensures SameBag(pairs, other) && other != [] && ReportOf(m, stats, other, final) != ReportOf(m, stats, pairs, final)
  {
    other :| SameBag(pairs, other) && other != []
      && ReportOf(m, stats, other, final) != ReportOf(m, stats, pairs, final);
  }
}
