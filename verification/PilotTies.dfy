/**
 A pilot that passes every check although two of its scenarios share a slot, so that the order of
 two event lines decides what is reported (scripts/dogfood-pilot.py:240-422, 571-700).
 */
module PilotTies {
  import opened Common
  import opened Folds
  import opened PilotPlan
  import opened PilotReport
  import opened PilotOrder
  import opened PilotAggregate

  function Id(letter: char, k: nat): string
    requires k < 10
  {
    [letter, '0' + k as char]
  }

  /** The commit of each repository and the digest of each scenario's snapshot. */
  datatype Stamps = Stamps(commit: string -> string, digest: string -> string)

  function Entry(x: Stamps, letter: char, k: nat): Plan
    requires k < 10
  {
    Plan(Id(letter, k), Id(letter, k), if k % 2 == 0 then BaselineFirst else TreatmentFirst, x.digest(Id(letter, k)))
  }

  function FivePairs(x: Stamps, letter: char): seq<Plan> {
    [Entry(x, letter, 0), Entry(x, letter, 1), Entry(x, letter, 2), Entry(x, letter, 3), Entry(x, letter, 4)]
  }

  const SETTING := Execution("model", "1", 1)

  function First(x: Stamps): Repository {
    Repository("rusty-brain", x.commit("rusty-brain"), "s0", "s1", "n0", "n1", FivePairs(x, 'a'))
  }

  function Second(x: Stamps): Repository {
    Repository("threatmitigator", x.commit("threatmitigator"), "s2", "s3", "n2", "n3", FivePairs(x, 'b'))
  }

  function Pilot(x: Stamps): Manifest {
    Manifest(0, 14 * DAY, 5, SETTING, "arm", 10, [First(x), Second(x)])
  }

  function SlotFor(i: nat): Slot
    requires i < 10
  {
    Slot(Id(if i < 5 then 'a' else 'b', i % 5), if i < 5 then "rusty-brain" else "threatmitigator",
         if i < 2 then 0 else i, Http, 1, 1)
  }

  /** The first two scenarios of the first repository share their slot. */
  function Tied(): (slots: seq<Slot>)
    ensures |slots| == 10 && forall i :: 0 <= i < 10 ==> slots[i] == SlotFor(i)
  {
    seq(10, i requires 0 <= i < 10 => SlotFor(i))
  }

  function ArmIn(environment: string, store: string, namespace: string): Arm {
    Arm(environment, store, namespace, "agent", SETTING, true, 1, 1.0, 0, 1, 1, 1, 1)
  }

  /** One helpful injection, observed a moment after the slot opened. */
  function Helped(x: Stamps, k: nat): Pair
    requires k < 5
  {
    Pair(Id('a', k), Id('a', k), "rusty-brain", x.commit("rusty-brain"), 1, Entry(x, 'a', k).armOrder,
         x.digest(Id('a', k)), ArmIn("e0", "s0", "n0"),
         Treatment(ArmIn("e1", "s1", "n1"), "arm", Http, true, 1, 1, 0, 0, 0, 0, 0, 0, 0, 1, None, 1, 0, 0,
                   1, 1, 1, 1, 0, 0, 0, 0, 0.0, 0, 0, 0.0), [])
  }

  lemma {:induction false} CountFive(x: Stamps, letter: char)
    ensures Balanced(FivePairs(x, letter))
  {
    var p := FivePairs(x, letter);
    assert p[1..][1..] == p[2..] && p[2..][1..] == p[3..] && p[3..][1..] == p[4..] && p[4..][1..] == [];
    assert BaselineFirstCount(p[4..]) == 1;
    assert BaselineFirstCount(p[3..]) == 1;
    assert BaselineFirstCount(p[2..]) == 2;
    assert BaselineFirstCount(p[1..]) == 2;
    assert BaselineFirstCount(p) == 3;
  }

  lemma {:induction false} PlanPairs(plan: seq<Plan>)
    ensures |PairIds(plan)| == |plan| && forall k :: 0 <= k < |plan| ==> PairIds(plan)[k] == plan[k].pairId
  {
    if plan != [] { PlanPairs(plan[..|plan| - 1]); }
  }

  lemma {:induction false} FlatTwo(of: Repository -> seq<string>, x: Repository, y: Repository)
    ensures Flat(of, [x, y]) == of(x) + of(y)
  {
    var rs := [x, y];
    assert rs[..1] == [x] && rs[..1][..0] == [];
    assert Flat(of, [x]) == [] + of(x);
  }

  lemma {:induction false} TenIds(ids: seq<string>)
    requires |ids| == 10 && forall k :: 0 <= k < 10 ==> ids[k] == Id(if k < 5 then 'a' else 'b', k % 5)
    ensures NoDuplicates(ids)
  {
    forall i, j | 0 <= i < j < 10 ensures ids[i] != ids[j] {
      assert ids[i][0] != ids[j][0] || ids[i][1] != ids[j][1];
    }
  }

  lemma {:induction false} PlanOfFive(x: Stamps, letter: char, k: nat)
    requires k < 5
    ensures FivePairs(x, letter)[k] == Entry(x, letter, k)
    ensures |PairIds(FivePairs(x, letter))| == 5 && PairIds(FivePairs(x, letter))[k] == Id(letter, k)
    ensures |ScenarioIds(FivePairs(x, letter))| == 5 && ScenarioIds(FivePairs(x, letter))[k] == Id(letter, k)
  {
    PlanPairs(FivePairs(x, letter));
    PlanScenarios(FivePairs(x, letter));
  }

  lemma {:induction false} PilotPairIds(x: Stamps)
    ensures NoDuplicates(Flat(PAIRS, [First(x), Second(x)]))
    ensures Id('a', 0) in Flat(PAIRS, [First(x), Second(x)]) && Id('a', 1) in Flat(PAIRS, [First(x), Second(x)])
  {
    var ids := Flat(PAIRS, [First(x), Second(x)]);
    FlatTwo(PAIRS, First(x), Second(x));
    PlanOfFive(x, 'a', 0);
    PlanOfFive(x, 'b', 0);
    forall k | 0 <= k < 10 ensures ids[k] == Id(if k < 5 then 'a' else 'b', k % 5) {
      PlanOfFive(x, if k < 5 then 'a' else 'b', k % 5);
    }
    TenIds(ids);
    assert ids[0] == Id('a', 0) && ids[1] == Id('a', 1);
  }

  lemma {:induction false} PilotScenarioIds(x: Stamps)
    ensures NoDuplicates(Flat(SCENARIOS, [First(x), Second(x)])) && |Flat(SCENARIOS, [First(x), Second(x)])| == 10
  {
    var ids := Flat(SCENARIOS, [First(x), Second(x)]);
    FlatTwo(SCENARIOS, First(x), Second(x));
    PlanOfFive(x, 'a', 0);
    PlanOfFive(x, 'b', 0);
    forall k | 0 <= k < 10 ensures ids[k] == Id(if k < 5 then 'a' else 'b', k % 5) {
      PlanOfFive(x, if k < 5 then 'a' else 'b', k % 5);
    }
    TenIds(ids);
  }

  lemma {:induction false} PilotAdmitted(x: Stamps)
    ensures Admitted(Pilot(x))
  {
    PilotPairIds(x);
    PilotScenarioIds(x);
    CountFive(x, 'a');
    CountFive(x, 'b');
    FlatTwo(NAME, First(x), Second(x));
    FlatTwo(STORES, First(x), Second(x));
    FlatTwo(NAMESPACES, First(x), Second(x));
    assert Flat(NAME, [First(x), Second(x)]) == ["rusty-brain", "threatmitigator"];
    assert Flat(STORES, [First(x), Second(x)]) == ["s0", "s1", "s2", "s3"];
    assert Flat(NAMESPACES, [First(x), Second(x)]) == ["n0", "n1", "n2", "n3"];
  }

  lemma {:induction false} HelpedIsPlanned(x: Stamps, k: nat)
    requires k < 2
    ensures PairOk(Pilot(x), Helped(x, k))
  {
    assert FivePairs(x, 'a')[k] == Entry(x, 'a', k);
    assert PlannedIn(Pilot(x).repositories[0], Helped(x, k));
  }

  lemma {:induction false} NextSlots(slots: seq<Slot>, n: nat)
    requires slots == Tied() && 2 <= n <= 10
    ensures forall t :: t in LaterSlots(slots[..n], "rusty-brain", 0) ==> t >= 2
  {
    if n == 2 {
      assert slots[..2][..1] == slots[..1] && slots[..1][..0] == [];
      assert LaterSlots(slots[..1], "rusty-brain", 0) == [];
    } else {
      NextSlots(slots, n - 1);
      assert slots[..n][..n - 1] == slots[..n - 1];
    }
  }

  lemma {:induction false} LeastAtLeast(first: Time, rest: seq<Time>, bound: Time)
    requires first >= bound && forall t :: t in rest ==> t >= bound
    ensures Least(first, rest) >= bound
  {
    if rest != [] {
      var front, last := rest[..|rest| - 1], rest[|rest| - 1];
      assert last in rest && forall t :: t in front ==> t in rest;
      LeastAtLeast(first, front, bound);
    }
  }

  lemma {:induction false} HelpedIsAccepted(x: Stamps, k: nat)
    requires k < 2
    ensures Accepted(Pilot(x), Tied(), Helped(x, k))
  {
    var slots := Tied();
    NextSlots(slots, 10);
    assert slots[..10] == slots;
    LeastAtLeast(Pilot(x).end, LaterSlots(slots, "rusty-brain", 0), 2);
    assert slots[k] == SlotFor(k) && OnSchedule(Pilot(x), slots, Helped(x, k), k);
  }

  lemma {:induction false} TiedIsSchedule(x: Stamps)
    ensures ScheduleOk(Pilot(x), Tied())
  {
    PilotScenarioIds(x);
    TiedSlotsArePlanned(x);
    TiedScenariosDiffer();
    TiedCovers(x);
  }

  lemma {:induction false} TiedSlotsArePlanned(x: Stamps)
    ensures SlotsOk(Pilot(x), Tied())
  {
    forall k | 0 <= k < 10 ensures SlotOk(Pilot(x), Tied()[k]) {
      TiedSlotIsPlanned(x, k);
    }
  }

  lemma {:induction false} TiedCovers(x: Stamps)
    ensures AllCovered(Pilot(x), Tied())
  {
    var slots := Tied();
    assert slots[0] == SlotFor(0) && slots[5] == SlotFor(5);
    assert Covered(slots, First(x).name) && Covered(slots, Second(x).name);
  }

  lemma {:induction false} TiedSlotIsPlanned(x: Stamps, k: nat)
    requires k < 10
    ensures SlotOk(Pilot(x), Tied()[k])
  {
    PlanOfFive(x, if k < 5 then 'a' else 'b', k % 5);
    assert SlotFor(k).repository == Pilot(x).repositories[if k < 5 then 0 else 1].name;
  }

  lemma {:induction false} TiedScenariosDiffer()
    ensures ScheduledOnce(Tied())
  {
    var ids := SlotScenarios(Tied());
    forall k | 0 <= k < 10 ensures ids[k] == Id(if k < 5 then 'a' else 'b', k % 5) {
      assert ids[k] == SlotFor(k).scenario;
    }
    TenIds(ids);
    assert forall i, j :: 0 <= i < j < 10 ==> ids[i] != ids[j];
  }

  /** Whatever the commits and digests: an admitted pilot, a checked schedule with two tied slots, and
      two accepted observations in them: each order of the two lines is accepted and names another
      first useful pair. */
  lemma {:induction false} TiedSlotsExist(x: Stamps, stats: Statistics)
    ensures Admitted(Pilot(x)) && ScheduleOk(Pilot(x), Tied())
    ensures Accepted(Pilot(x), Tied(), Helped(x, 0)) && Accepted(Pilot(x), Tied(), Helped(x, 1))
    ensures BothComplete(x, [Helped(x, 0), Helped(x, 1)], [Helped(x, 1), Helped(x, 0)])
    ensures ReportOf(Pilot(x), stats, [Helped(x, 0), Helped(x, 1)], false)
         != ReportOf(Pilot(x), stats, [Helped(x, 1), Helped(x, 0)], false)
  {
    PilotAdmitted(x);
    TiedIsSchedule(x);
    HelpedIsAccepted(x, 0);
    HelpedIsAccepted(x, 1);
    TiedComplete(x);
    TiedReportsDiffer(x, stats);
  }

  ghost predicate BothComplete(x: Stamps, a: seq<Pair>, b: seq<Pair>) {
    Complete(Pilot(x), a, false) && Complete(Pilot(x), b, false)
  }

  lemma {:induction false} TiedComplete(x: Stamps)
    ensures BothComplete(x, [Helped(x, 0), Helped(x, 1)], [Helped(x, 1), Helped(x, 0)])
  {
    var pairs, shuffled := [Helped(x, 0), Helped(x, 1)], [Helped(x, 1), Helped(x, 0)];
    HelpedIsPlanned(x, 0);
    HelpedIsPlanned(x, 1);
    TiedIds(x, pairs);
    assert Complete(Pilot(x), pairs, false);
    assert multiset(pairs) == multiset{Helped(x, 0), Helped(x, 1)} == multiset(shuffled);
    CompleteInAnyOrder(Pilot(x), pairs, shuffled, false);
  }

  lemma {:induction false} TiedIds(x: Stamps, pairs: seq<Pair>)
    requires pairs == [Helped(x, 0), Helped(x, 1)]
    ensures NoDuplicates(PairIdsOf(pairs)) && Elements(PairIdsOf(pairs)) <= PlannedIds(Pilot(x))
  {
    PilotPairIds(x);
    assert PairIdsOf(pairs) == [Id('a', 0), Id('a', 1)];
    assert Id('a', 0)[1] != Id('a', 1)[1];
  }

  lemma {:induction false} TiedReportsDiffer(x: Stamps, stats: Statistics)
    ensures ReportOf(Pilot(x), stats, [Helped(x, 0), Helped(x, 1)], false)
         != ReportOf(Pilot(x), stats, [Helped(x, 1), Helped(x, 0)], false)
  {
    var a, b := [Helped(x, 0), Helped(x, 1)], [Helped(x, 1), Helped(x, 0)];
    assert multiset(a) == multiset{Helped(x, 0), Helped(x, 1)} == multiset(b);
    NamesItsFirst(x, 0, 1);
    NamesItsFirst(x, 1, 0);
    assert Id('a', 0)[1] != Id('a', 1)[1];
    assert !AgreeIn(Pilot(x), 0, a, b);
    ReportsAgreeExactlyWhen(Pilot(x), stats, a, b, false);
  }

  lemma {:induction false} NamesItsFirst(x: Stamps, i: nat, j: nat)
    requires i < 2 && j < 2
    ensures RepositoryReportOf(Pilot(x), Mine(Pilot(x), 0, [Helped(x, i), Helped(x, j)])).firstUsefulPair
            == Some(Id('a', i))
  {
    var line := [Helped(x, i), Helped(x, j)];
    FilterAll(InRepository("rusty-brain"), line);
    FilterAll(USEFUL, line);
    EarliestIsLeading(line);
  }
}
