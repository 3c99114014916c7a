/**
 The preregistered pilot: its frozen plan, the isolation the plan must show, and the time window
 each observation must fall into (scripts/dogfood-pilot.py:240-357, 405-422, 425-562).
 */
module PilotPlan {
  import opened Common

  /** Microseconds since the epoch, the resolution of parsed timestamps. */
  type Time = int

  datatype ArmOrder = BaselineFirst | TreatmentFirst

  datatype Surface = ClaudeNative | Http | Mcp

  datatype Plan = Plan(pairId: string, scenarioId: string, armOrder: ArmOrder, snapshot: string)

  datatype Repository = Repository(name: string, commit: string, baselineStore: string, treatmentStore: string,
                                   baselineNamespace: string, treatmentNamespace: string, plan: seq<Plan>)

  datatype Execution = Execution(modelId: string, modelVersion: string, promptBudget: nat)

  datatype Manifest = Manifest(start: Time, end: Time, runs: nat, execution: Execution, qualifiedArm: string,
                               maxActiveMemories: nat, repositories: seq<Repository>)

  datatype Arm = Arm(environment: string, store: string, namespace: string, agent: string, execution: Execution,
                     taskSuccess: bool, turns: nat, activeSeconds: real, corrections: nat,
                     contestedOpportunities: nat, contestedCorrect: nat,
                     multiOpportunities: nat, multiCorrect: nat)

  datatype Treatment = Treatment(common: Arm, armId: string, surface: Surface, qualifiedOnly: bool,
                                 injections: nat, helpful: nat, wrong: nat, stale: nat, ignored: nat,
                                 staleWrongExact: nat, memoryErrors: nat, exactRecoveries: nat, semanticHelpful: nat,
                                 tokens: nat, cost: Option<real>, provenanceLabeled: nat,
                                 contestedInjections: nat, contestedLabeled: nat,
                                 rowsBefore: nat, rowsAfter: nat, bytesBefore: nat, bytesAfter: nat,
                                 backlogBefore: nat, backlogAfter: nat,
                                 retentionActions: nat, retentionFailures: nat, retentionSeconds: real,
                                 backupAttempts: nat, backupFailures: nat, backupSeconds: real)

  datatype Pair = Pair(id: string, scenario: string, repository: string, commit: string, observedAt: Time,
                       armOrder: ArmOrder, snapshot: string, baseline: Arm, treatment: Treatment,
                       examples: seq<string>)

  /** A scheduled scenario. */
  datatype Slot = Slot(scenario: string, repository: string, scheduled: Time, surface: Surface,
                       contestedOpportunities: nat, multiOpportunities: nat)

  const CANDIDATES: set<string> := {"rusty-brain", "threatmitigator", "vikunja-rust-mcp"}
  const DAY: int := 86_400_000_000
  const MIN_RUNS: nat := 5

  // ------------------------------------------------------------------ the plan

  function BaselineFirstCount(plan: seq<Plan>): nat {
    if plan == [] then 0
    else (if plan[0].armOrder.BaselineFirst? then 1 else 0) + BaselineFirstCount(plan[1..])
  }

  predicate Balanced(plan: seq<Plan>) {
    -1 <= 2 * BaselineFirstCount(plan) - |plan| <= 1
  }

  predicate RepositoryOk(r: Repository, runs: nat) {
    && r.name in CANDIDATES
    && r.baselineStore != r.treatmentStore && r.baselineNamespace != r.treatmentNamespace
    && |r.plan| == runs && Balanced(r.plan)
  }

  function PairIds(plan: seq<Plan>): seq<string> {
    if plan == [] then [] else PairIds(plan[..|plan| - 1]) + [plan[|plan| - 1].pairId]
  }

  function ScenarioIds(plan: seq<Plan>): seq<string> {
    if plan == [] then [] else ScenarioIds(plan[..|plan| - 1]) + [plan[|plan| - 1].scenarioId]
  }

  const NAME: Repository -> seq<string> := (r: Repository) => [r.name]
  const STORES: Repository -> seq<string> := (r: Repository) => [r.baselineStore, r.treatmentStore]
  const NAMESPACES: Repository -> seq<string> := (r: Repository) => [r.baselineNamespace, r.treatmentNamespace]
  const PAIRS: Repository -> seq<string> := (r: Repository) => PairIds(r.plan)
  const SCENARIOS: Repository -> seq<string> := (r: Repository) => ScenarioIds(r.plan)

  /** One kind of identifier over all repositories, in order. */
  function Flat(of: Repository -> seq<string>, rs: seq<Repository>): seq<string> {
    if rs == [] then [] else Flat(of, rs[..|rs| - 1]) + of(rs[|rs| - 1])
  }

  /** What an admitted plan guarantees: no repository, store, namespace, pair or scenario is used
      twice anywhere, and each repository runs the same number of pairs in balanced order. */
  ghost predicate Isolated(m: Manifest) {
    && 2 <= |m.repositories| <= 3
    && (forall i :: 0 <= i < |m.repositories| ==> RepositoryOk(m.repositories[i], m.runs))
    && NoDuplicates(Flat(NAME, m.repositories))
    && NoDuplicates(Flat(STORES, m.repositories))
    && NoDuplicates(Flat(NAMESPACES, m.repositories))
    && NoDuplicates(Flat(PAIRS, m.repositories))
    && NoDuplicates(Flat(SCENARIOS, m.repositories))
  }

  ghost predicate Admitted(m: Manifest) {
    m.end - m.start == 14 * DAY && m.runs >= MIN_RUNS && Isolated(m)
  }

  lemma {:induction false} FlatPrefix(of: Repository -> seq<string>, rs: seq<Repository>, n: nat)
    requires n <= |rs|
    ensures Flat(of, rs[..n]) <= Flat(of, rs)
  {
    if n < |rs| {
      var front := rs[..|rs| - 1];
      FlatPrefix(of, front, n);
      assert front[..n] == rs[..n];
    } else {
      assert rs[..n] == rs;
    }
  }

  /** The identifiers of the repositories read so far are distinct and are exactly those seen. */
  ghost predicate Tracked(of: Repository -> seq<string>, rs: seq<Repository>, seen: set<string>) {
    NoDuplicates(Flat(of, rs)) && seen == Elements(Flat(of, rs))
  }

  lemma DistinctAppend(a: seq<string>, b: seq<string>)
    requires NoDuplicates(a)
    ensures NoDuplicates(a + b) <==> NoDuplicates(b) && Elements(a) !! Elements(b)
  {
    if NoDuplicates(a + b) {
      forall i, j | 0 <= i < j < |b| ensures b[i] != b[j] {
        assert (a + b)[|a| + i] == b[i] && (a + b)[|a| + j] == b[j];
      }
      forall i, j | 0 <= i < |a| && 0 <= j < |b| ensures a[i] != b[j] {
        assert (a + b)[i] == a[i] && (a + b)[|a| + j] == b[j];
      }
    } else {
      var i, j :| 0 <= i < j < |a + b| && (a + b)[i] == (a + b)[j];
      if i < |a| <= j { assert a[i] in Elements(a) && b[j - |a|] in Elements(b); }
    }
  }

  /** Reading one more repository. */
  lemma {:induction false} TrackNext(of: Repository -> seq<string>, rs: seq<Repository>, i: nat, seen: set<string>)
    requires i < |rs| && Tracked(of, rs[..i], seen)
    ensures NoDuplicates(of(rs[i])) && seen !! Elements(of(rs[i])) ==>
              Tracked(of, rs[..i + 1], seen + Elements(of(rs[i])))
    ensures !(NoDuplicates(of(rs[i])) && seen !! Elements(of(rs[i]))) ==> !NoDuplicates(Flat(of, rs))
  {
    var before, more := Flat(of, rs[..i]), of(rs[i]);
    assert rs[..i + 1][..i] == rs[..i];
    assert Flat(of, rs[..i + 1]) == before + more;
    DistinctAppend(before, more);
    ElementsConcat(before, more);
    FlatPrefix(of, rs, i + 1);
    if !NoDuplicates(before + more) {
      var a, b :| 0 <= a < b < |before + more| && (before + more)[a] == (before + more)[b];
      assert Flat(of, rs)[a] == Flat(of, rs)[b];
    }
  }

  /** Add identifiers to a seen-set, refusing a repeated one. */
  method AddAll(seen: set<string>, items: seq<string>) returns (ok: bool, all: set<string>)
    ensures ok <==> NoDuplicates(items) && seen !! Elements(items)
    ensures ok ==> all == seen + Elements(items)
  {
    ok, all := true, seen;
    for i := 0 to |items|
      invariant ok && all == seen + Elements(items[..i])
      invariant NoDuplicates(items[..i]) && seen !! Elements(items[..i])
    {
      assert items[..i + 1] == items[..i] + [items[i]];
      ElementsConcat(items[..i], [items[i]]);
      assert Elements([items[i]]) == {items[i]};
      if items[i] in all {
        assert items[i] in items;
        if items[i] !in seen {
          var k :| 0 <= k < i && items[..i][k] == items[i];
        }
        return false, all;
      }
      all := all + {items[i]};
    }
    assert items[..|items|] == items;
  }

  /** The seen-set loops over all repositories. */
  method ValidateRepositories(m: Manifest) returns (ok: bool)
    ensures ok <==> Isolated(m)
  {
    var rs := m.repositories;
    if !(2 <= |rs| <= 3) {
      return false;
    }
    var names, stores, namespaces, pairs, scenarios := {}, {}, {}, {}, {};
    for i := 0 to |rs|
      invariant forall j :: 0 <= j < i ==> RepositoryOk(rs[j], m.runs)
      invariant Tracked(NAME, rs[..i], names) && Tracked(STORES, rs[..i], stores)
      invariant Tracked(NAMESPACES, rs[..i], namespaces)
      invariant Tracked(PAIRS, rs[..i], pairs) && Tracked(SCENARIOS, rs[..i], scenarios)
    {
      if !RepositoryOk(rs[i], m.runs) {
        return false;
      }
      ok, names := TrackAll(NAME, rs, i, names);
      if !ok { return; }
      ok, stores := TrackAll(STORES, rs, i, stores);
      if !ok { return; }
      ok, namespaces := TrackAll(NAMESPACES, rs, i, namespaces);
      if !ok { return; }
      ok, scenarios := TrackAll(SCENARIOS, rs, i, scenarios);
      if !ok { return; }
      ok, pairs := TrackAll(PAIRS, rs, i, pairs);
      if !ok { return; }
    }
    assert rs[..|rs|] == rs;
    ok := true;
  }

  /** One seen-set, one more repository. */
  method TrackAll(of: Repository -> seq<string>, rs: seq<Repository>, i: nat, seen: set<string>)
    returns (ok: bool, all: set<string>)
    requires i < |rs| && Tracked(of, rs[..i], seen)
    ensures ok ==> Tracked(of, rs[..i + 1], all)
    ensures !ok ==> !NoDuplicates(Flat(of, rs))
  {
    TrackNext(of, rs, i, seen);
    ok, all := AddAll(seen, of(rs[i]));
  }

  // ------------------------------------------------------------ single pairs

  predicate ArmOk(a: Arm) {
    a.activeSeconds >= 0.0 && a.contestedCorrect <= a.contestedOpportunities && a.multiCorrect <= a.multiOpportunities
  }

  /** The bounds that make per-pair facts recoverable from sums. */
  predicate TreatmentOk(t: Treatment) {
    && ArmOk(t.common)
    && (t.surface.ClaudeNative? ==> t.common.agent == "claude-code") && t.qualifiedOnly
    && t.retentionSeconds >= 0.0 && t.backupSeconds >= 0.0 && (t.cost.Some? ==> t.cost.value >= 0.0)
    && t.helpful + t.wrong + t.stale + t.ignored == t.injections
    && t.staleWrongExact <= t.wrong + t.stale
    && t.exactRecoveries + t.semanticHelpful <= t.helpful
    && t.provenanceLabeled <= t.injections
    && t.contestedInjections <= t.injections && t.contestedLabeled <= t.contestedInjections
    && t.retentionFailures <= t.retentionActions && t.backupFailures <= t.backupAttempts
  }

  predicate PairOk(m: Manifest, p: Pair) {
    && m.start <= p.observedAt < m.end
    && ArmOk(p.baseline) && TreatmentOk(p.treatment)
    && p.baseline.environment != p.treatment.common.environment
    && p.baseline.agent == p.treatment.common.agent
    && p.baseline.execution == m.execution && p.treatment.common.execution == m.execution
    && p.baseline.contestedOpportunities == p.treatment.common.contestedOpportunities
    && p.baseline.multiOpportunities == p.treatment.common.multiOpportunities
    && p.treatment.armId == m.qualifiedArm
    && p.treatment.rowsBefore <= m.maxActiveMemories && p.treatment.rowsAfter <= m.maxActiveMemories
    && exists i :: 0 <= i < |m.repositories| && PlannedIn(m.repositories[i], p)
  }

  /** The pair is one this repository planned, run in its isolated arms. */
  predicate PlannedIn(r: Repository, p: Pair) {
    && r.name == p.repository && r.commit == p.commit
    && p.baseline.store == r.baselineStore && p.treatment.common.store == r.treatmentStore
    && p.baseline.namespace == r.baselineNamespace && p.treatment.common.namespace == r.treatmentNamespace
    && Plan(p.id, p.scenario, p.armOrder, p.snapshot) in r.plan
  }

  // ---------------------------------------------------------- what isolation buys

  lemma {:induction false} FlatHas(of: Repository -> seq<string>, rs: seq<Repository>, i: nat, x: string)
    requires i < |rs| && x in of(rs[i])
    ensures x in Flat(of, rs)
  {
    if i < |rs| - 1 { FlatHas(of, rs[..|rs| - 1], i, x); }
  }

  lemma {:induction false} NotAgain(of: Repository -> seq<string>, rs: seq<Repository>, i: nat, x: string)
    requires NoDuplicates(Flat(of, rs)) && i < |rs| - 1 && x in of(rs[i])
    ensures NoDuplicates(Flat(of, rs[..|rs| - 1])) && x !in of(rs[|rs| - 1])
  {
    var before, more := Flat(of, rs[..|rs| - 1]), of(rs[|rs| - 1]);
    FlatPrefix(of, rs, |rs| - 1);
    assert Flat(of, rs) == before + more;
    DistinctAppend(before, more);
    FlatHas(of, rs[..|rs| - 1], i, x);
    assert x in Elements(before);
  }

  /** An identifier used nowhere twice tells the repository it belongs to. */
  lemma {:induction false} OneOwner(of: Repository -> seq<string>, rs: seq<Repository>, i: nat, j: nat, x: string)
    requires NoDuplicates(Flat(of, rs)) && i < |rs| && j < |rs| && x in of(rs[i]) && x in of(rs[j])
    ensures i == j
  {
    var last := |rs| - 1;
    if i < last { NotAgain(of, rs, i, x); }
    if j < last { NotAgain(of, rs, j, x); }
    if i < last && j < last { OneOwner(of, rs[..last], i, j, x); }
  }

  /** In an admitted pilot no baseline ever runs in a store or namespace that a treatment runs in, be it
      of the same pair or another, and pairs share a store exactly when they share the repository. Apart
      from that all arms are alike: one model, version and prompt budget, one agent in both arms of a pair,
      and the qualified treatment, in an environment of its own and within the bound on memories. */
  lemma {:induction false} ArmsNeverMix(m: Manifest, p: Pair, q: Pair)
    requires Isolated(m) && PairOk(m, p) && PairOk(m, q)
    ensures p.baseline.store != q.treatment.common.store && p.baseline.namespace != q.treatment.common.namespace
    ensures p.repository == q.repository <==> p.baseline.store == q.baseline.store
    ensures p.repository == q.repository <==> p.treatment.common.store == q.treatment.common.store
    ensures p.repository == q.repository <==> p.baseline.namespace == q.baseline.namespace
    ensures p.repository == q.repository <==> p.treatment.common.namespace == q.treatment.common.namespace
    ensures p.baseline.execution == q.baseline.execution == q.treatment.common.execution == m.execution
    ensures p.treatment.armId == q.treatment.armId == m.qualifiedArm
    ensures p.baseline.agent == p.treatment.common.agent && p.baseline.environment != p.treatment.common.environment
    ensures p.treatment.rowsBefore <= m.maxActiveMemories && p.treatment.rowsAfter <= m.maxActiveMemories
  {
    var rs := m.repositories;
    var i :| 0 <= i < |rs| && PlannedIn(rs[i], p);
    var j :| 0 <= j < |rs| && PlannedIn(rs[j], q);
    assert RepositoryOk(rs[i], m.runs);
    SameOwner(NAME, rs, i, j);
    SameOwner(STORES, rs, i, j);
    SameOwner(NAMESPACES, rs, i, j);
    assert NAME(rs[i])[0] == p.repository && NAME(rs[j])[0] == q.repository;
    assert p.baseline.store == STORES(rs[i])[0] && p.treatment.common.store == STORES(rs[i])[1];
    assert q.baseline.store == STORES(rs[j])[0] && q.treatment.common.store == STORES(rs[j])[1];
    assert p.baseline.namespace == NAMESPACES(rs[i])[0] && p.treatment.common.namespace == NAMESPACES(rs[i])[1];
    assert q.baseline.namespace == NAMESPACES(rs[j])[0] && q.treatment.common.namespace == NAMESPACES(rs[j])[1];
  }

  lemma {:induction false} SameOwner(of: Repository -> seq<string>, rs: seq<Repository>, i: nat, j: nat)
    requires NoDuplicates(Flat(of, rs)) && i < |rs| && j < |rs|
    ensures i != j ==> forall a, b :: 0 <= a < |of(rs[i])| && 0 <= b < |of(rs[j])| ==> of(rs[i])[a] != of(rs[j])[b]
  {
    forall a, b | i != j && 0 <= a < |of(rs[i])| && 0 <= b < |of(rs[j])| ensures of(rs[i])[a] != of(rs[j])[b] {
      if of(rs[i])[a] == of(rs[j])[b] { OneOwner(of, rs, i, j, of(rs[i])[a]); }
    }
  }

  /** The orders in which a plan runs its arms. */
  ghost function Orders(plan: seq<Plan>): multiset<ArmOrder> {
    multiset(seq(|plan|, i requires 0 <= i < |plan| => plan[i].armOrder))
  }

  /** A plan is balanced exactly when neither order is used more than once oftener than the other. */
  lemma {:induction false} BalancedExactlyWhen(plan: seq<Plan>)
    ensures Balanced(plan) <==>
              && Orders(plan)[BaselineFirst] <= Orders(plan)[TreatmentFirst] + 1
              && Orders(plan)[TreatmentFirst] <= Orders(plan)[BaselineFirst] + 1
  {
    OrdersCount(plan);
  }

  lemma {:induction false} OrdersCount(plan: seq<Plan>)
    ensures BaselineFirstCount(plan) == Orders(plan)[BaselineFirst]
    ensures |plan| == Orders(plan)[BaselineFirst] + Orders(plan)[TreatmentFirst]
  {
    if plan != [] {
      var rest := plan[1..];
      OrdersCount(rest);
      var all := seq(|plan|, i requires 0 <= i < |plan| => plan[i].armOrder);
      var others := seq(|rest|, i requires 0 <= i < |rest| => rest[i].armOrder);
      assert all == [plan[0].armOrder] + others;
      assert multiset(all) == multiset{plan[0].armOrder} + multiset(others);
    }
  }

  // ------------------------------------------------------------- the schedule

  /** Later slots of the same repository. */
  function LaterSlots(slots: seq<Slot>, repository: string, after: Time): seq<Time> {
    if slots == [] then []
    else
      var s := slots[|slots| - 1];
      LaterSlots(slots[..|slots| - 1], repository, after)
      + (if s.repository == repository && s.scheduled > after then [s.scheduled] else [])
  }

  function Least(first: Time, rest: seq<Time>): Time {
    if rest == [] then first else
    var least := Least(first, rest[..|rest| - 1]);
    if rest[|rest| - 1] < least then rest[|rest| - 1] else least
  }

  /** A window ends where the repository's next slot begins, or with the pilot. */
  function WindowEnd(m: Manifest, slots: seq<Slot>, slot: Slot, repository: string): Time {
    Least(m.end, LaterSlots(slots, repository, slot.scheduled))
  }

  lemma {:induction false} WindowEndsByNextSlot(slots: seq<Slot>, repository: string, after: Time, first: Time, k: nat)
    requires k < |slots| && slots[k].repository == repository && slots[k].scheduled > after
    ensures Least(first, LaterSlots(slots, repository, after)) <= slots[k].scheduled
  {
    var front, last := slots[..|slots| - 1], slots[|slots| - 1];
    var earlier := LaterSlots(front, repository, after);
    if k < |slots| - 1 { WindowEndsByNextSlot(front, repository, after, first, k); }
    if last.repository == repository && last.scheduled > after {
      assert LaterSlots(slots, repository, after) == earlier + [last.scheduled];
      assert (earlier + [last.scheduled])[..|earlier|] == earlier;
    } else {
      assert LaterSlots(slots, repository, after) == earlier;
    }
  }

  lemma {:induction false} LeastIs(first: Time, rest: seq<Time>)
    ensures var least := Least(first, rest);
            && least <= first && (least == first || least in rest)
            && forall x :: x in rest ==> least <= x
  {
    if rest != [] {
      assert rest == rest[..|rest| - 1] + [rest[|rest| - 1]];
      LeastIs(first, rest[..|rest| - 1]);
    }
  }

  /** A later slot of the repository, that begins at `at`. */
  ghost predicate BeginsAt(slots: seq<Slot>, repository: string, after: Time, at: Time) {
    at > after && exists k :: 0 <= k < |slots| && slots[k].repository == repository && slots[k].scheduled == at
  }

  lemma {:induction false} LaterSlotsAre(slots: seq<Slot>, repository: string, after: Time, at: Time)
    ensures at in LaterSlots(slots, repository, after) <==> BeginsAt(slots, repository, after, at)
  {
    if slots != [] {
      var front, last := slots[..|slots| - 1], slots[|slots| - 1];
      LaterSlotsAre(front, repository, after, at);
      if BeginsAt(front, repository, after, at) {
        var k :| 0 <= k < |front| && front[k].repository == repository && front[k].scheduled == at;
        assert slots[k] == front[k];
      }
      if BeginsAt(slots, repository, after, at) {
        var k :| 0 <= k < |slots| && slots[k].repository == repository && slots[k].scheduled == at;
        if k < |front| { assert front[k] == slots[k]; }
      }
    }
  }

  /** An observation is in its window exactly when the pilot is not over and no later slot of the
      repository has begun. */
  lemma {:induction false} InWindowExactlyWhen(m: Manifest, slots: seq<Slot>, slot: Slot, repository: string, at: Time)
    ensures at < WindowEnd(m, slots, slot, repository) <==>
              && at < m.end
              && (forall k :: 0 <= k < |slots| && slots[k].repository == repository ==>
                    slots[k].scheduled <= slot.scheduled || at < slots[k].scheduled)
  {
    var later := LaterSlots(slots, repository, slot.scheduled);
    LeastIs(m.end, later);
    LaterSlotsAre(slots, repository, slot.scheduled, Least(m.end, later));
    forall k | 0 <= k < |slots| && slots[k].repository == repository && slots[k].scheduled > slot.scheduled
      ensures slots[k].scheduled in later
    {
      LaterSlotsAre(slots, repository, slot.scheduled, slots[k].scheduled);
    }
  }

  predicate OnSchedule(m: Manifest, slots: seq<Slot>, p: Pair, k: nat)
    requires k < |slots|
  {
    && slots[k].scheduled <= p.observedAt < WindowEnd(m, slots, slots[k], p.repository)
    && p.treatment.surface == slots[k].surface
    && p.baseline.contestedOpportunities == slots[k].contestedOpportunities == p.treatment.common.contestedOpportunities
    && p.baseline.multiOpportunities == slots[k].multiOpportunities == p.treatment.common.multiOpportunities
  }

  /** Where a pair's scenario is scheduled. */
  ghost predicate SlotOf(slots: seq<Slot>, p: Pair, k: int) {
    0 <= k < |slots| && slots[k].scenario == p.scenario && slots[k].repository == p.repository
  }

  /** The check on one pair: its scenario's slot accepts it. */
  predicate Accepted(m: Manifest, slots: seq<Slot>, p: Pair) {
    exists k :: 0 <= k < |slots| && slots[k].scenario == p.scenario && OnSchedule(m, slots, p, k)
  }

  /** Each scenario is scheduled once. */
  ghost predicate ScheduledOnce(slots: seq<Slot>) {
    forall i, j :: 0 <= i < j < |slots| ==> slots[i].scenario != slots[j].scenario
  }

  /** A slot for a scenario some repository planned, inside the pilot's period. */
  predicate SlotOk(m: Manifest, slot: Slot) {
    && m.start <= slot.scheduled < m.end
    && exists i :: 0 <= i < |m.repositories| && slot.repository == m.repositories[i].name
                   && slot.scenario in ScenarioIds(m.repositories[i].plan)
  }

  /** The repository announced opportunities of both kinds. */
  predicate Covered(slots: seq<Slot>, name: string) {
    && (exists k :: 0 <= k < |slots| && slots[k].repository == name && slots[k].contestedOpportunities > 0)
    && (exists k :: 0 <= k < |slots| && slots[k].repository == name && slots[k].multiOpportunities > 0)
  }

  ghost predicate SlotsOk(m: Manifest, slots: seq<Slot>) {
    forall k :: 0 <= k < |slots| ==> SlotOk(m, slots[k])
  }

  ghost predicate AllCovered(m: Manifest, slots: seq<Slot>) {
    forall i :: 0 <= i < |m.repositories| ==> Covered(slots, m.repositories[i].name)
  }

  /** Every planned scenario has exactly one slot, with the repository that planned it. */
  ghost predicate ScheduleOk(m: Manifest, slots: seq<Slot>) {
    && |slots| == |Flat(SCENARIOS, m.repositories)|
    && ScheduledOnce(slots) && SlotsOk(m, slots) && AllCovered(m, slots)
  }

  method ValidateSnapshots(m: Manifest, slots: seq<Slot>) returns (ok: bool)
    ensures ok <==> ScheduleOk(m, slots)
  {
    if |slots| != |Flat(SCENARIOS, m.repositories)| {
      return false;
    }
    ok := CheckSlots(m, slots);
    if !ok { return; }
    ok := CheckCoverage(m, slots);
  }

  /** The first `k` slots are of distinct scenarios, which are exactly those seen. */
  ghost predicate DistinctSoFar(slots: seq<Slot>, k: nat, seen: set<string>)
    requires k <= |slots|
  {
    && ScheduledOnce(slots[..k])
    && (forall j :: 0 <= j < k ==> slots[j].scenario in seen)
    && (forall x :: x in seen ==> exists j :: 0 <= j < k && slots[j].scenario == x)
  }

  lemma TrackSlot(slots: seq<Slot>, k: nat, seen: set<string>)
    requires k < |slots| && DistinctSoFar(slots, k, seen)
    ensures slots[k].scenario in seen ==> !ScheduledOnce(slots)
    ensures slots[k].scenario !in seen ==> DistinctSoFar(slots, k + 1, seen + {slots[k].scenario})
  {
    if slots[k].scenario !in seen {
      forall x | x in seen + {slots[k].scenario} ensures exists j :: 0 <= j < k + 1 && slots[j].scenario == x {
        if x == slots[k].scenario { assert slots[k].scenario == x; }
      }
    }
  }

  method CheckSlots(m: Manifest, slots: seq<Slot>) returns (ok: bool)
    ensures ok <==> ScheduledOnce(slots) && SlotsOk(m, slots)
  {
    var seen: set<string> := {};
    for k := 0 to |slots|
      invariant SlotsOk(m, slots[..k]) && DistinctSoFar(slots, k, seen)
    {
      TrackSlot(slots, k, seen);
      var valid := SlotOk(m, slots[k]);
      if slots[k].scenario in seen || !valid {
        return false;
      }
      seen := seen + {slots[k].scenario};
    }
    assert slots[..|slots|] == slots;
    ok := true;
  }

  method CheckCoverage(m: Manifest, slots: seq<Slot>) returns (ok: bool)
    ensures ok <==> AllCovered(m, slots)
  {
    for i := 0 to |m.repositories|
      invariant forall j :: 0 <= j < i ==> Covered(slots, m.repositories[j].name)
    {
      var covered := Covered(slots, m.repositories[i].name);
      if !covered {
        return false;
      }
    }
    ok := true;
  }

  method ValidateScheduledPairs(m: Manifest, slots: seq<Slot>, pairs: seq<Pair>) returns (ok: bool)
    requires ScheduledOnce(slots)
    requires forall i :: 0 <= i < |pairs| ==> exists k :: 0 <= k < |slots| && slots[k].scenario == pairs[i].scenario
    ensures ok <==> forall i :: 0 <= i < |pairs| ==> Accepted(m, slots, pairs[i])
  {
    var byScenario: map<string, nat> := map[];
    for k := 0 to |slots|
      invariant forall j :: 0 <= j < k ==> slots[j].scenario in byScenario && byScenario[slots[j].scenario] == j
    {
      byScenario := byScenario[slots[k].scenario := k];
    }
    for i := 0 to |pairs|
      invariant forall j :: 0 <= j < i ==> Accepted(m, slots, pairs[j])
    {
      ghost var at :| 0 <= at < |slots| && slots[at].scenario == pairs[i].scenario;
      var k := byScenario[pairs[i].scenario];
      assert k == at;
      if !OnSchedule(m, slots, pairs[i], k) {
        return false;
      }
    }
    ok := true;
  }

  /** Windows of one repository do not overlap, so observations happen in the order of their slots. */
  lemma {:induction false} ObservationsFollowSchedule(m: Manifest, slots: seq<Slot>, p: Pair, q: Pair, i: nat, j: nat)
    requires SlotOf(slots, p, i) && SlotOf(slots, q, j) && p.repository == q.repository
    requires OnSchedule(m, slots, p, i) && OnSchedule(m, slots, q, j)
    ensures slots[i].scheduled < slots[j].scheduled ==> p.observedAt < q.observedAt
    ensures slots[i].scheduled != slots[j].scheduled ==> p.observedAt != q.observedAt
  {
    if slots[i].scheduled < slots[j].scheduled {
      WindowEndsByNextSlot(slots, p.repository, slots[i].scheduled, m.end, j);
    }
    if slots[j].scheduled < slots[i].scheduled {
      WindowEndsByNextSlot(slots, q.repository, slots[j].scheduled, m.end, i);
    }
  }
}
