/**
 One review pass: every queued item's action is derived by policy, applied while other writers go
 on, and counted (crates/rb-daemon/src/server.rs:1702-1799; crates/rb-types/src/review.rs:165-190).
 */
module ReviewSweep {
  import opened Common
  import opened ReviewActions

  datatype Policy = AutoMergeDups | DemoteLowConfidence

  datatype Member = Member(id: MemoryId, curated: bool)

  datatype Item = Item(key: string, reason: Reason, members: seq<Member>)

  // ------------------------------------------------------------------ planning

  /** The action a policy takes on an item; anything with a curated member is left alone. */
  function PlanAction(policy: Policy, item: Item): Option<Action> {
    if exists i :: 0 <= i < |item.members| && item.members[i].curated then None
    else if policy.AutoMergeDups? && item.reason.NearDuplicate? && |item.members| == 2 then Some(Merge)
    else if policy.DemoteLowConfidence? && item.reason.LowConfidence? && item.members != []
    then Some(Demote(item.members[0].id))
    else None
  }

  function Ids(members: seq<Member>): seq<MemoryId> {
    Mapped((m: Member) => m.id, members)
  }

  /** What a dry run shows for a queue. */
  function DryRun(policy: Policy, items: seq<Item>): seq<(string, Action)> {
    if items == [] then []
    else
      var last := items[|items| - 1];
      var plan := PlanAction(policy, last);
      DryRun(policy, items[..|items| - 1]) + (if plan.Some? then [(last.key, plan.value)] else [])
  }

  lemma {:induction false} DryRunPrefix(policy: Policy, items: seq<Item>, n: nat)
    requires n <= |items|
    ensures DryRun(policy, items[..n]) <= DryRun(policy, items)
  {
    if n < |items| {
      var front := items[..|items| - 1];
      DryRunPrefix(policy, front, n);
      assert front[..n] == items[..n];
    } else {
      assert items[..n] == items;
    }
  }

  ghost predicate Uncurated(item: Item) {
    forall i :: 0 <= i < |item.members| ==> !item.members[i].curated
  }

  /** A policy plans a merge exactly for a near-duplicate pair, or a demotion exactly for the first member of
      a low-confidence item, and only if no member was curated; the plan is one that can be applied
      exactly when a pair is of two memories and a demotion's item has at most two. */
  lemma {:induction false} PlansExactlyWhen(policy: Policy, item: Item, action: Action)
    ensures PlanAction(policy, item) == Some(action) <==>
              && Uncurated(item)
              && match policy {
                   case AutoMergeDups => item.reason.NearDuplicate? && |item.members| == 2 && action.Merge?
                   case DemoteLowConfidence =>
                     item.reason.LowConfidence? && item.members != [] && action == Demote(item.members[0].id)
                 }
    ensures PlanAction(policy, item) == Some(action) ==>
              (ValidAction(item.reason, Ids(item.members), action) <==>
                 if action.Merge? then item.members[0].id != item.members[1].id else |item.members| <= 2)
  {
    if action.Demote? && item.members != [] { assert Ids(item.members)[0] == item.members[0].id; }
  }

  // ------------------------------------------------------------------ the pass

  datatype Verdict = NotPlanned | Applied(action: Action) | WentStale | Failed(error: Error)

  /** What a pass meets; `closing` is what others do before the run itself is recorded. */
  datatype Sweep = Sweep(policy: Policy, namespace: string, threshold: real, items: seq<Item>,
                         occasions: nat -> Occasion, closing: Store -> Store)

  function VerdictOf(action: Action, r: Result<(), Error>): Verdict {
    match r
    case Ok(_) => Applied(action)
    case Err(StalePlan) => WentStale
    case Err(e) => Failed(e)
  }

  /** One item of the pass. */
  function Step(w: Sweep, s: Store, k: nat): (seq<Act>, Verdict)
    requires k < |w.items|
  {
    var item, plan := w.items[k], PlanAction(w.policy, w.items[k]);
    if plan.None? then ([], NotPlanned)
    else
      var (acts, r) := ApplyAction(s, w.occasions(k), w.namespace, item.reason, Ids(item.members), plan.value,
                                   w.threshold, false);
      (acts, VerdictOf(plan.value, r))
  }

  ghost predicate StepAt(w: Sweep, trace: seq<Store>, verdicts: seq<Verdict>, k: nat)
    requires k < |verdicts| <= |w.items| && k + 1 < |trace|
  {
    var (acts, verdict) := Step(w, trace[k], k);
    trace[k + 1] == Latest(trace[k], acts) && verdicts[k] == verdict
  }

  /** A pass so far: the stores between items and what became of each; only the last can have failed. */
  ghost predicate IsPass(w: Sweep, trace: seq<Store>, verdicts: seq<Verdict>) {
    && |trace| == |verdicts| + 1 && |verdicts| <= |w.items|
    && (forall k: nat :: k < |verdicts| ==> StepAt(w, trace, verdicts, k))
    && (forall k: nat :: k < |verdicts| - 1 ==> !verdicts[k].Failed?)
  }

  ghost predicate Stopped(verdicts: seq<Verdict>) {
    verdicts != [] && verdicts[|verdicts| - 1].Failed?
  }

  datatype Outcome = Outcome(merged: nat, archived: nat, demoted: nat, kept: nat, snoozed: nat, skipped: nat)

  function Count(c: Outcome, v: Verdict): Outcome {
    match v
    case NotPlanned => c.(skipped := c.skipped + 1)
    case WentStale => c.(skipped := c.skipped + 1)
    case Failed(_) => c
    case Applied(action) =>
      match action
      case Keep(_) => c.(kept := c.kept + 1)
      case Merge => c.(merged := c.merged + 1)
      case Archive(_) => c.(archived := c.archived + 1)
      case Demote(_) => c.(demoted := c.demoted + 1)
      case Snooze(_) => c.(snoozed := c.snoozed + 1)
  }

  function Tally(verdicts: seq<Verdict>): Outcome {
    if verdicts == [] then Outcome(0, 0, 0, 0, 0, 0)
    else Count(Tally(verdicts[..|verdicts| - 1]), verdicts[|verdicts| - 1])
  }

  function Sum(c: Outcome): nat {
    c.merged + c.archived + c.demoted + c.kept + c.snoozed + c.skipped
  }

  /** Items that ended so. */
  ghost function Ended(verdicts: seq<Verdict>, kind: Verdict -> bool): set<nat> {
    set k: nat | k < |verdicts| && kind(verdicts[k])
  }

  ghost predicate CountsSay(verdicts: seq<Verdict>, c: Outcome) {
    && c.merged == |Ended(verdicts, (v: Verdict) => v == Applied(Merge))|
    && c.archived == |Ended(verdicts, (v: Verdict) => v.Applied? && v.action.Archive?)|
    && c.demoted == |Ended(verdicts, (v: Verdict) => v.Applied? && v.action.Demote?)|
    && c.kept == |Ended(verdicts, (v: Verdict) => v.Applied? && v.action.Keep?)|
    && c.snoozed == |Ended(verdicts, (v: Verdict) => v.Applied? && v.action.Snooze?)|
    && c.skipped == |Ended(verdicts, (v: Verdict) => v.NotPlanned? || v.WentStale?)|
  }

  lemma {:induction false} EndedNext(verdicts: seq<Verdict>, kind: Verdict -> bool)
    requires verdicts != []
    ensures |Ended(verdicts, kind)|
         == |Ended(verdicts[..|verdicts| - 1], kind)| + if kind(verdicts[|verdicts| - 1]) then 1 else 0
  {
    var n := |verdicts| - 1;
    var before := Ended(verdicts[..n], kind);
    assert n !in before;
    assert Ended(verdicts, kind) == if kind(verdicts[n]) then before + {n} else before;
  }

  /** Each counter is the number of items that ended its way. */
  lemma {:induction false} CountersAre(verdicts: seq<Verdict>)
    ensures CountsSay(verdicts, Tally(verdicts))
  {
    if verdicts != [] {
      CountersAre(verdicts[..|verdicts| - 1]);
      EndedNext(verdicts, (v: Verdict) => v == Applied(Merge));
      EndedNext(verdicts, (v: Verdict) => v.Applied? && v.action.Archive?);
      EndedNext(verdicts, (v: Verdict) => v.Applied? && v.action.Demote?);
      EndedNext(verdicts, (v: Verdict) => v.Applied? && v.action.Keep?);
      EndedNext(verdicts, (v: Verdict) => v.Applied? && v.action.Snooze?);
      EndedNext(verdicts, (v: Verdict) => v.NotPlanned? || v.WentStale?);
    }
  }

  /** Every item that did not fail is counted once. */
  lemma {:induction false} TallySum(verdicts: seq<Verdict>)
    requires forall k: nat :: k < |verdicts| - 1 ==> !verdicts[k].Failed?
    ensures Sum(Tally(verdicts)) == if Stopped(verdicts) then |verdicts| - 1 else |verdicts|
  {
    if verdicts != [] { TallySum(verdicts[..|verdicts| - 1]); }
  }

  /** The counters add up to the queue's length exactly when no real error stopped the pass; else to
      the index of the item that failed. */
  lemma {:induction false} CountersConserveItems(w: Sweep, trace: seq<Store>, verdicts: seq<Verdict>)
    requires IsPass(w, trace, verdicts) && (Stopped(verdicts) || |verdicts| == |w.items|)
    ensures Sum(Tally(verdicts)) == |w.items| <==> !Stopped(verdicts)
    ensures Stopped(verdicts) ==> Sum(Tally(verdicts)) == |verdicts| - 1
  {
    TallySum(verdicts);
  }

  /** Only a real error stops a pass: an item is skipped exactly when nothing was planned for it or its
      action ended as stale, and any other error is the one the pass reports. */
  lemma {:induction false} OnlyRealErrorsStop(w: Sweep, trace: seq<Store>, verdicts: seq<Verdict>, k: nat)
    requires IsPass(w, trace, verdicts) && k < |verdicts|
    ensures var item, plan := w.items[k], PlanAction(w.policy, w.items[k]);
            && (verdicts[k].NotPlanned? <==> plan.None?)
            && (plan.Some? ==>
                  var r := ApplyAction(trace[k], w.occasions(k), w.namespace, item.reason, Ids(item.members),
                                       plan.value, w.threshold, false).1;
                  && (verdicts[k] == Applied(plan.value) <==> r.Ok?)
                  && (verdicts[k].WentStale? <==> r == Err(StalePlan))
                  && (forall e :: verdicts[k] == Failed(e) <==> r == Err(e) && e != StalePlan))
            && (k + 1 < |verdicts| ==> !verdicts[k].Failed?)
  {
    assert StepAt(w, trace, verdicts, k);
  }

  // -------------------------------------------------------- what a pass keeps

  /** Whatever a policy does, and whatever others do meanwhile: no call of it clears a pointer or touches
      a curated row. */
  lemma {:induction false} StepKeeps(w: Sweep, s: Store, k: nat)
    requires k < |w.items|
    ensures var acts := Step(w, s, k).0;
            && IsTrail(w.occasions(k), w.namespace, s, acts)
            && forall i :: 0 <= i < |acts| ==>
                 KeepsClaims(acts[i].met, acts[i].left) && KeepsCurated(acts[i].met, acts[i].left)
  {
    var item, o := w.items[k], w.occasions(k);
    var plan, acts := PlanAction(w.policy, item), Step(w, s, k).0;
    if plan.Some? {
      ActionIsProper(s, o, w.namespace, item.reason, Ids(item.members), plan.value, w.threshold, false);
    }
    forall i | 0 <= i < |acts|
      ensures KeepsClaims(acts[i].met, acts[i].left) && KeepsCurated(acts[i].met, acts[i].left)
    {
      assert ActAt(o, w.namespace, s, acts, i);
      if acts[i].left != acts[i].met { CommitKeeps(acts[i].met, o, w.namespace, acts[i].command.value); }
    }
  }

  /** A merge that was applied took rows nobody had claimed, and claimed them, in its last call. */
  lemma {:induction false} MergeClaims(w: Sweep, s: Store, k: nat, id: MemoryId)
    requires k < |w.items| && Step(w, s, k).1 == Applied(Merge) && id in Ids(w.items[k].members)
    ensures var acts := Step(w, s, k).0;
            && acts != [] && !Retired(acts[|acts| - 1].met, id)
            && var t := acts[|acts| - 1].left;
               id in t.rows && t.rows[id].archived && t.rows[id].supersededBy == Some(w.occasions(k).newId)
  {
    var item, ids := w.items[k], Ids(w.items[k].members);
    MergeIsAtomic(s, w.occasions(k), w.namespace, item.reason, ids, w.threshold, false);
    assert id == ids[0] || id == ids[1];
  }

  /** The memory cannot be merged any more: gone, archived or superseded. */
  predicate Retired(s: Store, id: MemoryId) {
    id !in s.rows || s.rows[id].archived || s.rows[id].supersededBy.Some?
  }

  /** Nobody else revives or re-creates the memory while the pass runs. A purge may well delete it, or
      clear its pointer; it stays archived then. */
  ghost predicate StaysRetired(w: Sweep, id: MemoryId) {
    && (forall k: nat, n: nat, s :: Retired(s, id) ==> Retired(w.occasions(k).others(n, s), id))
    && (forall k: nat :: w.occasions(k).newId != id)
  }

  lemma {:induction false} CommitKeepsRetired(s: Store, o: Occasion, namespace: string, c: WriteCommand, id: MemoryId)
    requires Retired(s, id) && o.newId != id
    ensures Retired(Commit(s, o, namespace, c).0, id)
  {
  }

  lemma {:induction false} TrailKeepsRetired(w: Sweep, k: nat, s: Store, acts: seq<Act>, i: nat, id: MemoryId)
    requires IsTrail(w.occasions(k), w.namespace, s, acts) && StaysRetired(w, id) && Retired(s, id) && i < |acts|
    ensures Retired(acts[i].met, id) && Retired(acts[i].left, id)
  {
    if i > 0 { TrailKeepsRetired(w, k, s, acts, i - 1, id); }
    assert ActAt(w.occasions(k), w.namespace, s, acts, i);
    if acts[i].left != acts[i].met {
      CommitKeepsRetired(acts[i].met, w.occasions(k), w.namespace, acts[i].command.value, id);
    }
  }

  lemma {:induction false} RetiredLasts(w: Sweep, trace: seq<Store>, verdicts: seq<Verdict>, i: nat, j: nat,
                                        id: MemoryId)
    requires IsPass(w, trace, verdicts) && i <= j < |trace| && StaysRetired(w, id) && Retired(trace[i], id)
    ensures Retired(trace[j], id)
    decreases j
  {
    if i < j {
      RetiredLasts(w, trace, verdicts, i, j - 1, id);
      assert StepAt(w, trace, verdicts, j - 1);
      StepKeepsRetired(w, trace[j - 1], j - 1, id);
    }
  }

  lemma {:induction false} StepKeepsRetired(w: Sweep, s: Store, k: nat, id: MemoryId)
    requires k < |w.items| && StaysRetired(w, id) && Retired(s, id)
    ensures Retired(Latest(s, Step(w, s, k).0), id)
    ensures forall i :: 0 <= i < |Step(w, s, k).0| ==> Retired(Step(w, s, k).0[i].met, id)
  {
    var acts := Step(w, s, k).0;
    StepKeeps(w, s, k);
    forall i | 0 <= i < |acts| ensures Retired(acts[i].met, id) && Retired(acts[i].left, id) {
      TrailKeepsRetired(w, k, s, acts, i, id);
    }
  }

  /** No memory is merged twice in a pass, whatever else other writers do to it. */
  lemma {:induction false} NoDoubleMerge(w: Sweep, trace: seq<Store>, verdicts: seq<Verdict>, i: nat, j: nat,
                                         id: MemoryId)
    requires IsPass(w, trace, verdicts) && i < j < |verdicts| && StaysRetired(w, id)
    requires verdicts[i] == Applied(Merge) && verdicts[j] == Applied(Merge)
    ensures id !in Ids(w.items[i].members) || id !in Ids(w.items[j].members)
  {
    if id in Ids(w.items[i].members) && id in Ids(w.items[j].members) {
      MergedAt(w, trace, verdicts, i, id);
      RetiredLasts(w, trace, verdicts, i + 1, j, id);
      MergedAt(w, trace, verdicts, j, id);
    }
  }

  lemma {:induction false} MergedAt(w: Sweep, trace: seq<Store>, verdicts: seq<Verdict>, k: nat, id: MemoryId)
    requires IsPass(w, trace, verdicts) && k < |verdicts| && verdicts[k] == Applied(Merge) && StaysRetired(w, id)
    requires id in Ids(w.items[k].members)
    ensures !Retired(trace[k], id) && Retired(trace[k + 1], id)
  {
    assert StepAt(w, trace, verdicts, k);
    MergeMeets(w, trace[k], k, id);
  }

  /** What an applied merge retires had not been retired before the item. */
  lemma {:induction false} MergeMeets(w: Sweep, s: Store, k: nat, id: MemoryId)
    requires k < |w.items| && Step(w, s, k).1 == Applied(Merge) && StaysRetired(w, id)
    requires id in Ids(w.items[k].members)
    ensures !Retired(s, id) && Retired(Latest(s, Step(w, s, k).0), id)
  {
    MergeClaims(w, s, k, id);
    if Retired(s, id) { StepKeepsRetired(w, s, k, id); }
  }

  // ------------------------------------------------------------ implementation

  /** One item of the plan. */
  method ReviewItem(b: ReviewStore, w: Sweep, k: nat, plan: Option<Action>)
    returns (verdict: Verdict, ghost acts: seq<Act>)
    requires k < |w.items| && plan == PlanAction(w.policy, w.items[k])
    modifies b
    ensures (acts, verdict) == Step(w, old(b.Contents()), k) && b.Contents() == Latest(old(b.Contents()), acts)
    ensures verdict.Applied? ==> verdict.action.Merge? || verdict.action.Demote?
  {
    if plan.None? {
      return NotPlanned, [];
    }
    var item := w.items[k];
    var r;
    r, acts := ApplyReviewAction(b, w.occasions(k), w.namespace, item.reason, Ids(item.members), plan.value,
                                 w.threshold, false);
    if r.Err? && r.error.StalePlan? {
      return WentStale, acts;
    }
    verdict := if r.Err? then Failed(r.error) else Applied(plan.value);
  }

  /** Count an item that did not fail. */
  method CountVerdict(outcome: Outcome, verdict: Verdict) returns (c: Outcome)
    requires !verdict.Failed?
    ensures c == Count(outcome, verdict)
  {
    if verdict.NotPlanned? || verdict.WentStale? {
      return outcome.(skipped := outcome.skipped + 1);
    }
    match verdict.action {
      case Keep(_) => c := outcome.(kept := outcome.kept + 1);
      case Merge => c := outcome.(merged := outcome.merged + 1);
      case Archive(_) => c := outcome.(archived := outcome.archived + 1);
      case Demote(_) => c := outcome.(demoted := outcome.demoted + 1);
      case Snooze(_) => c := outcome.(snoozed := outcome.snoozed + 1);
    }
  }

  /** Execute a plan: apply every planned action, skip stale ones, stop at a real error, then record
      the run, which may fail too. `attempted` lists the actions that were applied or tried. */
  method ExecuteReviewPlan(b: ReviewStore, w: Sweep, recordFails: bool)
    returns (outcome: Outcome, failure: Option<Error>, reported: bool, attempted: seq<(string, Action)>,
             ghost trace: seq<Store>, ghost verdicts: seq<Verdict>)
    modifies b
    ensures IsPass(w, trace, verdicts) && trace[0] == old(b.Contents())
    ensures var end := w.closing(trace[|verdicts|]);
            b.Contents() == if recordFails then end else end.(audit := end.audit + [SweepRun])
    ensures failure.Some? <==> Stopped(verdicts)
    ensures reported <==> Stopped(verdicts) || recordFails
    ensures failure.None? ==> |verdicts| == |w.items|
    ensures outcome == Tally(verdicts)
    ensures attempted == DryRun(w.policy, w.items[..|verdicts|])
  {
    outcome := Outcome(0, 0, 0, 0, 0, 0);
    failure, attempted, trace, verdicts := None, [], [b.Contents()], [];
    var k := 0;
    while k < |w.items| && failure.None?
      invariant 0 <= k <= |w.items| && |verdicts| == k
      invariant IsPass(w, trace, verdicts) && trace[0] == old(b.Contents()) && trace[k] == b.Contents()
      invariant failure.Some? <==> Stopped(verdicts)
      invariant outcome == Tally(verdicts)
      invariant attempted == DryRun(w.policy, w.items[..k])
      decreases |w.items| - k
    {
      var plan := PlanAction(w.policy, w.items[k]);
      ghost var acts;
      var verdict;
      verdict, acts := ReviewItem(b, w, k, plan);
      if plan.Some? {
        attempted := attempted + [(w.items[k].key, plan.value)];
      }
      if verdict.Failed? {
        failure := Some(verdict.error);
      } else {
        outcome := CountVerdict(outcome, verdict);
      }
      PassExtends(w, trace, verdicts, acts, verdict);
      assert w.items[..k + 1][..k] == w.items[..k];
      trace, verdicts := trace + [b.Contents()], verdicts + [verdict];
      k := k + 1;
    }
    b.Interfere(w.closing(b.Contents()));
    if !recordFails {
      b.audit := b.audit + [SweepRun];
    }
    reported := failure.Some? || recordFails;
  }

  lemma {:induction false} PassExtends(w: Sweep, trace: seq<Store>, verdicts: seq<Verdict>, acts: seq<Act>,
                                       v: Verdict)
    requires IsPass(w, trace, verdicts) && !Stopped(verdicts) && |verdicts| < |w.items|
    requires (acts, v) == Step(w, trace[|verdicts|], |verdicts|)
    ensures IsPass(w, trace + [Latest(trace[|verdicts|], acts)], verdicts + [v])
    ensures Tally(verdicts + [v]) == Count(Tally(verdicts), v)
  {
    var n, next := |verdicts|, Latest(trace[|verdicts|], acts);
    forall k: nat | k < n + 1 ensures StepAt(w, trace + [next], verdicts + [v], k) {
      if k < n { assert StepAt(w, trace, verdicts, k); }
    }
    assert (verdicts + [v])[..n] == verdicts;
  }
}
