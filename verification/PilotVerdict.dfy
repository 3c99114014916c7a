/**
 What the report and its verdict say, on plain totals, and what a final GO says about every single
 pair (scripts/dogfood-pilot.py:444-489, 560-562, 600-633, 799-863).
 */
module PilotVerdict {
  import opened Common
  import opened Folds
  import opened PilotPlan
  import opened PilotReport
  import opened PilotFigures
  import opened PilotRules

  // ----------------------------------------------------------------- the verdict

  ghost predicate SomeStop(g: Guards, final: bool) {
    exists r :: r in STOPS && StopFires(g, final, r)
  }

  ghost predicate SomeNoGo(m: Manifest, stats: Statistics, s: seq<Pair>) {
    exists r :: r in NoGos(m) && NoGoFires(m, stats, s, r)
  }

  lemma {:induction false} SomeKept<T(!new)>(keep: T -> bool, l: seq<T>)
    ensures Filter(keep, l) != [] <==> exists x :: x in l && keep(x)
  {
    FilterMembers(keep, l);
    if Filter(keep, l) != [] { assert Filter(keep, l)[0] in Filter(keep, l); }
  }

  ghost predicate VerdictSays(m: Manifest, stats: Statistics, s: seq<Pair>, final: bool, verdict: Verdict) {
    if SomeStop(GuardsOf(s), final) then verdict == Stop
    else if !final then verdict == Continue
    else if SomeNoGo(m, stats, s) then verdict == NoGo
    else verdict == Go
  }

  lemma {:induction false} StopIsSome(g: Guards, final: bool)
    ensures Filter(StopRule(g, final), STOPS) != [] <==> SomeStop(g, final)
  {
    SomeKept(StopRule(g, final), STOPS);
    assert forall r :: StopRule(g, final)(r) <==> StopFires(g, final, r);
  }

  lemma {:induction false} NoGoIsSome(m: Manifest, stats: Statistics, s: seq<Pair>)
    ensures Filter(NoGoRule(m, stats, s), NoGos(m)) != [] <==> SomeNoGo(m, stats, s)
  {
    SomeKept(NoGoRule(m, stats, s), NoGos(m));
    RuleFires(m, stats, s);
  }

  lemma {:induction false} RuleFires(m: Manifest, stats: Statistics, s: seq<Pair>)
    ensures forall r :: NoGoRule(m, stats, s)(r) <==> NoGoFires(m, stats, s, r)
  {
  }

  /** The verdict: STOP exactly when a safety rule fires; else CONTINUE before the end; at the end NO-GO
      exactly when a value rule fires, and GO otherwise. The reasons are the rules that fired. */
  lemma {:induction false} VerdictIs(m: Manifest, stats: Statistics, s: seq<Pair>, final: bool)
    requires s != [] && m.repositories != []
    ensures var r := ReportOf(m, stats, s, final);
            && VerdictSays(m, stats, s, final, r.verdict)
            && r.stopReasons == Filter(StopRule(GuardsOf(s), final), STOPS)
            && r.noGoReasons == if !final || SomeStop(GuardsOf(s), final) then []
                                else Filter(NoGoRule(m, stats, s), NoGos(m))
  {
    StopReasonsAre(s, final);
    NoGoReasonsAre(m, stats, s);
    StopIsSome(GuardsOf(s), final);
    NoGoIsSome(m, stats, s);
  }

  // ------------------------------------------------------------- the whole report

  ghost predicate RepositoriesSay(m: Manifest, s: seq<Pair>, repos: seq<(string, RepositoryReport)>) {
    && |repos| == |m.repositories|
    && (forall i :: 0 <= i < |repos| ==>
          repos[i].0 == m.repositories[i].name && RepositorySays(m, m.repositories[i].name, s, repos[i].1))
  }

  ghost predicate SurfacesSay(s: seq<Pair>, l: seq<SurfaceReport>) {
    |l| == 3 == |SURFACES| && forall i :: 0 <= i < |l| ==> SurfaceSays(SURFACES[i], s, l[i])
  }

  /** What could not be measured is named. */
  ghost predicate UnmeasuredSays(s: seq<Pair>, g: Guards, l: seq<Unmeasured>) {
    && (Cost in l <==> exists p :: p in s && p.treatment.cost.None?)
    && (ContestedCorrectness in l <==> !Measured(g.baseContested, g.treatContested))
    && (MultiCorrectness in l <==> !Measured(g.baseMulti, g.treatMulti))
  }

  /** Every figure of the report is what the pairs themselves record. */
  lemma {:induction false} ReportSays(m: Manifest, stats: Statistics, s: seq<Pair>, final: bool)
    requires s != [] && m.repositories != []
    ensures var r, g := ReportOf(m, stats, s, final), GuardsOf(s);
            && SafetySays(g, r.safety) && WorthSays(m, TallyOf(stats, s), r.byRepository, r.worth)
            && FactsSay(stats, s, r.facts) && RepositoriesSay(m, s, r.byRepository) && SurfacesSay(s, r.bySurface)
            && AttributionSays(s, r.byAttribution) && UnmeasuredSays(s, g, r.unmeasured)
  {
    var repos, g := ByRepository(m, m.repositories, s), GuardsOf(s);
    SafetyIs(s);
    SafetyFigures(g);
    WorthFigures(m, stats, s, repos);
    FactsAre(stats, s);
    RepositoriesAre(m, s);
    SurfacesAre(s);
    AttributionIs(s);
    UnmeasuredAre(s, g, SafetyFrom(g));
  }

  lemma {:induction false} RepositoriesAre(m: Manifest, s: seq<Pair>)
    ensures RepositoriesSay(m, s, ByRepository(m, m.repositories, s))
  {
    var repos := ByRepository(m, m.repositories, s);
    forall i | 0 <= i < |repos|
      ensures repos[i].0 == m.repositories[i].name && RepositorySays(m, m.repositories[i].name, s, repos[i].1)
    {
      RepositoryIs(m, m.repositories[i].name, s);
      assert repos[i] == RepositoryEntry(m, m.repositories[i].name, s);
    }
  }

  lemma {:induction false} SurfacesAre(s: seq<Pair>)
    ensures SurfacesSay(s, BySurface(s))
  {
    var l := BySurface(s);
    forall i | 0 <= i < |l| ensures SurfaceSays(SURFACES[i], s, l[i]) {
      SurfaceIs(SURFACES[i], s);
      assert l[i] == SurfaceReportOf(Filter(OnSurface(SURFACES[i]), s));
    }
  }

  lemma {:induction false} UnmeasuredAre(s: seq<Pair>, g: Guards, x: Safety)
    requires SafetySays(g, x)
    ensures UnmeasuredSays(s, g, UnmeasuredIn(AllCosted(s), x))
  {
  }

  // -------------------------------------------------------------------------- GO

  /** Measured in both arms, and the treatment at most one percentage point below the baseline. */
  predicate Holds(base: Score, treated: Score) {
    && base.of > 0 && treated.of > 0
    && 100 * (base.correct * treated.of - treated.correct * base.of) <= base.of * treated.of
  }

  predicate FullyLabeled(labels: Score) {
    0 < labels.of <= labels.correct
  }

  predicate SafeBounds(g: Guards) {
    && g.errors <= 0
    && Holds(g.baseContested, g.treatContested) && Holds(g.baseMulti, g.treatMulti)
    && FullyLabeled(g.provenance) && FullyLabeled(g.contested)
  }

  /** Four fifths of the judged injections helped and no tenth was wrong, or stale; the treatment lost at
      most one task in a hundred and needed at most one correction more; it saved turns or time and cost
      neither; and recovery, backup and retention were exercised without a failure. */
  predicate ValueBounds(t: Tally) {
    HelpBounds(t) && EffortBounds(t) && CareBounds(t)
  }

  ghost predicate EveryRepository(m: Manifest, s: seq<Pair>) {
    forall i :: 0 <= i < |m.repositories| ==>
      UsefulInTime(m, s, m.repositories[i].name) && BacklogHeld(s, m.repositories[i].name)
  }

  lemma {:induction false} NoStopExactlyWhen(g: Guards)
    requires Counted(g)
    ensures !SomeStop(g, true) <==> SafeBounds(g)
  {
    if !SomeStop(g, true) {
      assert MemoryInducedError in STOPS && ContestedUnmeasured in STOPS && ContestedRegressed in STOPS;
      assert MultiUnmeasured in STOPS && MultiRegressed in STOPS && ProvenanceUnlabeled in STOPS;
      assert ContestedUnlabeled in STOPS;
      HoldsWhen(g.baseContested, g.treatContested);
      HoldsWhen(g.baseMulti, g.treatMulti);
    }
  }

  lemma {:induction false} HoldsWhen(base: Score, treated: Score)
    requires base.of >= 0 && treated.of >= 0
    ensures Holds(base, treated) <==> Measured(base, treated) && !Regressed(base, treated)
  {
  }

  ghost predicate SomeValue(t: Tally, l: seq<Reason>) {
    exists r :: r in l && ValueFires(t, r)
  }

  predicate HelpBounds(t: Tally) {
    Rated(t) != 0 && 5 * t.helpful >= 4 * Rated(t) && 10 * t.wrong <= Rated(t) && 10 * t.stale <= Rated(t)
  }

  lemma {:induction false} NoHelpExactlyWhen(t: Tally)
    ensures !SomeValue(t, HELP_RULES) <==> HelpBounds(t)
  {
    var l := HELP_RULES;
    if !SomeValue(t, l) {
      assert HelpfulUnmeasured in l && HelpfulLow in l && WrongHigh in l && StaleHigh in l;
    }
  }

  predicate EffortBounds(t: Tally) {
    && 100 * (t.baseSucceeded - t.treatSucceeded) <= t.pairs && 100 * (t.treatCorrected - t.baseCorrected) <= t.pairs
    && t.turns >= 0.0 && t.seconds >= 0.0 && (t.turns > 0.0 || t.seconds > 0.0) && t.exact >= 1
  }

  lemma {:induction false} NoEffortExactlyWhen(t: Tally)
    ensures !SomeValue(t, EFFORT_RULES) <==> EffortBounds(t)
  {
    if !SomeValue(t, EFFORT_RULES) {
      NoEffortRuleFires(t, 0);
      NoEffortRuleFires(t, 1);
      NoEffortRuleFires(t, 2);
      NoEffortRuleFires(t, 3);
      NoEffortRuleFires(t, 4);
      NoEffortRuleFires(t, 5);
    } else {
      var r :| r in EFFORT_RULES && ValueFires(t, r);
      EffortRuleFires(t, r);
    }
  }

  lemma {:induction false} NoEffortRuleFires(t: Tally, k: nat)
    requires k < |EFFORT_RULES| && !SomeValue(t, EFFORT_RULES)
    ensures !ValueFires(t, EFFORT_RULES[k])
  {
    assert EFFORT_RULES[k] in EFFORT_RULES;
  }

  lemma {:induction false} EffortRuleFires(t: Tally, r: Reason)
    requires r in EFFORT_RULES && ValueFires(t, r)
    ensures !EffortBounds(t)
  {
  }

  predicate CareBounds(t: Tally) {
    && t.semantic >= 1 && t.backups >= 1 && t.retentions >= 1 && t.backupFailures <= 0 && t.retentionFailures <= 0
  }

  lemma {:induction false} NoCareExactlyWhen(t: Tally)
    ensures !SomeValue(t, CARE_RULES) <==> CareBounds(t)
  {
    var l := CARE_RULES;
    if !SomeValue(t, l) {
      assert SemanticBelow in l && BackupsBelow in l && RetentionsBelow in l;
      assert BackupFailed in l && RetentionFailed in l;
    }
  }

  lemma {:induction false} RuleMembers(rs: seq<Repository>, r: Reason)
    ensures r in RepositoryRules(rs) <==>
              exists i :: 0 <= i < |rs| && (r == MissedActivation(rs[i].name) || r == BacklogGrew(rs[i].name))
  {
    if rs != [] {
      var front := rs[..|rs| - 1];
      RuleMembers(front, r);
      assert forall i :: 0 <= i < |front| ==> front[i] == rs[i];
    }
  }

  ghost predicate SomeRepository(m: Manifest, stats: Statistics, s: seq<Pair>) {
    exists r :: r in RepositoryRules(m.repositories) && NoGoFires(m, stats, s, r)
  }

  lemma {:induction false} NoRepositoryExactlyWhen(m: Manifest, stats: Statistics, s: seq<Pair>)
    ensures !SomeRepository(m, stats, s) <==> EveryRepository(m, s)
  {
    var rs := m.repositories;
    forall i | 0 <= i < |rs|
      ensures MissedActivation(rs[i].name) in RepositoryRules(rs) && BacklogGrew(rs[i].name) in RepositoryRules(rs)
    {
      RuleMembers(rs, MissedActivation(rs[i].name));
      RuleMembers(rs, BacklogGrew(rs[i].name));
    }
    forall name ensures NoGoFires(m, stats, s, MissedActivation(name)) == !UsefulInTime(m, s, name)
                     && NoGoFires(m, stats, s, BacklogGrew(name)) == !BacklogHeld(s, name) {
      RepositoryRuleMeans(m, stats, s, name);
      RuleFires(m, stats, s);
    }
    if SomeRepository(m, stats, s) {
      var r :| r in RepositoryRules(rs) && NoGoFires(m, stats, s, r);
      RuleMembers(rs, r);
    }
  }

  lemma {:induction false} UsefulIsHelped(m: Manifest, s: seq<Pair>)
    requires EveryRepository(m, s)
    ensures !SomeNeverHelped(m, s)
  {
    forall i | 0 <= i < |m.repositories| ensures !NeverHelped(m.repositories[i].name, s) {
      assert UsefulInTime(m, s, m.repositories[i].name);
    }
  }

  lemma {:induction false} NoGoGroups(m: Manifest, stats: Statistics, s: seq<Pair>)
    ensures var t := TallyOf(stats, s);
            SomeNoGo(m, stats, s) <==>
              || SomeNeverHelped(m, s) || SomeRepository(m, stats, s)
              || SomeValue(t, HELP_RULES) || SomeValue(t, EFFORT_RULES) || SomeValue(t, CARE_RULES)
  {
    var t, repositories, rule := TallyOf(stats, s), RepositoryRules(m.repositories), NoGoRule(m, stats, s);
    ValueRules(m, stats, s);
    RuleFires(m, stats, s);
    InGroups(rule, m);
    SomeFollows(rule, t, HELP_RULES);
    SomeFollows(rule, t, EFFORT_RULES);
    SomeFollows(rule, t, CARE_RULES);
  }

  ghost predicate SomeIn(rule: Reason -> bool, l: seq<Reason>) {
    exists r :: r in l && rule(r)
  }

  lemma {:induction false} InGroups(rule: Reason -> bool, m: Manifest)
    ensures SomeIn(rule, NoGos(m)) <==>
              || rule(NotEveryRepository) || SomeIn(rule, RepositoryRules(m.repositories))
              || SomeIn(rule, HELP_RULES) || SomeIn(rule, EFFORT_RULES) || SomeIn(rule, CARE_RULES)
  {
    SomeConcat(rule, [NotEveryRepository] + RepositoryRules(m.repositories) + HELP_RULES + EFFORT_RULES, CARE_RULES);
    SomeConcat(rule, [NotEveryRepository] + RepositoryRules(m.repositories) + HELP_RULES, EFFORT_RULES);
    SomeConcat(rule, [NotEveryRepository] + RepositoryRules(m.repositories), HELP_RULES);
    SomeConcat(rule, [NotEveryRepository], RepositoryRules(m.repositories));
    assert NotEveryRepository in [NotEveryRepository];
  }

  lemma {:induction false} SomeConcat(rule: Reason -> bool, a: seq<Reason>, b: seq<Reason>)
    ensures SomeIn(rule, a + b) <==> SomeIn(rule, a) || SomeIn(rule, b)
  {
  }

  lemma {:induction false} SomeFollows(rule: Reason -> bool, t: Tally, l: seq<Reason>)
    requires Follows(rule, t, l)
    ensures SomeIn(rule, l) <==> SomeValue(t, l)
  {
  }

  /** A final GO is given exactly when, on plain totals of the pairs' own records, no memory error
      occurred, correctness held in both arms, every injection was labeled, every repository had a useful
      recall in time and no growing backlog, and the value bounds hold. */
  lemma {:induction false} GoExactlyWhen(m: Manifest, stats: Statistics, s: seq<Pair>)
    requires s != [] && m.repositories != []
    ensures ReportOf(m, stats, s, true).verdict == Go <==>
              SafeBounds(GuardsOf(s)) && EveryRepository(m, s) && ValueBounds(TallyOf(stats, s))
  {
    VerdictIs(m, stats, s, true);
    SafetyIs(s);
    NoStopExactlyWhen(GuardsOf(s));
    NoGoGroups(m, stats, s);
    NoRepositoryExactlyWhen(m, stats, s);
    NoHelpExactlyWhen(TallyOf(stats, s));
    NoEffortExactlyWhen(TallyOf(stats, s));
    NoCareExactlyWhen(TallyOf(stats, s));
    if EveryRepository(m, s) { UsefulIsHelped(m, s); }
  }

  // ------------------------------------------------------------------- each pair

  lemma {:induction false} TotalTight(part: Pair -> int, whole: Pair -> int, s: seq<Pair>)
    requires forall p :: p in s ==> part(p) <= whole(p)
    ensures Total(part, s) <= Total(whole, s)
    ensures Total(part, s) == Total(whole, s) ==> forall p :: p in s ==> part(p) == whole(p)
  {
    if s != [] {
      assert s == [s[0]] + s[1..];
      TotalTight(part, whole, s[1..]);
    }
  }

  /** Every injection was rated or ignored, none twice, and no rule counts more than was rated: in the
      totals as in each pair. */
  lemma {:induction false} TotalsPartition(m: Manifest, s: seq<Pair>)
    requires forall p :: p in s ==> PairOk(m, p)
    ensures Total((p: Pair) => p.treatment.helpful, s) + Total((p: Pair) => p.treatment.wrong, s)
            + Total((p: Pair) => p.treatment.stale, s) + Total((p: Pair) => p.treatment.ignored, s)
            == Total((p: Pair) => p.treatment.injections, s)
    ensures Total((p: Pair) => p.treatment.exactRecoveries, s) + Total((p: Pair) => p.treatment.semanticHelpful, s)
            <= Total((p: Pair) => p.treatment.helpful, s)
    ensures Total((p: Pair) => p.treatment.staleWrongExact, s)
            <= Total((p: Pair) => p.treatment.wrong, s) + Total((p: Pair) => p.treatment.stale, s)
    ensures Total((p: Pair) => p.treatment.contestedLabeled, s)
            <= Total((p: Pair) => p.treatment.contestedInjections, s)
            <= Total((p: Pair) => p.treatment.injections, s)
  {
    if s != [] {
      assert forall p :: p in s[1..] ==> p in s;
      TotalsPartition(m, s[1..]);
      assert s[0] in s;
      assert PairOk(m, s[0]);
    }
  }

  /** Both arms had the same opportunities in total, so that the treatment holds exactly when it lost at most
      one in a hundred of them. */
  lemma {:induction false} HoldsOnEqualTerms(m: Manifest, s: seq<Pair>)
    requires forall p :: p in s ==> PairOk(m, p)
    ensures var g := GuardsOf(s);
            && Even(g.baseContested, g.treatContested) && Even(g.baseMulti, g.treatMulti)
            && (Holds(g.baseContested, g.treatContested) <==> LostLittle(g.baseContested, g.treatContested))
            && (Holds(g.baseMulti, g.treatMulti) <==> LostLittle(g.baseMulti, g.treatMulti))
  {
    var g := GuardsOf(s);
    SharedOpportunities(m, s);
    EvenTerms(g.baseContested, g.treatContested);
    EvenTerms(g.baseMulti, g.treatMulti);
  }

  predicate Even(base: Score, treated: Score) {
    base.of == treated.of
  }

  predicate LostLittle(base: Score, treated: Score) {
    base.of > 0 && 100 * (base.correct - treated.correct) <= base.of
  }

  lemma {:induction false} EvenTerms(base: Score, treated: Score)
    requires Even(base, treated)
    ensures Holds(base, treated) <==> LostLittle(base, treated)
  {
    if base.of > 0 { Scaled(base.correct - treated.correct, base.of); }
  }

  lemma {:induction false} Scaled(x: int, n: int)
    requires n > 0
    ensures 100 * (x * n) <= n * n <==> 100 * x <= n
  {
    assert 100 * (x * n) == n * (100 * x);
    if 100 * x <= n { assert n * (100 * x) <= n * n; } else { assert n * (100 * x) > n * n; }
  }

  /** What holds of one observed pair. */
  ghost predicate PairClean(p: Pair) {
    && p.treatment.provenanceLabeled == p.treatment.injections
    && p.treatment.contestedLabeled == p.treatment.contestedInjections
    && p.treatment.memoryErrors == 0 && p.treatment.backupFailures == 0 && p.treatment.retentionFailures == 0
  }

  /** Full coverage of the totals is full coverage of each pair, because no pair has more labels than
      injections. */
  lemma {:induction false} EachIsLabeled(m: Manifest, s: seq<Pair>)
    requires forall p :: p in s ==> PairOk(m, p)
    requires FullyLabeled(Provenance(s)) && FullyLabeled(ContestedLabels(s))
    ensures forall p :: p in s ==>
              && p.treatment.provenanceLabeled == p.treatment.injections
              && p.treatment.contestedLabeled == p.treatment.contestedInjections
  {
    assert forall p :: p in s ==> TreatmentOk(p.treatment);
    TotalTight((p: Pair) => p.treatment.provenanceLabeled, (p: Pair) => p.treatment.injections, s);
    TotalTight((p: Pair) => p.treatment.contestedLabeled, (p: Pair) => p.treatment.contestedInjections, s);
  }

  lemma {:induction false} EachIsFree(stats: Statistics, s: seq<Pair>)
    requires Errors(s) <= 0 && TallyOf(stats, s).backupFailures <= 0 && TallyOf(stats, s).retentionFailures <= 0
    ensures forall p :: p in s ==>
              p.treatment.memoryErrors == 0 && p.treatment.backupFailures == 0 && p.treatment.retentionFailures == 0
  {
    TotalOfNats((p: Pair) => p.treatment.memoryErrors, s);
    TotalOfNats((p: Pair) => p.treatment.backupFailures, s);
    TotalOfNats((p: Pair) => p.treatment.retentionFailures, s);
  }

  /** Both arms had the same opportunities. */
  lemma {:induction false} SharedOpportunities(m: Manifest, s: seq<Pair>)
    requires forall p :: p in s ==> PairOk(m, p)
    ensures BaseContested(s).of == TreatContested(s).of && BaseMulti(s).of == TreatMulti(s).of
  {
    if s != [] {
      assert forall p :: p in s[1..] ==> p in s;
      SharedOpportunities(m, s[1..]);
      assert s[0] in s;
      assert PairOk(m, s[0]);
    }
  }

  /** A final GO on an accepted pilot: every planned pair was observed once and was clean, every repository
      had a useful recall within 72 hours, at least four fifths of the judged injections helped, and
      correctness fell short by at most 1% of the opportunities both arms shared. */
  lemma {:induction false} GoMeans(m: Manifest, stats: Statistics, s: seq<Pair>)
    requires Complete(m, s, true) && m.repositories != [] && ReportOf(m, stats, s, true).verdict == Go
    ensures NoDuplicates(PairIdsOf(s)) && Elements(PairIdsOf(s)) == PlannedIds(m)
    ensures forall p :: p in s ==> PairClean(p)
    ensures 100 * (BaseContested(s).correct - TreatContested(s).correct) <= BaseContested(s).of
    ensures 100 * (BaseMulti(s).correct - TreatMulti(s).correct) <= BaseMulti(s).of
    ensures EveryRepository(m, s) && HelpBounds(TallyOf(stats, s))
  {
    assert forall p :: p in s ==> PairOk(m, p);
    GoExactlyWhen(m, stats, s);
    EachIsLabeled(m, s);
    EachIsFree(stats, s);
    SharedOpportunities(m, s);
    EvenTerms(BaseContested(s), TreatContested(s));
    EvenTerms(BaseMulti(s), TreatMulti(s));
  }
}
