/**
 The pilot's rules on plain totals: which of them fire, and so what reasons are given
 (scripts/dogfood-pilot.py:28-50, 799-863).
 */
module PilotRules {
  import opened Common
  import opened Folds
  import opened PilotPlan
  import opened PilotReport
  import opened PilotFigures

  // ---------------------------------------------------------------------- totals

  function Errors(s: seq<Pair>): int {
    Total((p: Pair) => p.treatment.memoryErrors, s)
  }

  /** Correct answers and opportunities. */
  datatype Score = Score(correct: int, of: int)

  function BaseContested(s: seq<Pair>): Score {
    Score(Total((p: Pair) => p.baseline.contestedCorrect, s), Total((p: Pair) => p.baseline.contestedOpportunities, s))
  }

  function TreatContested(s: seq<Pair>): Score {
    Score(Total((p: Pair) => p.treatment.common.contestedCorrect, s),
          Total((p: Pair) => p.treatment.common.contestedOpportunities, s))
  }

  function BaseMulti(s: seq<Pair>): Score {
    Score(Total((p: Pair) => p.baseline.multiCorrect, s), Total((p: Pair) => p.baseline.multiOpportunities, s))
  }

  function TreatMulti(s: seq<Pair>): Score {
    Score(Total((p: Pair) => p.treatment.common.multiCorrect, s),
          Total((p: Pair) => p.treatment.common.multiOpportunities, s))
  }

  /** Labels among the injections that should have one. */
  function Provenance(s: seq<Pair>): Score {
    Score(Total((p: Pair) => p.treatment.provenanceLabeled, s), Total((p: Pair) => p.treatment.injections, s))
  }

  function ContestedLabels(s: seq<Pair>): Score {
    Score(Total((p: Pair) => p.treatment.contestedLabeled, s), Total((p: Pair) => p.treatment.contestedInjections, s))
  }

  // ----------------------------------------------------------------- safety rules

  /** Measured in both arms, and the treatment's share of correct answers is more than one percentage
      point below the baseline's. */
  predicate Regressed(base: Score, treated: Score) {
    base.of > 0 && treated.of > 0
    && 100 * (base.correct * treated.of - treated.correct * base.of) > base.of * treated.of
  }

  predicate Measured(base: Score, treated: Score) {
    base.of != 0 && treated.of != 0
  }

  const STOPS: seq<Reason> :=
    [MemoryInducedError, ContestedUnmeasured, ContestedRegressed, MultiUnmeasured, MultiRegressed, ProvenanceUnlabeled,
     ContestedUnlabeled]

  /** What the safety rules look at, as plain totals. */
  datatype Guards = Guards(errors: int, baseContested: Score, treatContested: Score, baseMulti: Score,
                           treatMulti: Score, provenance: Score, contested: Score)

  function GuardsOf(s: seq<Pair>): Guards {
    Guards(Errors(s), BaseContested(s), TreatContested(s), BaseMulti(s), TreatMulti(s), Provenance(s),
           ContestedLabels(s))
  }

  /** Which safety rules fire. */
  predicate StopFires(g: Guards, final: bool, r: Reason) {
    match r
    case MemoryInducedError => g.errors > 0
    case ContestedUnmeasured => final && !Measured(g.baseContested, g.treatContested)
    case ContestedRegressed => Regressed(g.baseContested, g.treatContested)
    case MultiUnmeasured => final && !Measured(g.baseMulti, g.treatMulti)
    case MultiRegressed => Regressed(g.baseMulti, g.treatMulti)
    case ProvenanceUnlabeled => Unlabeled(g.provenance, final)
    case ContestedUnlabeled => Unlabeled(g.contested, final)
    case _ => false
  }

  predicate Unlabeled(labels: Score, final: bool) {
    if labels.of == 0 then final else labels.correct < labels.of
  }

  function StopRule(g: Guards, final: bool): Reason -> bool {
    (r: Reason) => StopFires(g, final, r)
  }

  /** By how many percentage points the treatment's share of correct answers is below the baseline's. */
  ghost predicate IsRegression(r: Option<real>, base: Score, treated: Score) {
    if !Measured(base, treated) then r.None?
    else
      r.Some? && base.of * treated.of >= 0
      && IsShare(r.value, 100 * (base.correct * treated.of - treated.correct * base.of), base.of * treated.of)
  }

  /** One score beside another, in whole numbers. */
  lemma {:induction false} RegressionIs(base: Score, treated: Score)
    requires base.of >= 0 && treated.of >= 0
    ensures var r := RegressionPp(Ratio(base.correct, base.of), Ratio(treated.correct, treated.of));
            && (r.Some? <==> Measured(base, treated)) && IsRegression(r, base, treated)
            && (r.Some? ==> (r.value > 1.0 <==> Regressed(base, treated)))
  {
    if Measured(base, treated) {
      Percentages(base.correct, base.of, treated.correct, treated.of);
    }
  }

  lemma {:induction false} Percentages(a: int, b: int, c: int, d: int)
    requires b > 0 && d > 0
    ensures IsShare((a as real / b as real - c as real / d as real) * 100.0, 100 * (a * d - c * b), b * d)
    ensures (a as real / b as real - c as real / d as real) * 100.0 > 1.0 <==> 100 * (a * d - c * b) > b * d
  {
    var x, y, u, v := a as real / b as real, c as real / d as real, b as real, d as real;
    Associates(x, u, v);
    Associates(y, v, u);
    Points(x, y, u * v, (a * d) as real, (c * b) as real);
    assert (b * d) as real == u * v;
  }

  lemma {:induction false} Associates(x: real, u: real, v: real)
    ensures x * (u * v) == (x * u) * v && x * (v * u) == (x * u) * v
  {
  }

  /** Two shares of `w`, apart by percentage points. */
  lemma {:induction false} Points(x: real, y: real, w: real, a: real, b: real)
    requires w > 0.0 && x * w == a && y * w == b
    ensures ((x - y) * 100.0) * w == 100.0 * (a - b)
    ensures (x - y) * 100.0 > 1.0 <==> 100.0 * (a - b) > w
  {
    var z := (x - y) * 100.0;
    Distributes(x, y, z, w);
    Compared(z, w, 100.0 * (a - b));
  }

  lemma {:induction false} Distributes(x: real, y: real, z: real, w: real)
    requires z == (x - y) * 100.0
    ensures z * w == 100.0 * (x * w - y * w)
  {
  }

  lemma {:induction false} Compared(z: real, w: real, k: real)
    requires w > 0.0 && z * w == k
    ensures z > 1.0 <==> k > w
    ensures z < 1.0 <==> k < w
  {
    Ordered(z, 1.0, w);
  }

  lemma {:induction false} CoverageIs(labels: Score, final: bool)
    requires labels.of >= 0
    ensures var r := Ratio(labels.correct, labels.of);
            (if r.None? then final else r.value < 1.0) <==> Unlabeled(labels, final)
  {
    if labels.of > 0 {
      Compared(Ratio(labels.correct, labels.of).value, labels.of as real, labels.correct as real);
    }
  }

  lemma {:induction false} ContestedSums(s: seq<Pair>)
    ensures Sum(BASE_CONTESTED_CORRECT, s) == BaseContested(s).correct
    ensures Sum(BASE_CONTESTED, s) == BaseContested(s).of >= 0
    ensures Sum(TREAT_CONTESTED_CORRECT, s) == TreatContested(s).correct
    ensures Sum(TREAT_CONTESTED, s) == TreatContested(s).of >= 0
  {
    SumIsTotal(BASE_CONTESTED_CORRECT, (p: Pair) => p.baseline.contestedCorrect, s);
    SumIsTotal(BASE_CONTESTED, (p: Pair) => p.baseline.contestedOpportunities, s);
    SumIsTotal(TREAT_CONTESTED_CORRECT, (p: Pair) => p.treatment.common.contestedCorrect, s);
    SumIsTotal(TREAT_CONTESTED, (p: Pair) => p.treatment.common.contestedOpportunities, s);
    SumOfNats(BASE_CONTESTED, s);
    SumOfNats(TREAT_CONTESTED, s);
  }

  lemma {:induction false} MultiSums(s: seq<Pair>)
    ensures Sum(BASE_MULTI_CORRECT, s) == BaseMulti(s).correct && Sum(BASE_MULTI, s) == BaseMulti(s).of >= 0
    ensures Sum(TREAT_MULTI_CORRECT, s) == TreatMulti(s).correct && Sum(TREAT_MULTI, s) == TreatMulti(s).of >= 0
  {
    SumIsTotal(BASE_MULTI_CORRECT, (p: Pair) => p.baseline.multiCorrect, s);
    SumIsTotal(BASE_MULTI, (p: Pair) => p.baseline.multiOpportunities, s);
    SumIsTotal(TREAT_MULTI_CORRECT, (p: Pair) => p.treatment.common.multiCorrect, s);
    SumIsTotal(TREAT_MULTI, (p: Pair) => p.treatment.common.multiOpportunities, s);
    SumOfNats(BASE_MULTI, s);
    SumOfNats(TREAT_MULTI, s);
  }

  lemma {:induction false} LabelSums(s: seq<Pair>)
    ensures Sum(ERRORS, s) == Errors(s) >= 0
    ensures Sum(LABELED, s) == Provenance(s).correct && Sum(INJECTIONS, s) == Provenance(s).of >= 0
    ensures Sum(CONTESTED_LABELED, s) == ContestedLabels(s).correct && Sum(CONTESTED, s) == ContestedLabels(s).of >= 0
  {
    SumIsTotal(ERRORS, (p: Pair) => p.treatment.memoryErrors, s);
    SumIsTotal(LABELED, (p: Pair) => p.treatment.provenanceLabeled, s);
    SumIsTotal(INJECTIONS, (p: Pair) => p.treatment.injections, s);
    SumIsTotal(CONTESTED_LABELED, (p: Pair) => p.treatment.contestedLabeled, s);
    SumIsTotal(CONTESTED, (p: Pair) => p.treatment.contestedInjections, s);
    SumOfNats(ERRORS, s);
    SumOfNats(INJECTIONS, s);
    SumOfNats(CONTESTED, s);
  }

  // ---------------------------------------------------------------- lists of rules

  lemma {:induction false} FilterThree<T>(keep: T -> bool, a: T, b: T, c: T)
    ensures Filter(keep, [a, b, c]) == Kept(keep, a) + Kept(keep, b) + Kept(keep, c)
  {
    assert [a, b, c] == [a, b] + [c] && [a, b] == [a] + [b] && [a] == [] + [a];
    FilterSnoc(keep, [a, b], c);
    FilterSnoc(keep, [a], b);
    FilterSnoc(keep, [], a);
    assert Filter(keep, []) == [];
  }

  lemma {:induction false} FilterSix<T>(keep: T -> bool, a: T, b: T, c: T, d: T, e: T, f: T)
    ensures Filter(keep, [a, b, c, d, e, f])
         == Kept(keep, a) + Kept(keep, b) + Kept(keep, c) + Kept(keep, d) + Kept(keep, e) + Kept(keep, f)
  {
    assert [a, b, c, d, e, f] == [a, b, c] + [d, e, f];
    FilterConcat(keep, [a, b, c], [d, e, f]);
    FilterThree(keep, a, b, c);
    FilterThree(keep, d, e, f);
    Regroup(Kept(keep, a) + Kept(keep, b) + Kept(keep, c), Kept(keep, d) + Kept(keep, e), Kept(keep, f));
    Regroup(Kept(keep, a) + Kept(keep, b) + Kept(keep, c), Kept(keep, d), Kept(keep, e));
  }

  /** The condition of every safety rule, as measured, is the rule on totals. */
  ghost predicate SafetyFires(x: Safety, g: Guards, final: bool) {
    && (x.memoryErrors > 0 <==> StopFires(g, final, MemoryInducedError))
    && (x.contestedRegression.None? && final <==> StopFires(g, final, ContestedUnmeasured))
    && (x.contestedRegression.Some? && x.contestedRegression.value > 1.0 <==> StopFires(g, final, ContestedRegressed))
    && (x.multiRegression.None? && final <==> StopFires(g, final, MultiUnmeasured))
    && (x.multiRegression.Some? && x.multiRegression.value > 1.0 <==> StopFires(g, final, MultiRegressed))
    && ((if x.provenanceCoverage.None? then final else x.provenanceCoverage.value < 1.0) <==>
        StopFires(g, final, ProvenanceUnlabeled))
    && ((if x.contestedCoverage.None? then final else x.contestedCoverage.value < 1.0) <==>
        StopFires(g, final, ContestedUnlabeled))
  }

  /** What is measured, on the totals. */
  function SafetyFrom(g: Guards): Safety {
    Safety(g.errors,
           RegressionPp(Ratio(g.baseContested.correct, g.baseContested.of),
                        Ratio(g.treatContested.correct, g.treatContested.of)),
           RegressionPp(Ratio(g.baseMulti.correct, g.baseMulti.of), Ratio(g.treatMulti.correct, g.treatMulti.of)),
           Ratio(g.provenance.correct, g.provenance.of), Ratio(g.contested.correct, g.contested.of))
  }

  /** Opportunities and injections are counted. */
  predicate Counted(g: Guards) {
    && g.baseContested.of >= 0 && g.treatContested.of >= 0 && g.baseMulti.of >= 0 && g.treatMulti.of >= 0
    && g.provenance.of >= 0 && g.contested.of >= 0
  }

  lemma {:induction false} SafetyIs(s: seq<Pair>)
    ensures SafetyOf(s) == SafetyFrom(GuardsOf(s)) && Counted(GuardsOf(s)) && Errors(s) >= 0
  {
    ContestedSums(s);
    MultiSums(s);
    LabelSums(s);
  }

  lemma {:induction false} GuardsFire(g: Guards, final: bool)
    requires Counted(g)
    ensures SafetyFires(SafetyFrom(g), g, final)
  {
    RegressionIs(g.baseContested, g.treatContested);
    RegressionIs(g.baseMulti, g.treatMulti);
    CoverageIs(g.provenance, final);
    CoverageIs(g.contested, final);
  }

  /** The safety figures. */
  ghost predicate SafetySays(g: Guards, x: Safety) {
    && x.memoryErrors == g.errors
    && IsRegression(x.contestedRegression, g.baseContested, g.treatContested)
    && IsRegression(x.multiRegression, g.baseMulti, g.treatMulti)
    && IsRatio(x.provenanceCoverage, g.provenance.correct, g.provenance.of)
    && IsRatio(x.contestedCoverage, g.contested.correct, g.contested.of)
  }

  lemma {:induction false} SafetyFigures(g: Guards)
    requires Counted(g)
    ensures SafetySays(g, SafetyFrom(g))
  {
    RegressionIs(g.baseContested, g.treatContested);
    RegressionIs(g.baseMulti, g.treatMulti);
    RatioIs(g.provenance.correct, g.provenance.of);
    RatioIs(g.contested.correct, g.contested.of);
  }

  /** The reasons to stop are exactly the safety rules that fire, in their order. */
  lemma {:induction false} StopReasonsAre(s: seq<Pair>, final: bool)
    ensures StopReasons(SafetyOf(s), final) == Filter(StopRule(GuardsOf(s), final), STOPS)
  {
    SafetyIs(s);
    GuardsFire(GuardsOf(s), final);
    StopList(SafetyFrom(GuardsOf(s)), GuardsOf(s), final);
    StopsKept(StopRule(GuardsOf(s), final));
  }

  lemma {:induction false} StopsKept(rule: Reason -> bool)
    ensures Filter(rule, STOPS)
         == Kept(rule, MemoryInducedError) + Kept(rule, ContestedUnmeasured) + Kept(rule, ContestedRegressed)
            + Kept(rule, MultiUnmeasured) + Kept(rule, MultiRegressed) + Kept(rule, ProvenanceUnlabeled)
            + Kept(rule, ContestedUnlabeled)
  {
    assert STOPS == STOPS[..6] + [STOPS[6]];
    FilterSnoc(rule, STOPS[..6], STOPS[6]);
    assert STOPS[..6] == [STOPS[0], STOPS[1], STOPS[2], STOPS[3], STOPS[4], STOPS[5]];
    FilterSix(rule, STOPS[0], STOPS[1], STOPS[2], STOPS[3], STOPS[4], STOPS[5]);
  }

  lemma {:induction false} StopList(x: Safety, g: Guards, final: bool)
    requires SafetyFires(x, g, final)
    ensures StopReasons(x, final) == var rule := StopRule(g, final);
              Kept(rule, MemoryInducedError) + Kept(rule, ContestedUnmeasured) + Kept(rule, ContestedRegressed)
              + Kept(rule, MultiUnmeasured) + Kept(rule, MultiRegressed) + Kept(rule, ProvenanceUnlabeled)
              + Kept(rule, ContestedUnlabeled)
  {
  }

  // ------------------------------------------------------------------ value rules

  /** A repository has a useful recall within 72 hours of the start. */
  ghost predicate UsefulInTime(m: Manifest, s: seq<Pair>, name: string) {
    exists p :: p in s && p.repository == name && p.treatment.helpful > 0 && p.observedAt - m.start <= 72 * HOUR
  }

  /** The review backlog a repository's last pair left is no larger than what its first pair found. */
  ghost predicate BacklogHeld(s: seq<Pair>, name: string) {
    var mine := MineOf(name, s);
    mine != [] && Latest(mine).treatment.backlogAfter <= Earliest(mine).treatment.backlogBefore
  }

  function RepositoryRules(repositories: seq<Repository>): seq<Reason> {
    if repositories == [] then []
    else
      var name := repositories[|repositories| - 1].name;
      RepositoryRules(repositories[..|repositories| - 1]) + [MissedActivation(name)] + [BacklogGrew(name)]
  }

  const HELP_RULES: seq<Reason> :=
    [HelpfulUnmeasured, WrongUnmeasured, StaleUnmeasured, HelpfulLow, WrongHigh, StaleHigh]

  const EFFORT_RULES: seq<Reason> :=
    [SuccessRegressed, CorrectionsRegressed, TurnsRegressed, TimeRegressed, NoEfficiencyGain, ExactBelow]

  const CARE_RULES: seq<Reason> :=
    [SemanticBelow, BackupsBelow, RetentionsBelow, BackupFailed, RetentionFailed]

  /** All value rules of a pilot, in their order. */
  function NoGos(m: Manifest): seq<Reason> {
    [NotEveryRepository] + RepositoryRules(m.repositories) + HELP_RULES + EFFORT_RULES + CARE_RULES
  }

  /** What the value rules look at over all pairs, as plain totals. */
  datatype Tally = Tally(pairs: nat, helpful: int, wrong: int, stale: int, baseSucceeded: int, treatSucceeded: int,
                         baseCorrected: int, treatCorrected: int, turns: real, seconds: real, exact: int,
                         semantic: int, backups: int, retentions: int, backupFailures: int, retentionFailures: int)

  function TallyOf(stats: Statistics, s: seq<Pair>): Tally {
    Tally(|s|, Total((p: Pair) => p.treatment.helpful, s), Total((p: Pair) => p.treatment.wrong, s),
          Total((p: Pair) => p.treatment.stale, s),
          Number((p: Pair) => p.baseline.taskSuccess, s), Number((p: Pair) => p.treatment.common.taskSuccess, s),
          Number((p: Pair) => p.baseline.corrections > 0, s),
          Number((p: Pair) => p.treatment.common.corrections > 0, s),
          stats.median(TurnsSaved(s)), stats.median(SecondsSaved(s)),
          Total((p: Pair) => p.treatment.exactRecoveries, s), Total((p: Pair) => p.treatment.semanticHelpful, s),
          Total((p: Pair) => p.treatment.backupAttempts, s), Total((p: Pair) => p.treatment.retentionActions, s),
          Total((p: Pair) => p.treatment.backupFailures, s), Total((p: Pair) => p.treatment.retentionFailures, s))
  }

  /** Injections that were judged. */
  function Rated(t: Tally): int {
    t.helpful + t.wrong + t.stale
  }

  /** Which value rules fire on the totals. */
  predicate ValueFires(t: Tally, r: Reason) {
    match r
    case HelpfulUnmeasured => Rated(t) == 0
    case WrongUnmeasured => Rated(t) == 0
    case StaleUnmeasured => Rated(t) == 0
    case HelpfulLow => 5 * t.helpful < 4 * Rated(t)
    case WrongHigh => 10 * t.wrong > Rated(t)
    case StaleHigh => 10 * t.stale > Rated(t)
    case SuccessRegressed => 100 * (t.baseSucceeded - t.treatSucceeded) > t.pairs
    case CorrectionsRegressed => 100 * (t.treatCorrected - t.baseCorrected) > t.pairs
    case TurnsRegressed => t.turns < 0.0
    case TimeRegressed => t.seconds < 0.0
    case NoEfficiencyGain => t.turns == 0.0 && t.seconds == 0.0
    case ExactBelow => t.exact < 1
    case SemanticBelow => t.semantic < 1
    case BackupsBelow => t.backups < 1
    case RetentionsBelow => t.retentions < 1
    case BackupFailed => t.backupFailures > 0
    case RetentionFailed => t.retentionFailures > 0
    case _ => false
  }

  /** Which value rules fire. */
  ghost predicate NoGoFires(m: Manifest, stats: Statistics, s: seq<Pair>, r: Reason) {
    match r
    case NotEveryRepository => SomeNeverHelped(m, s)
    case MissedActivation(name) => !UsefulInTime(m, s, name)
    case BacklogGrew(name) => !BacklogHeld(s, name)
    case _ => ValueFires(TallyOf(stats, s), r)
  }

  ghost predicate SomeNeverHelped(m: Manifest, s: seq<Pair>) {
    exists i :: 0 <= i < |m.repositories| && NeverHelped(m.repositories[i].name, s)
  }

  ghost function NoGoRule(m: Manifest, stats: Statistics, s: seq<Pair>): Reason -> bool {
    (r: Reason) => NoGoFires(m, stats, s, r)
  }

  // ---- measured on the totals

  /** What is measured, on the totals. */
  function WorthFrom(activation: real, t: Tally): Worth
    requires t.pairs > 0
  {
    var n := t.pairs as real;
    Worth(activation, Ratio(t.helpful, Rated(t)), Ratio(t.wrong, Rated(t)), Ratio(t.stale, Rated(t)),
          (t.baseSucceeded as real / n - t.treatSucceeded as real / n) * 100.0,
          (t.treatCorrected as real / n - t.baseCorrected as real / n) * 100.0,
          t.turns, t.seconds, t.exact, t.semantic, t.backups, t.backupFailures, t.retentions, t.retentionFailures)
  }

  lemma {:induction false} HelpSums(stats: Statistics, s: seq<Pair>)
    ensures var t := TallyOf(stats, s);
            Sum(HELPFUL, s) == t.helpful >= 0 && Sum(WRONG, s) == t.wrong >= 0 && Sum(STALE, s) == t.stale >= 0
  {
    SumIsTotal(HELPFUL, (p: Pair) => p.treatment.helpful, s);
    SumIsTotal(WRONG, (p: Pair) => p.treatment.wrong, s);
    SumIsTotal(STALE, (p: Pair) => p.treatment.stale, s);
    SumOfNats(HELPFUL, s);
    SumOfNats(WRONG, s);
    SumOfNats(STALE, s);
  }

  lemma {:induction false} EffortSums(stats: Statistics, s: seq<Pair>)
    ensures var t := TallyOf(stats, s);
            && Sum(BASE_SUCCESS, s) == t.baseSucceeded && Sum(TREAT_SUCCESS, s) == t.treatSucceeded
            && Sum(BASE_CORRECTED, s) == t.baseCorrected && Sum(TREAT_CORRECTED, s) == t.treatCorrected
            && stats.median(Values(TURNS_SAVED, s)) == t.turns && stats.median(Values(SECONDS_SAVED, s)) == t.seconds
  {
    SumIsNumber(BASE_SUCCESS, (p: Pair) => p.baseline.taskSuccess, s);
    SumIsNumber(TREAT_SUCCESS, (p: Pair) => p.treatment.common.taskSuccess, s);
    SumIsNumber(BASE_CORRECTED, (p: Pair) => p.baseline.corrections > 0, s);
    SumIsNumber(TREAT_CORRECTED, (p: Pair) => p.treatment.common.corrections > 0, s);
    SavingsAre(s);
  }

  lemma {:induction false} CareSums(stats: Statistics, s: seq<Pair>)
    ensures var t := TallyOf(stats, s);
            && Sum(EXACT, s) == t.exact && Sum(SEMANTIC, s) == t.semantic
            && Sum(BACKUPS, s) == t.backups && Sum(RETENTIONS, s) == t.retentions
            && Sum(BACKUP_FAILURES, s) == t.backupFailures && Sum(RETENTION_FAILURES, s) == t.retentionFailures
  {
    SumIsTotal(EXACT, (p: Pair) => p.treatment.exactRecoveries, s);
    SumIsTotal(SEMANTIC, (p: Pair) => p.treatment.semanticHelpful, s);
    SumIsTotal(BACKUPS, (p: Pair) => p.treatment.backupAttempts, s);
    SumIsTotal(RETENTIONS, (p: Pair) => p.treatment.retentionActions, s);
    SumIsTotal(BACKUP_FAILURES, (p: Pair) => p.treatment.backupFailures, s);
    SumIsTotal(RETENTION_FAILURES, (p: Pair) => p.treatment.retentionFailures, s);
  }

  lemma {:induction false} WorthIs(m: Manifest, stats: Statistics, s: seq<Pair>,
                                   repos: seq<(string, RepositoryReport)>)
    requires s != [] && m.repositories != []
    ensures WorthOf(m, stats, s, repos)
         == WorthFrom(Activated(repos) as real / |m.repositories| as real, TallyOf(stats, s))
  {
    HelpSums(stats, s);
    EffortSums(stats, s);
    CareSums(stats, s);
  }

  /** The value figures. */
  ghost predicate WorthSays(m: Manifest, t: Tally, repos: seq<(string, RepositoryReport)>, x: Worth) {
    && IsShare(x.activation, Activated(repos), |m.repositories|)
    && IsRatio(x.helpful, t.helpful, Rated(t)) && IsRatio(x.wrong, t.wrong, Rated(t))
    && IsRatio(x.stale, t.stale, Rated(t))
    && IsShare(x.successRegression, 100 * (t.baseSucceeded - t.treatSucceeded), t.pairs)
    && IsShare(x.correctionRegression, 100 * (t.treatCorrected - t.baseCorrected), t.pairs)
    && x.medianTurns == t.turns && x.medianSeconds == t.seconds && x.exact == t.exact && x.semantic == t.semantic
    && x.backups == t.backups && x.backupFailures == t.backupFailures
    && x.retentions == t.retentions && x.retentionFailures == t.retentionFailures
  }

  lemma {:induction false} WorthFigures(m: Manifest, stats: Statistics, s: seq<Pair>,
                                        repos: seq<(string, RepositoryReport)>)
    requires s != [] && m.repositories != []
    ensures WorthSays(m, TallyOf(stats, s), repos, WorthOf(m, stats, s, repos))
  {
    WorthIs(m, stats, s, repos);
    ShareIs(Activated(repos), |m.repositories|);
    TalliedFigures(m, TallyOf(stats, s), repos);
  }

  lemma {:induction false} TalliedFigures(m: Manifest, t: Tally, repos: seq<(string, RepositoryReport)>)
    requires t.pairs > 0 && m.repositories != []
    ensures WorthSays(m, t, repos, WorthFrom(Activated(repos) as real / |m.repositories| as real, t))
  {
    ShareIs(Activated(repos), |m.repositories|);
    RatioIs(t.helpful, Rated(t));
    RatioIs(t.wrong, Rated(t));
    RatioIs(t.stale, Rated(t));
    PointsApart(t.baseSucceeded, t.treatSucceeded, t.pairs);
    PointsApart(t.treatCorrected, t.baseCorrected, t.pairs);
  }

  // ---- judged injections

  /** A fraction against a bound, in whole numbers. */
  lemma {:induction false} RatioBounds(part: int, whole: int, num: int, den: int)
    requires whole > 0 && den > 0
    ensures Ratio(part, whole).value < num as real / den as real <==> den * part < num * whole
    ensures Ratio(part, whole).value > num as real / den as real <==> den * part > num * whole
  {
    var r, w, q, d := Ratio(part, whole).value, whole as real, num as real / den as real, den as real;
    assert r * w == part as real && q * d == num as real;
    CrossMultiplied(r, q, w, d, part as real, num as real);
    assert (den * part) as real == d * part as real && (num * whole) as real == num as real * w;
  }

  lemma {:induction false} CrossMultiplied(r: real, q: real, w: real, d: real, part: real, num: real)
    requires w > 0.0 && d > 0.0 && r * w == part && q * d == num
    ensures r < q <==> d * part < num * w
    ensures r > q <==> d * part > num * w
  {
    var v := w * d;
    assert d * part == r * v && num * w == q * v;
    Ordered(r, q, v);
  }

  lemma {:induction false} Ordered(r: real, q: real, w: real)
    requires w > 0.0
    ensures r < q <==> r * w < q * w
    ensures r > q <==> r * w > q * w
  {
    assert q * w - r * w == (q - r) * w;
    if r < q { assert (q - r) * w > 0.0; } else { assert (r - q) * w >= 0.0; }
    if r > q { assert (r - q) * w > 0.0; }
  }

  lemma {:induction false} HelpConditions(activation: real, t: Tally)
    requires t.pairs > 0 && t.helpful >= 0 && t.wrong >= 0 && t.stale >= 0
    ensures var x := WorthFrom(activation, t);
            && (x.helpful.None? <==> Rated(t) == 0) && (x.wrong.None? <==> Rated(t) == 0)
            && (x.stale.None? <==> Rated(t) == 0)
            && (x.helpful.Some? && x.helpful.value < 0.80 <==> 5 * t.helpful < 4 * Rated(t))
            && (x.wrong.Some? && x.wrong.value > 0.10 <==> 10 * t.wrong > Rated(t))
            && (x.stale.Some? && x.stale.value > 0.10 <==> 10 * t.stale > Rated(t))
  {
    if Rated(t) != 0 {
      RatioBounds(t.helpful, Rated(t), 4, 5);
      RatioBounds(t.wrong, Rated(t), 1, 10);
      RatioBounds(t.stale, Rated(t), 1, 10);
    }
  }

  /** Six rules and the conditions under which they fire. */
  lemma {:induction false} SixRules(rule: Reason -> bool, l: seq<Reason>, c: seq<bool>)
    requires |l| == |c| == 6 && forall i :: 0 <= i < 6 ==> rule(l[i]) == c[i]
    ensures Filter(rule, l) == When(c[0], l[0]) + When(c[1], l[1]) + When(c[2], l[2]) + When(c[3], l[3])
                               + When(c[4], l[4]) + When(c[5], l[5])
  {
    assert l == [l[0], l[1], l[2], l[3], l[4], l[5]];
    FilterSix(rule, l[0], l[1], l[2], l[3], l[4], l[5]);
  }

  lemma {:induction false} HelpListed(x: Worth, rule: Reason -> bool)
    requires rule(HelpfulUnmeasured) == x.helpful.None? && rule(WrongUnmeasured) == x.wrong.None?
    requires rule(StaleUnmeasured) == x.stale.None?
    requires rule(HelpfulLow) == (x.helpful.Some? && x.helpful.value < 0.80)
    requires rule(WrongHigh) == (x.wrong.Some? && x.wrong.value > 0.10)
    requires rule(StaleHigh) == (x.stale.Some? && x.stale.value > 0.10)
    ensures HelpReasons(x) == Filter(rule, HELP_RULES)
  {
    SixRules(rule, HELP_RULES, [x.helpful.None?, x.wrong.None?, x.stale.None?, rule(HelpfulLow), rule(WrongHigh),
                                rule(StaleHigh)]);
  }

  lemma {:induction false} HelpIs(activation: real, t: Tally, rule: Reason -> bool)
    requires t.pairs > 0 && t.helpful >= 0 && t.wrong >= 0 && t.stale >= 0 && Follows(rule, t, HELP_RULES)
    ensures HelpReasons(WorthFrom(activation, t)) == Filter(rule, HELP_RULES)
  {
    HelpConditions(activation, t);
    SixFollow(rule, t, HELP_RULES);
    HelpListed(WorthFrom(activation, t), rule);
  }

  ghost predicate Follows(rule: Reason -> bool, t: Tally, l: seq<Reason>) {
    forall r :: r in l ==> rule(r) == ValueFires(t, r)
  }

  lemma {:induction false} SixFollow(rule: Reason -> bool, t: Tally, l: seq<Reason>)
    requires Follows(rule, t, l) && |l| >= 5
    ensures rule(l[0]) == ValueFires(t, l[0]) && rule(l[1]) == ValueFires(t, l[1]) && rule(l[2]) == ValueFires(t, l[2])
    ensures rule(l[3]) == ValueFires(t, l[3]) && rule(l[4]) == ValueFires(t, l[4])
    ensures |l| == 6 ==> rule(l[5]) == ValueFires(t, l[5])
  {
  }

  // ---- effort and care

  lemma {:induction false} PointsApart(a: int, b: int, n: nat)
    requires n > 0
    ensures IsShare((a as real / n as real - b as real / n as real) * 100.0, 100 * (a - b), n)
    ensures (a as real / n as real - b as real / n as real) * 100.0 > 1.0 <==> 100 * (a - b) > n
  {
    Points(a as real / n as real, b as real / n as real, n as real, a as real, b as real);
  }

  lemma {:induction false} EffortConditions(activation: real, t: Tally)
    requires t.pairs > 0
    ensures var x := WorthFrom(activation, t);
            && (x.successRegression > 1.0 <==> 100 * (t.baseSucceeded - t.treatSucceeded) > t.pairs)
            && (x.correctionRegression > 1.0 <==> 100 * (t.treatCorrected - t.baseCorrected) > t.pairs)
  {
    PointsApart(t.baseSucceeded, t.treatSucceeded, t.pairs);
    PointsApart(t.treatCorrected, t.baseCorrected, t.pairs);
  }

  lemma {:induction false} EffortListed(x: Worth, rule: Reason -> bool)
    requires rule(SuccessRegressed) == (x.successRegression > 1.0)
    requires rule(CorrectionsRegressed) == (x.correctionRegression > 1.0)
    requires rule(TurnsRegressed) == (x.medianTurns < 0.0) && rule(TimeRegressed) == (x.medianSeconds < 0.0)
    requires rule(NoEfficiencyGain) == (x.medianTurns == 0.0 && x.medianSeconds == 0.0)
    requires rule(ExactBelow) == (x.exact < 1)
    ensures EffortReasons(x) == Filter(rule, EFFORT_RULES)
  {
    SixRules(rule, EFFORT_RULES, [rule(SuccessRegressed), rule(CorrectionsRegressed), rule(TurnsRegressed),
                                  rule(TimeRegressed), rule(NoEfficiencyGain), rule(ExactBelow)]);
  }

  lemma {:induction false} EffortIs(activation: real, t: Tally, rule: Reason -> bool)
    requires t.pairs > 0 && Follows(rule, t, EFFORT_RULES)
    ensures EffortReasons(WorthFrom(activation, t)) == Filter(rule, EFFORT_RULES)
  {
    EffortConditions(activation, t);
    SixFollow(rule, t, EFFORT_RULES);
    EffortListed(WorthFrom(activation, t), rule);
  }

  lemma {:induction false} FiveRules(rule: Reason -> bool, l: seq<Reason>, c: seq<bool>)
    requires |l| == |c| == 5 && forall i :: 0 <= i < 5 ==> rule(l[i]) == c[i]
    ensures Filter(rule, l)
         == When(c[0], l[0]) + When(c[1], l[1]) + When(c[2], l[2]) + When(c[3], l[3]) + When(c[4], l[4])
  {
    assert l == [l[0], l[1], l[2]] + [l[3]] + [l[4]];
    FilterThree(rule, l[0], l[1], l[2]);
    FilterSnoc(rule, [l[0], l[1], l[2]], l[3]);
    FilterSnoc(rule, [l[0], l[1], l[2]] + [l[3]], l[4]);
  }

  lemma {:induction false} CareListed(x: Worth, rule: Reason -> bool)
    requires rule(SemanticBelow) == (x.semantic < 1) && rule(BackupsBelow) == (x.backups < 1)
    requires rule(RetentionsBelow) == (x.retentions < 1)
    requires rule(BackupFailed) == (x.backupFailures > 0) && rule(RetentionFailed) == (x.retentionFailures > 0)
    ensures CareReasons(x) == Filter(rule, CARE_RULES)
  {
    FiveRules(rule, CARE_RULES, [rule(SemanticBelow), rule(BackupsBelow), rule(RetentionsBelow), rule(BackupFailed),
                                 rule(RetentionFailed)]);
  }

  lemma {:induction false} CareIs(activation: real, t: Tally, rule: Reason -> bool)
    requires t.pairs > 0 && Follows(rule, t, CARE_RULES)
    ensures CareReasons(WorthFrom(activation, t)) == Filter(rule, CARE_RULES)
  {
    SixFollow(rule, t, CARE_RULES);
    CareListed(WorthFrom(activation, t), rule);
  }

  // ---- repositories

  /** The two conditions of a repository, as reported. */
  lemma {:induction false} RepositoryRulesAre(m: Manifest, name: string, s: seq<Pair>)
    ensures var r := RepositoryEntry(m, name, s).1;
            && (r.firstUsefulHours.None? <==> NeverHelped(name, s))
            && (r.firstUsefulHours.None? || r.firstUsefulHours.value > 72.0 <==> !UsefulInTime(m, s, name))
            && (r.backlogGrowth.None? || r.backlogGrowth.value > 0 <==> !BacklogHeld(s, name))
  {
    RepositoryIs(m, name, s);
    var r := RepositoryEntry(m, name, s).1;
    if r.firstUsefulHours.Some? {
      HoursOfFirst(m, name, s, r.firstUsefulHours, r.firstUsefulPair);
    }
  }

  lemma {:induction false} HoursOfFirst(m: Manifest, name: string, s: seq<Pair>, hours: Option<real>,
                                        id: Option<string>)
    requires FirstUsefulSays(m, name, s, hours, id) && hours.Some?
    ensures hours.value > 72.0 <==> !UsefulInTime(m, s, name)
  {
    var p :| FirstHelped(name, s, p) && id.value == p.id && IsShare(hours.value, p.observedAt - m.start, HOUR);
    ShareBound(hours.value, p.observedAt - m.start, HOUR, 72);
  }

  lemma {:induction false} ShareBound(r: real, part: int, n: nat, bound: int)
    requires n > 0 && IsShare(r, part, n)
    ensures r > bound as real <==> part > bound * n
  {
    Ordered(r, bound as real, n as real);
    assert (bound * n) as real == bound as real * n as real;
  }

  /** The reasons of one repository, on the rules themselves. */
  lemma {:induction false} RepositoryStep(rule: Reason -> bool, before: seq<Reason>, name: string, r: RepositoryReport)
    requires rule(MissedActivation(name)) == (r.firstUsefulHours.None? || r.firstUsefulHours.value > 72.0)
    requires rule(BacklogGrew(name)) == (r.backlogGrowth.None? || r.backlogGrowth.value > 0)
    ensures Filter(rule, before + [MissedActivation(name)] + [BacklogGrew(name)])
         == Filter(rule, before)
            + When(r.firstUsefulHours.None? || r.firstUsefulHours.value > 72.0, MissedActivation(name))
            + When(r.backlogGrowth.None? || r.backlogGrowth.value > 0, BacklogGrew(name))
  {
    FilterSnoc(rule, before + [MissedActivation(name)], BacklogGrew(name));
    FilterSnoc(rule, before, MissedActivation(name));
  }

  lemma {:induction false} RepositoryRuleIs(m: Manifest, stats: Statistics, s: seq<Pair>, name: string)
    ensures var r, rule := RepositoryEntry(m, name, s).1, NoGoRule(m, stats, s);
            && rule(MissedActivation(name)) == (r.firstUsefulHours.None? || r.firstUsefulHours.value > 72.0)
            && rule(BacklogGrew(name)) == (r.backlogGrowth.None? || r.backlogGrowth.value > 0)
  {
    RepositoryRulesAre(m, name, s);
    RepositoryRuleMeans(m, stats, s, name);
  }

  lemma {:induction false} RepositoryRuleMeans(m: Manifest, stats: Statistics, s: seq<Pair>, name: string)
    ensures var rule := NoGoRule(m, stats, s);
            && rule(MissedActivation(name)) == !UsefulInTime(m, s, name)
            && rule(BacklogGrew(name)) == !BacklogHeld(s, name)
  {
  }

  lemma {:induction false} RepositoryReasonsAre(m: Manifest, stats: Statistics, rs: seq<Repository>, s: seq<Pair>)
    ensures RepositoryReasons(ByRepository(m, rs, s)) == Filter(NoGoRule(m, stats, s), RepositoryRules(rs))
  {
    var repos := ByRepository(m, rs, s);
    if rs != [] {
      var front, name := rs[..|rs| - 1], rs[|rs| - 1].name;
      RepositoryReasonsAre(m, stats, front, s);
      LastRepository(m, rs, s);
      RepositoryRuleIs(m, stats, s, name);
      RepositoryStep(NoGoRule(m, stats, s), RepositoryRules(front), name, RepositoryEntry(m, name, s).1);
    } else {
      assert repos == [];
    }
  }

  lemma {:induction false} LastRepository(m: Manifest, rs: seq<Repository>, s: seq<Pair>)
    requires rs != []
    ensures var repos := ByRepository(m, rs, s);
            && |repos| == |rs| && repos[..|repos| - 1] == ByRepository(m, rs[..|rs| - 1], s)
            && repos[|repos| - 1] == RepositoryEntry(m, rs[|rs| - 1].name, s)
  {
  }

  ghost predicate IsActivated(repos: seq<(string, RepositoryReport)>, i: nat)
    requires i < |repos|
  {
    repos[i].1.firstUsefulHours.Some?
  }

  lemma {:induction false} ActivatedAre(repos: seq<(string, RepositoryReport)>)
    ensures Activated(repos) <= |repos|
    ensures Activated(repos) == |repos| <==> forall i :: 0 <= i < |repos| ==> IsActivated(repos, i)
  {
    if repos != [] {
      var front := repos[..|repos| - 1];
      ActivatedAre(front);
      assert forall i :: 0 <= i < |front| ==> (IsActivated(front, i) <==> IsActivated(repos, i));
      assert IsActivated(repos, |front|) <==> repos[|repos| - 1].1.firstUsefulHours.Some?;
    }
  }

  lemma {:induction false} EveryoneActivated(m: Manifest, s: seq<Pair>)
    ensures var repos := ByRepository(m, m.repositories, s);
            SomeNeverHelped(m, s) <==> !forall i :: 0 <= i < |repos| ==> IsActivated(repos, i)
  {
    var repos := ByRepository(m, m.repositories, s);
    forall i | 0 <= i < |repos| ensures IsActivated(repos, i) <==> !NeverHelped(m.repositories[i].name, s) {
      RepositoryRulesAre(m, m.repositories[i].name, s);
      assert repos[i] == RepositoryEntry(m, m.repositories[i].name, s);
    }
  }

  lemma {:induction false} ActivationIs(m: Manifest, s: seq<Pair>)
    requires m.repositories != []
    ensures var repos := ByRepository(m, m.repositories, s);
            Activated(repos) as real / |m.repositories| as real < 1.0 <==> SomeNeverHelped(m, s)
  {
    var n, repos := |m.repositories|, ByRepository(m, m.repositories, s);
    ActivatedAre(repos);
    EveryoneActivated(m, s);
    NotAll(Activated(repos), n);
  }

  lemma {:induction false} NotAll(a: nat, n: nat)
    requires a <= n && n > 0
    ensures a as real / n as real < 1.0 <==> a != n
  {
    Compared(a as real / n as real, n as real, a as real);
  }

  // ---- all of them

  lemma {:induction false} FilterNoGos(rule: Reason -> bool, m: Manifest)
    ensures Filter(rule, NoGos(m))
         == Kept(rule, NotEveryRepository) + Filter(rule, RepositoryRules(m.repositories)) + Filter(rule, HELP_RULES)
            + Filter(rule, EFFORT_RULES) + Filter(rule, CARE_RULES)
  {
    var repositories := RepositoryRules(m.repositories);
    FilterConcat(rule, [NotEveryRepository] + repositories + HELP_RULES + EFFORT_RULES, CARE_RULES);
    FilterConcat(rule, [NotEveryRepository] + repositories + HELP_RULES, EFFORT_RULES);
    FilterConcat(rule, [NotEveryRepository] + repositories, HELP_RULES);
    FilterConcat(rule, [NotEveryRepository], repositories);
    assert [NotEveryRepository] == [] + [NotEveryRepository];
    FilterSnoc(rule, [], NotEveryRepository);
    assert Filter(rule, []) == [];
  }

  /** The reasons against a GO are exactly the value rules that fire, in their order. */
  lemma {:induction false} NoGoReasonsAre(m: Manifest, stats: Statistics, s: seq<Pair>)
    requires s != [] && m.repositories != []
    ensures var repos := ByRepository(m, m.repositories, s);
            NoGoReasons(WorthOf(m, stats, s, repos), repos) == Filter(NoGoRule(m, stats, s), NoGos(m))
  {
    var repos, rule := ByRepository(m, m.repositories, s), NoGoRule(m, stats, s);
    WorthIs(m, stats, s, repos);
    HelpSums(stats, s);
    ActivationIs(m, s);
    RepositoryReasonsAre(m, stats, m.repositories, s);
    ValueRules(m, stats, s);
    AllReasonsAre(m, Activated(repos) as real / |m.repositories| as real, TallyOf(stats, s), repos, rule);
  }

  lemma {:induction false} AllReasonsAre(m: Manifest, activation: real, t: Tally,
                                         repos: seq<(string, RepositoryReport)>, rule: Reason -> bool)
    requires t.pairs > 0 && t.helpful >= 0 && t.wrong >= 0 && t.stale >= 0
    requires rule(NotEveryRepository) == (activation < 1.0)
    requires RepositoryReasons(repos) == Filter(rule, RepositoryRules(m.repositories))
    requires Follows(rule, t, HELP_RULES) && Follows(rule, t, EFFORT_RULES) && Follows(rule, t, CARE_RULES)
    ensures NoGoReasons(WorthFrom(activation, t), repos) == Filter(rule, NoGos(m))
  {
    HelpIs(activation, t, rule);
    EffortIs(activation, t, rule);
    CareIs(activation, t, rule);
    FilterNoGos(rule, m);
  }

  lemma {:induction false} ValueRules(m: Manifest, stats: Statistics, s: seq<Pair>)
    ensures var rule, t := NoGoRule(m, stats, s), TallyOf(stats, s);
            && Follows(rule, t, HELP_RULES) && Follows(rule, t, EFFORT_RULES) && Follows(rule, t, CARE_RULES)
            && rule(NotEveryRepository) == SomeNeverHelped(m, s)
  {
  }
}
