/**
 Turning accepted observations into the pilot's report and verdict
 (scripts/dogfood-pilot.py:28-50, 571-863). Ratios are exact; library statistics are functions of
 the bag of measurements.
 */
module PilotReport {
  import opened Common
  import opened Folds
  import opened PilotPlan

  /** Median and quartiles, as functions of the measured bag. */
  datatype Statistics = Statistics(median: multiset<real> -> real, quartiles: multiset<real> -> (real, real))

  datatype Verdict = Stop | NoGo | Go | Continue

  datatype Reason =
    | MemoryInducedError | ContestedUnmeasured | ContestedRegressed | MultiUnmeasured | MultiRegressed
    | ProvenanceUnlabeled | ContestedUnlabeled
    | NotEveryRepository | MissedActivation(name: string) | BacklogGrew(name: string)
    | HelpfulUnmeasured | WrongUnmeasured | StaleUnmeasured | HelpfulLow | WrongHigh | StaleHigh
    | SuccessRegressed | CorrectionsRegressed | TurnsRegressed | TimeRegressed | NoEfficiencyGain
    | ExactBelow | SemanticBelow | BackupsBelow | RetentionsBelow | BackupFailed | RetentionFailed

  datatype Unmeasured = Cost | ContestedCorrectness | MultiCorrectness

  // -------------------------------------------------------------- measurements

  const HELPFUL: Pair -> int := (p: Pair) => p.treatment.helpful
  const WRONG: Pair -> int := (p: Pair) => p.treatment.wrong
  const STALE: Pair -> int := (p: Pair) => p.treatment.stale
  const IGNORED: Pair -> int := (p: Pair) => p.treatment.ignored
  const INJECTIONS: Pair -> int := (p: Pair) => p.treatment.injections
  const TOKENS: Pair -> int := (p: Pair) => p.treatment.tokens
  const ERRORS: Pair -> int := (p: Pair) => p.treatment.memoryErrors
  const EXACT: Pair -> int := (p: Pair) => p.treatment.exactRecoveries
  const SEMANTIC: Pair -> int := (p: Pair) => p.treatment.semanticHelpful
  const STALE_WRONG_EXACT: Pair -> int := (p: Pair) => p.treatment.staleWrongExact
  const LABELED: Pair -> int := (p: Pair) => p.treatment.provenanceLabeled
  const CONTESTED: Pair -> int := (p: Pair) => p.treatment.contestedInjections
  const CONTESTED_LABELED: Pair -> int := (p: Pair) => p.treatment.contestedLabeled
  const RETENTIONS: Pair -> int := (p: Pair) => p.treatment.retentionActions
  const RETENTION_FAILURES: Pair -> int := (p: Pair) => p.treatment.retentionFailures
  const BACKUPS: Pair -> int := (p: Pair) => p.treatment.backupAttempts
  const BACKUP_FAILURES: Pair -> int := (p: Pair) => p.treatment.backupFailures
  const BASE_CONTESTED: Pair -> int := (p: Pair) => p.baseline.contestedOpportunities
  const BASE_CONTESTED_CORRECT: Pair -> int := (p: Pair) => p.baseline.contestedCorrect
  const TREAT_CONTESTED: Pair -> int := (p: Pair) => p.treatment.common.contestedOpportunities
  const TREAT_CONTESTED_CORRECT: Pair -> int := (p: Pair) => p.treatment.common.contestedCorrect
  const BASE_MULTI: Pair -> int := (p: Pair) => p.baseline.multiOpportunities
  const BASE_MULTI_CORRECT: Pair -> int := (p: Pair) => p.baseline.multiCorrect
  const TREAT_MULTI: Pair -> int := (p: Pair) => p.treatment.common.multiOpportunities
  const TREAT_MULTI_CORRECT: Pair -> int := (p: Pair) => p.treatment.common.multiCorrect
  const BASE_SUCCESS: Pair -> int := (p: Pair) => if p.baseline.taskSuccess then 1 else 0
  const TREAT_SUCCESS: Pair -> int := (p: Pair) => if p.treatment.common.taskSuccess then 1 else 0
  const BASE_CORRECTIONS: Pair -> int := (p: Pair) => p.baseline.corrections
  const TREAT_CORRECTIONS: Pair -> int := (p: Pair) => p.treatment.common.corrections
  const BASE_CORRECTED: Pair -> int := (p: Pair) => if p.baseline.corrections > 0 then 1 else 0
  const TREAT_CORRECTED: Pair -> int := (p: Pair) => if p.treatment.common.corrections > 0 then 1 else 0
  const TURNS_SAVED: Pair -> multiset<real> :=
    (p: Pair) => multiset{(p.baseline.turns - p.treatment.common.turns) as real}
  const SECONDS_SAVED: Pair -> multiset<real> :=
    (p: Pair) => multiset{p.baseline.activeSeconds - p.treatment.common.activeSeconds}
  const COST: Pair -> real := (p: Pair) => if p.treatment.cost.Some? then p.treatment.cost.value else 0.0
  const RETENTION_SECONDS: Pair -> real := (p: Pair) => p.treatment.retentionSeconds
  const BACKUP_SECONDS: Pair -> real := (p: Pair) => p.treatment.backupSeconds

  function Ratio(numerator: int, denominator: int): Option<real> {
    if denominator != 0 then Some(numerator as real / denominator as real) else None
  }

  function RegressionPp(baseline: Option<real>, treatment: Option<real>): Option<real> {
    if baseline.None? || treatment.None? then None else Some((baseline.value - treatment.value) * 100.0)
  }

  predicate AllCosted(s: seq<Pair>) {
    forall p :: p in s ==> p.treatment.cost.Some?
  }

  // ----------------------------------------------------------- per repository

  datatype RepositoryReport = RepositoryReport(observed: nat, firstUsefulHours: Option<real>,
                                               firstUsefulPair: Option<string>, rowGrowth: Option<int>,
                                               byteGrowth: Option<int>, backlogGrowth: Option<int>)

  function InRepository(name: string): Pair -> bool {
    (p: Pair) => p.repository == name
  }

  const USEFUL: Pair -> bool := (p: Pair) => p.treatment.helpful > 0

  /** The first of the earliest observations. */
  function Earliest(s: seq<Pair>): (r: Pair)
    requires s != []
    ensures r in s && forall p :: p in s ==> r.observedAt <= p.observedAt
  {
    if |s| == 1 then s[0]
    else
      var front, last := s[..|s| - 1], s[|s| - 1];
      assert s == front + [last];
      var best := Earliest(front);
      if last.observedAt < best.observedAt then last else best
  }

  /** The last of the latest observations. */
  function Latest(s: seq<Pair>): (r: Pair)
    requires s != []
    ensures r in s && forall p :: p in s ==> p.observedAt <= r.observedAt
  {
    if |s| == 1 then s[0]
    else
      var front, last := s[..|s| - 1], s[|s| - 1];
      assert s == front + [last];
      var best := Latest(front);
      if last.observedAt >= best.observedAt then last else best
  }

  function HoursSince(start: Time, t: Time): real {
    (t - start) as real / 3_600_000_000.0
  }

  /** When, and with which pair, a repository first had a useful recall. */
  function FirstUseful(m: Manifest, useful: seq<Pair>): (Option<real>, Option<string>) {
    if useful == [] then (None, None)
    else (Some(HoursSince(m.start, Earliest(useful).observedAt)), Some(Earliest(useful).id))
  }

  /** Growth of rows, bytes and backlog from the first observation to the last. */
  function Growth(mine: seq<Pair>): (Option<int>, Option<int>, Option<int>) {
    if mine == [] then (None, None, None)
    else
      var first, last := Earliest(mine).treatment, Latest(mine).treatment;
      (Some(last.rowsAfter - first.rowsBefore), Some(last.bytesAfter - first.bytesBefore),
       Some(last.backlogAfter - first.backlogBefore))
  }

  function RepositoryReportOf(m: Manifest, mine: seq<Pair>): RepositoryReport {
    var (hours, id) := FirstUseful(m, Filter(USEFUL, mine));
    var (rows, bytes, backlog) := Growth(mine);
    RepositoryReport(|mine|, hours, id, rows, bytes, backlog)
  }

  function RepositoryEntry(m: Manifest, name: string, s: seq<Pair>): (string, RepositoryReport) {
    (name, RepositoryReportOf(m, Filter(InRepository(name), s)))
  }

  function ByRepository(m: Manifest, repositories: seq<Repository>, s: seq<Pair>): seq<(string, RepositoryReport)> {
    seq(|repositories|, i requires 0 <= i < |repositories| => RepositoryEntry(m, repositories[i].name, s))
  }

  /** Repositories that reached a useful recall. */
  function Activated(repos: seq<(string, RepositoryReport)>): nat {
    if repos == [] then 0
    else Activated(repos[..|repos| - 1]) + (if repos[|repos| - 1].1.firstUsefulHours.Some? then 1 else 0)
  }

  // ---------------------------------------------------------- other breakdowns

  datatype SurfaceReport = SurfaceReport(pairs: nat, injections: int, helpful: int, helpfulRatio: Option<real>,
                                         tokens: int, cost: Option<real>)

  function OnSurface(surface: Surface): Pair -> bool {
    (p: Pair) => p.treatment.surface == surface
  }

  /** In sorted order of their names. */
  const SURFACES: seq<Surface> := [ClaudeNative, Http, Mcp]

  function SurfaceReportOf(mine: seq<Pair>): SurfaceReport {
    SurfaceReport(|mine|, Sum(INJECTIONS, mine), Sum(HELPFUL, mine),
                  Ratio(Sum(HELPFUL, mine), Sum(HELPFUL, mine) + Sum(WRONG, mine) + Sum(STALE, mine)),
                  Sum(TOKENS, mine),
                  if mine != [] && AllCosted(mine) then Some(SumReal(COST, mine)) else None)
  }

  function Attribution(p: Pair): (string, Surface) {
    (p.treatment.common.agent, p.treatment.surface)
  }

  function AttributedTo(key: (string, Surface)): Pair -> bool {
    (p: Pair) => Attribution(p) == key
  }

  datatype AttributionReport = AttributionReport(pairs: nat, injections: int, helpful: int)

  function AttributionReportOf(mine: seq<Pair>): AttributionReport {
    AttributionReport(|mine|, Sum(INJECTIONS, mine), Sum(HELPFUL, mine))
  }

  function ByAttribution(s: seq<Pair>): map<(string, Surface), AttributionReport> {
    map key | key in (set p | p in s :: Attribution(p)) :: AttributionReportOf(Filter(AttributedTo(key), s))
  }

  function CategoryCount(category: string, examples: seq<string>): int {
    if examples == [] then 0
    else CategoryCount(category, examples[1..]) + (if examples[0] == category then 1 else 0)
  }

  function InCategory(category: string): Pair -> int {
    (p: Pair) => CategoryCount(category, p.examples)
  }

  function CategoryCounts(s: seq<Pair>): seq<int> {
    [Sum(InCategory("correction"), s), Sum(InCategory("friction"), s), Sum(InCategory("helpful"), s),
     Sum(InCategory("stale"), s), Sum(InCategory("wrong"), s)]
  }

  // -------------------------------------------------------------------- metrics

  /** Coverage and safety: what can stop the pilot. */
  datatype Safety = Safety(memoryErrors: int, contestedRegression: Option<real>, multiRegression: Option<real>,
                           provenanceCoverage: Option<real>, contestedCoverage: Option<real>)

  function SafetyOf(s: seq<Pair>): Safety {
    Safety(Sum(ERRORS, s),
           RegressionPp(Ratio(Sum(BASE_CONTESTED_CORRECT, s), Sum(BASE_CONTESTED, s)),
                        Ratio(Sum(TREAT_CONTESTED_CORRECT, s), Sum(TREAT_CONTESTED, s))),
           RegressionPp(Ratio(Sum(BASE_MULTI_CORRECT, s), Sum(BASE_MULTI, s)),
                        Ratio(Sum(TREAT_MULTI_CORRECT, s), Sum(TREAT_MULTI, s))),
           Ratio(Sum(LABELED, s), Sum(INJECTIONS, s)),
           Ratio(Sum(CONTESTED_LABELED, s), Sum(CONTESTED, s)))
  }

  /** What decides between GO and NO-GO. */
  datatype Worth = Worth(activation: real, helpful: Option<real>, wrong: Option<real>, stale: Option<real>,
                         successRegression: real, correctionRegression: real,
                         medianTurns: real, medianSeconds: real, exact: int, semantic: int,
                         backups: int, backupFailures: int, retentions: int, retentionFailures: int)

  function WorthOf(m: Manifest, stats: Statistics, s: seq<Pair>, repos: seq<(string, RepositoryReport)>): Worth
    requires s != [] && m.repositories != []
  {
    var n, rated := |s| as real, Sum(HELPFUL, s) + Sum(WRONG, s) + Sum(STALE, s);
    Worth(Activated(repos) as real / |m.repositories| as real,
          Ratio(Sum(HELPFUL, s), rated), Ratio(Sum(WRONG, s), rated), Ratio(Sum(STALE, s), rated),
          (Sum(BASE_SUCCESS, s) as real / n - Sum(TREAT_SUCCESS, s) as real / n) * 100.0,
          (Sum(TREAT_CORRECTED, s) as real / n - Sum(BASE_CORRECTED, s) as real / n) * 100.0,
          stats.median(Values(TURNS_SAVED, s)), stats.median(Values(SECONDS_SAVED, s)),
          Sum(EXACT, s), Sum(SEMANTIC, s),
          Sum(BACKUPS, s), Sum(BACKUP_FAILURES, s), Sum(RETENTIONS, s), Sum(RETENTION_FAILURES, s))
  }

  /** What is only reported. */
  datatype Facts = Facts(observed: nat, helpful: int, wrong: int, stale: int, ignored: int, staleWrongExact: int,
                         corrections: (int, int), success: (real, real), turnQuartiles: (real, real),
                         secondQuartiles: (real, real), tokens: int, tokensPerPair: real, cost: Option<real>,
                         retentionSeconds: real, backupSeconds: real, examples: seq<int>)

  function FactsOf(stats: Statistics, s: seq<Pair>): Facts
    requires s != []
  {
    var n := |s| as real;
    Facts(|s|, Sum(HELPFUL, s), Sum(WRONG, s), Sum(STALE, s), Sum(IGNORED, s), Sum(STALE_WRONG_EXACT, s),
          (Sum(BASE_CORRECTIONS, s), Sum(TREAT_CORRECTIONS, s)),
          (Sum(BASE_SUCCESS, s) as real / n, Sum(TREAT_SUCCESS, s) as real / n),
          stats.quartiles(Values(TURNS_SAVED, s)), stats.quartiles(Values(SECONDS_SAVED, s)),
          Sum(TOKENS, s), Sum(TOKENS, s) as real / n,
          if AllCosted(s) then Some(SumReal(COST, s)) else None,
          SumReal(RETENTION_SECONDS, s), SumReal(BACKUP_SECONDS, s), CategoryCounts(s))
  }

  // -------------------------------------------------------------------- verdict

  function When(condition: bool, reason: Reason): seq<Reason> {
    if condition then [reason] else []
  }

  function StopReasons(x: Safety, final: bool): seq<Reason> {
    When(x.memoryErrors > 0, MemoryInducedError)
    + When(x.contestedRegression.None? && final, ContestedUnmeasured)
    + When(x.contestedRegression.Some? && x.contestedRegression.value > 1.0, ContestedRegressed)
    + When(x.multiRegression.None? && final, MultiUnmeasured)
    + When(x.multiRegression.Some? && x.multiRegression.value > 1.0, MultiRegressed)
    + When(if x.provenanceCoverage.None? then final else x.provenanceCoverage.value < 1.0, ProvenanceUnlabeled)
    + When(if x.contestedCoverage.None? then final else x.contestedCoverage.value < 1.0, ContestedUnlabeled)
  }

  function RepositoryReasons(repos: seq<(string, RepositoryReport)>): seq<Reason> {
    if repos == [] then []
    else
      var (name, r) := repos[|repos| - 1];
      RepositoryReasons(repos[..|repos| - 1])
      + When(r.firstUsefulHours.None? || r.firstUsefulHours.value > 72.0, MissedActivation(name))
      + When(r.backlogGrowth.None? || r.backlogGrowth.value > 0, BacklogGrew(name))
  }

  function HelpReasons(x: Worth): seq<Reason> {
    When(x.helpful.None?, HelpfulUnmeasured) + When(x.wrong.None?, WrongUnmeasured)
    + When(x.stale.None?, StaleUnmeasured)
    + When(x.helpful.Some? && x.helpful.value < 0.80, HelpfulLow)
    + When(x.wrong.Some? && x.wrong.value > 0.10, WrongHigh)
    + When(x.stale.Some? && x.stale.value > 0.10, StaleHigh)
  }

  function EffortReasons(x: Worth): seq<Reason> {
    When(x.successRegression > 1.0, SuccessRegressed)
    + When(x.correctionRegression > 1.0, CorrectionsRegressed)
    + When(x.medianTurns < 0.0, TurnsRegressed)
    + When(x.medianSeconds < 0.0, TimeRegressed)
    + When(x.medianTurns == 0.0 && x.medianSeconds == 0.0, NoEfficiencyGain)
    + When(x.exact < 1, ExactBelow)
  }

  function CareReasons(x: Worth): seq<Reason> {
    When(x.semantic < 1, SemanticBelow) + When(x.backups < 1, BackupsBelow)
    + When(x.retentions < 1, RetentionsBelow)
    + When(x.backupFailures > 0, BackupFailed) + When(x.retentionFailures > 0, RetentionFailed)
  }

  function NoGoReasons(x: Worth, repos: seq<(string, RepositoryReport)>): seq<Reason> {
    When(x.activation < 1.0, NotEveryRepository) + RepositoryReasons(repos)
    + HelpReasons(x) + EffortReasons(x) + CareReasons(x)
  }

  datatype Report = Report(verdict: Verdict, stopReasons: seq<Reason>, noGoReasons: seq<Reason>, safety: Safety,
                           worth: Worth, facts: Facts, byRepository: seq<(string, RepositoryReport)>,
                           bySurface: seq<SurfaceReport>, byAttribution: map<(string, Surface), AttributionReport>,
                           unmeasured: seq<Unmeasured>)

  /** The verdict and its reasons, from the measured parts. */
  function Assemble(final: bool, safety: Safety, worth: Worth, facts: Facts, repos: seq<(string, RepositoryReport)>,
                    surfaces: seq<SurfaceReport>, attribution: map<(string, Surface), AttributionReport>,
                    costed: bool): Report
  {
    var stop := StopReasons(safety, final);
    var noGo := if final && stop == [] then NoGoReasons(worth, repos) else [];
    Report(if stop != [] then Stop else if final && noGo != [] then NoGo else if final then Go else Continue,
           stop, noGo, safety, worth, facts, repos, surfaces, attribution,
           UnmeasuredIn(costed, safety))
  }

  function UnmeasuredIn(costed: bool, safety: Safety): seq<Unmeasured> {
    (if costed then [] else [Cost])
    + (if safety.contestedRegression.None? then [ContestedCorrectness] else [])
    + (if safety.multiRegression.None? then [MultiCorrectness] else [])
  }

  function BySurface(s: seq<Pair>): seq<SurfaceReport> {
    seq(|SURFACES|, i requires 0 <= i < |SURFACES| => SurfaceReportOf(Filter(OnSurface(SURFACES[i]), s)))
  }

  /** The report on observations in the given order. */
  function ReportOf(m: Manifest, stats: Statistics, s: seq<Pair>, final: bool): Report
    requires s != [] && m.repositories != []
  {
    var repos := ByRepository(m, m.repositories, s);
    Assemble(final, SafetyOf(s), WorthOf(m, stats, s, repos), FactsOf(stats, s), repos, BySurface(s),
             ByAttribution(s), AllCosted(s))
  }

  // ------------------------------------------------------------- acceptance

  function PlannedIds(m: Manifest): set<string> {
    Elements(Flat(PAIRS, m.repositories))
  }

  function PairIdsOf(s: seq<Pair>): seq<string> {
    Mapped((p: Pair) => p.id, s)
  }

  /** Observations the aggregation accepts. */
  ghost predicate Complete(m: Manifest, pairs: seq<Pair>, final: bool) {
    && pairs != []
    && (forall i :: 0 <= i < |pairs| ==> PairOk(m, pairs[i]))
    && NoDuplicates(PairIdsOf(pairs))
    && (final ==> Elements(PairIdsOf(pairs)) == PlannedIds(m))
    && Elements(PairIdsOf(pairs)) <= PlannedIds(m)
  }

  const OBSERVED: Pair -> int := (p: Pair) => p.observedAt
}
