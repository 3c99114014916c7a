/**
 What the pilot's report says, figure by figure, in plain totals of what the pairs themselves record
 (scripts/dogfood-pilot.py:571-863).
 */
module PilotFigures {
  import opened Common
  import opened Folds
  import opened PilotPlan
  import opened PilotReport

  // ---------------------------------------------------------------- plain totals

  /** Total over the pairs of one integer reading. */
  function Total(reading: Pair -> int, s: seq<Pair>): int {
    if s == [] then 0 else reading(s[0]) + Total(reading, s[1..])
  }

  function TotalReal(reading: Pair -> real, s: seq<Pair>): real {
    if s == [] then 0.0 else reading(s[0]) + TotalReal(reading, s[1..])
  }

  /** How many pairs there are of a kind. */
  function Number(kind: Pair -> bool, s: seq<Pair>): nat {
    if s == [] then 0 else (if kind(s[0]) then 1 else 0) + Number(kind, s[1..])
  }

  /** All the pairs' readings. */
  function Bag(reading: Pair -> real, s: seq<Pair>): multiset<real> {
    if s == [] then multiset{} else multiset{reading(s[0])} + Bag(reading, s[1..])
  }

  lemma {:induction false} TotalSnoc(reading: Pair -> int, s: seq<Pair>, p: Pair)
    ensures Total(reading, s + [p]) == Total(reading, s) + reading(p)
  {
    if s == [] {
      assert s + [p] == [p] && [p][1..] == [];
    } else {
      assert (s + [p])[0] == s[0] && (s + [p])[1..] == s[1..] + [p];
      TotalSnoc(reading, s[1..], p);
    }
  }

  lemma {:induction false} TotalRealSnoc(reading: Pair -> real, s: seq<Pair>, p: Pair)
    ensures TotalReal(reading, s + [p]) == TotalReal(reading, s) + reading(p)
  {
    if s == [] {
      assert s + [p] == [p] && [p][1..] == [];
    } else {
      assert (s + [p])[0] == s[0] && (s + [p])[1..] == s[1..] + [p];
      TotalRealSnoc(reading, s[1..], p);
    }
  }

  lemma {:induction false} NumberSnoc(kind: Pair -> bool, s: seq<Pair>, p: Pair)
    ensures Number(kind, s + [p]) == Number(kind, s) + if kind(p) then 1 else 0
  {
    if s == [] {
      assert s + [p] == [p] && [p][1..] == [];
    } else {
      assert (s + [p])[0] == s[0] && (s + [p])[1..] == s[1..] + [p];
      NumberSnoc(kind, s[1..], p);
    }
  }

  lemma {:induction false} BagSnoc(reading: Pair -> real, s: seq<Pair>, p: Pair)
    ensures Bag(reading, s + [p]) == Bag(reading, s) + multiset{reading(p)}
  {
    if s == [] {
      assert s + [p] == [p] && [p][1..] == [];
    } else {
      assert (s + [p])[0] == s[0] && (s + [p])[1..] == s[1..] + [p];
      BagSnoc(reading, s[1..], p);
    }
  }

  lemma {:induction false} SumIsTotal(f: Pair -> int, reading: Pair -> int, s: seq<Pair>)
    requires forall p :: f(p) == reading(p)
    ensures Sum(f, s) == Total(reading, s)
  {
    if s != [] {
      SumIsTotal(f, reading, s[..|s| - 1]);
      TotalSnoc(reading, s[..|s| - 1], s[|s| - 1]);
      assert s == s[..|s| - 1] + [s[|s| - 1]];
    }
  }

  lemma {:induction false} SumIsTotalReal(f: Pair -> real, reading: Pair -> real, s: seq<Pair>)
    requires forall p :: p in s ==> f(p) == reading(p)
    ensures SumReal(f, s) == TotalReal(reading, s)
  {
    if s != [] {
      assert s == s[..|s| - 1] + [s[|s| - 1]];
      SumIsTotalReal(f, reading, s[..|s| - 1]);
      TotalRealSnoc(reading, s[..|s| - 1], s[|s| - 1]);
    }
  }

  lemma {:induction false} SumIsNumber(f: Pair -> int, kind: Pair -> bool, s: seq<Pair>)
    requires forall p :: f(p) == if kind(p) then 1 else 0
    ensures Sum(f, s) == Number(kind, s)
  {
    if s != [] {
      SumIsNumber(f, kind, s[..|s| - 1]);
      NumberSnoc(kind, s[..|s| - 1], s[|s| - 1]);
      assert s == s[..|s| - 1] + [s[|s| - 1]];
    }
  }

  lemma {:induction false} ValuesAreBag(f: Pair -> multiset<real>, reading: Pair -> real, s: seq<Pair>)
    requires forall p :: f(p) == multiset{reading(p)}
    ensures Values(f, s) == Bag(reading, s)
  {
    if s != [] {
      ValuesAreBag(f, reading, s[..|s| - 1]);
      BagSnoc(reading, s[..|s| - 1], s[|s| - 1]);
      assert s == s[..|s| - 1] + [s[|s| - 1]];
    }
  }

  lemma {:induction false} SameFilter(f: Pair -> bool, g: Pair -> bool, s: seq<Pair>)
    requires forall p :: f(p) == g(p)
    ensures Filter(f, s) == Filter(g, s)
  {
    if s != [] { SameFilter(f, g, s[..|s| - 1]); }
  }

  lemma {:induction false} TotalOfNats(reading: Pair -> int, s: seq<Pair>)
    requires forall p :: p in s ==> reading(p) >= 0
    ensures Total(reading, s) >= 0
    ensures Total(reading, s) == 0 <==> forall p :: p in s ==> reading(p) == 0
  {
    if s != [] {
      assert s == [s[0]] + s[1..];
      TotalOfNats(reading, s[1..]);
    }
  }

  // ------------------------------------------------------------------- fractions

  /** `part` of `whole` is a fraction to be reported, or unmeasured. */
  ghost predicate IsRatio(r: Option<real>, part: int, whole: int) {
    if whole == 0 then r.None? else r.Some? && r.value * whole as real == part as real
  }

  lemma {:induction false} RatioIs(part: int, whole: int)
    ensures IsRatio(Ratio(part, whole), part, whole)
  {
  }

  /** So much for each of `n`. */
  ghost predicate IsShare(r: real, part: int, n: nat) {
    r * n as real == part as real
  }

  lemma {:induction false} ShareIs(part: int, n: nat)
    requires n > 0
    ensures IsShare(part as real / n as real, part, n)
  {
  }

  // ---------------------------------------------------------------- plain figures

  ghost predicate FactsSay(stats: Statistics, s: seq<Pair>, x: Facts)
    requires s != []
  {
    && x.observed == |s| && JudgementsSay(s, x) && CorrectionsSay(s, x) && SuccessSays(s, x)
    && QuartilesSay(stats, s, x) && TokensSay(s, x) && CostSays(s, x.cost) && SecondsSay(s, x)
    && x.examples == [ExamplesOf("correction", s), ExamplesOf("friction", s), ExamplesOf("helpful", s),
                      ExamplesOf("stale", s), ExamplesOf("wrong", s)]
  }

  ghost predicate JudgementsSay(s: seq<Pair>, x: Facts) {
    && x.helpful == Total((p: Pair) => p.treatment.helpful, s) && x.wrong == Total((p: Pair) => p.treatment.wrong, s)
    && x.stale == Total((p: Pair) => p.treatment.stale, s) && x.ignored == Total((p: Pair) => p.treatment.ignored, s)
    && x.staleWrongExact == Total((p: Pair) => p.treatment.staleWrongExact, s)
  }

  ghost predicate CorrectionsSay(s: seq<Pair>, x: Facts) {
    && x.corrections.0 == Total((p: Pair) => p.baseline.corrections, s)
    && x.corrections.1 == Total((p: Pair) => p.treatment.common.corrections, s)
  }

  ghost predicate SuccessSays(s: seq<Pair>, x: Facts) {
    && IsShare(x.success.0, Number((p: Pair) => p.baseline.taskSuccess, s), |s|)
    && IsShare(x.success.1, Number((p: Pair) => p.treatment.common.taskSuccess, s), |s|)
  }

  ghost predicate QuartilesSay(stats: Statistics, s: seq<Pair>, x: Facts) {
    && x.turnQuartiles == stats.quartiles(TurnsSaved(s)) && x.secondQuartiles == stats.quartiles(SecondsSaved(s))
  }

  /** What the treatment saved in each pair. */
  function TurnsSaved(s: seq<Pair>): multiset<real> {
    Bag((p: Pair) => (p.baseline.turns - p.treatment.common.turns) as real, s)
  }

  function SecondsSaved(s: seq<Pair>): multiset<real> {
    Bag((p: Pair) => p.baseline.activeSeconds - p.treatment.common.activeSeconds, s)
  }

  ghost predicate TokensSay(s: seq<Pair>, x: Facts) {
    x.tokens == Total((p: Pair) => p.treatment.tokens, s) && IsShare(x.tokensPerPair, x.tokens, |s|)
  }

  ghost predicate SecondsSay(s: seq<Pair>, x: Facts) {
    && x.retentionSeconds == TotalReal((p: Pair) => p.treatment.retentionSeconds, s)
    && x.backupSeconds == TotalReal((p: Pair) => p.treatment.backupSeconds, s)
  }

  /** The total cost, if every pair has one. */
  ghost predicate CostSays(s: seq<Pair>, cost: Option<real>) {
    && (cost.Some? <==> forall p :: p in s ==> p.treatment.cost.Some?)
    && (cost.Some? ==> cost.value == TotalReal((p: Pair) =>
          if p.treatment.cost.Some? then p.treatment.cost.value else 0.0, s))
  }

  function ExamplesOf(category: string, s: seq<Pair>): int {
    Total((p: Pair) => multiset(p.examples)[category], s)
  }

  lemma {:induction false} CategoryCountIs(category: string, examples: seq<string>)
    ensures CategoryCount(category, examples) == multiset(examples)[category]
  {
    if examples != [] {
      CategoryCountIs(category, examples[1..]);
      assert examples == [examples[0]] + examples[1..];
    }
  }

  lemma {:induction false} ExamplesAre(category: string, s: seq<Pair>)
    ensures Sum(InCategory(category), s) == ExamplesOf(category, s)
  {
    forall p ensures InCategory(category)(p) == multiset(p.examples)[category] {
      CategoryCountIs(category, p.examples);
    }
    SumIsTotal(InCategory(category), (p: Pair) => multiset(p.examples)[category], s);
  }

  lemma {:induction false} CostIs(s: seq<Pair>)
    ensures CostSays(s, if AllCosted(s) then Some(SumReal(COST, s)) else None)
  {
    SumIsTotalReal(COST, (p: Pair) => if p.treatment.cost.Some? then p.treatment.cost.value else 0.0, s);
  }

  lemma {:induction false} JudgementsAre(stats: Statistics, s: seq<Pair>)
    requires s != []
    ensures JudgementsSay(s, FactsOf(stats, s))
  {
    SumIsTotal(HELPFUL, (p: Pair) => p.treatment.helpful, s);
    SumIsTotal(WRONG, (p: Pair) => p.treatment.wrong, s);
    SumIsTotal(STALE, (p: Pair) => p.treatment.stale, s);
    SumIsTotal(IGNORED, (p: Pair) => p.treatment.ignored, s);
    SumIsTotal(STALE_WRONG_EXACT, (p: Pair) => p.treatment.staleWrongExact, s);
  }

  lemma {:induction false} CorrectionsAre(stats: Statistics, s: seq<Pair>)
    requires s != []
    ensures CorrectionsSay(s, FactsOf(stats, s))
  {
    SumIsTotal(BASE_CORRECTIONS, (p: Pair) => p.baseline.corrections, s);
    SumIsTotal(TREAT_CORRECTIONS, (p: Pair) => p.treatment.common.corrections, s);
  }

  lemma {:induction false} SuccessIs(stats: Statistics, s: seq<Pair>)
    requires s != []
    ensures SuccessSays(s, FactsOf(stats, s))
  {
    SumIsNumber(BASE_SUCCESS, (p: Pair) => p.baseline.taskSuccess, s);
    SumIsNumber(TREAT_SUCCESS, (p: Pair) => p.treatment.common.taskSuccess, s);
    ShareIs(Sum(BASE_SUCCESS, s), |s|);
    ShareIs(Sum(TREAT_SUCCESS, s), |s|);
  }

  lemma {:induction false} SavingsAre(s: seq<Pair>)
    ensures Values(TURNS_SAVED, s) == TurnsSaved(s) && Values(SECONDS_SAVED, s) == SecondsSaved(s)
  {
    ValuesAreBag(TURNS_SAVED, (p: Pair) => (p.baseline.turns - p.treatment.common.turns) as real, s);
    ValuesAreBag(SECONDS_SAVED, (p: Pair) => p.baseline.activeSeconds - p.treatment.common.activeSeconds, s);
  }

  lemma {:induction false} TokensAre(stats: Statistics, s: seq<Pair>)
    requires s != []
    ensures TokensSay(s, FactsOf(stats, s))
  {
    SumIsTotal(TOKENS, (p: Pair) => p.treatment.tokens, s);
    ShareIs(Sum(TOKENS, s), |s|);
  }

  lemma {:induction false} SecondsAre(stats: Statistics, s: seq<Pair>)
    requires s != []
    ensures SecondsSay(s, FactsOf(stats, s))
  {
    SumIsTotalReal(RETENTION_SECONDS, (p: Pair) => p.treatment.retentionSeconds, s);
    SumIsTotalReal(BACKUP_SECONDS, (p: Pair) => p.treatment.backupSeconds, s);
  }

  lemma {:induction false} CategoriesAre(s: seq<Pair>)
    ensures CategoryCounts(s) == [ExamplesOf("correction", s), ExamplesOf("friction", s), ExamplesOf("helpful", s),
                                  ExamplesOf("stale", s), ExamplesOf("wrong", s)]
  {
    ExamplesAre("correction", s);
    ExamplesAre("friction", s);
    ExamplesAre("helpful", s);
    ExamplesAre("stale", s);
    ExamplesAre("wrong", s);
  }

  /** Everything that is only reported. */
  lemma {:induction false} FactsAre(stats: Statistics, s: seq<Pair>)
    requires s != []
    ensures FactsSay(stats, s, FactsOf(stats, s))
  {
    JudgementsAre(stats, s);
    CorrectionsAre(stats, s);
    SuccessIs(stats, s);
    SavingsAre(s);
    TokensAre(stats, s);
    CostIs(s);
    SecondsAre(stats, s);
    CategoriesAre(s);
  }

  ghost predicate SurfaceSays(surface: Surface, s: seq<Pair>, x: SurfaceReport) {
    var mine := Filter((p: Pair) => p.treatment.surface == surface, s);
    && x.pairs == |mine| && x.injections == Total((p: Pair) => p.treatment.injections, mine)
    && x.helpful == Total((p: Pair) => p.treatment.helpful, mine)
    && IsRatio(x.helpfulRatio, x.helpful,
               Total((p: Pair) => p.treatment.helpful + p.treatment.wrong + p.treatment.stale, mine))
    && x.tokens == Total((p: Pair) => p.treatment.tokens, mine)
    && if mine == [] then x.cost.None? else CostSays(mine, x.cost)
  }

  lemma {:induction false} RatedIs(s: seq<Pair>)
    ensures Sum(HELPFUL, s) + Sum(WRONG, s) + Sum(STALE, s)
         == Total((p: Pair) => p.treatment.helpful + p.treatment.wrong + p.treatment.stale, s)
  {
    if s != [] {
      RatedIs(s[..|s| - 1]);
      TotalSnoc((p: Pair) => p.treatment.helpful + p.treatment.wrong + p.treatment.stale, s[..|s| - 1], s[|s| - 1]);
      assert s == s[..|s| - 1] + [s[|s| - 1]];
    }
  }

  lemma {:induction false} SurfaceIs(surface: Surface, s: seq<Pair>)
    ensures SurfaceSays(surface, s, SurfaceReportOf(Filter(OnSurface(surface), s)))
  {
    var mine := Filter((p: Pair) => p.treatment.surface == surface, s);
    SameFilter(OnSurface(surface), (p: Pair) => p.treatment.surface == surface, s);
    SumIsTotal(INJECTIONS, (p: Pair) => p.treatment.injections, mine);
    SumIsTotal(HELPFUL, (p: Pair) => p.treatment.helpful, mine);
    SumIsTotal(TOKENS, (p: Pair) => p.treatment.tokens, mine);
    RatedIs(mine);
    RatioIs(Sum(HELPFUL, mine), Sum(HELPFUL, mine) + Sum(WRONG, mine) + Sum(STALE, mine));
    CostIs(mine);
  }

  ghost predicate AttributionSays(s: seq<Pair>, parts: map<(string, Surface), AttributionReport>) {
    forall agent, surface ::
      && ((agent, surface) in parts <==>
            exists p :: p in s && p.treatment.common.agent == agent && p.treatment.surface == surface)
      && ((agent, surface) in parts ==> AttributedSays(agent, surface, s, parts[(agent, surface)]))
  }

  ghost predicate AttributedSays(agent: string, surface: Surface, s: seq<Pair>, x: AttributionReport) {
    var mine := Filter((p: Pair) => p.treatment.common.agent == agent && p.treatment.surface == surface, s);
    && x.pairs == |mine| && x.injections == Total((p: Pair) => p.treatment.injections, mine)
    && x.helpful == Total((p: Pair) => p.treatment.helpful, mine)
  }

  lemma {:induction false} AttributedIs(agent: string, surface: Surface, s: seq<Pair>)
    ensures AttributedSays(agent, surface, s, AttributionReportOf(Filter(AttributedTo((agent, surface)), s)))
  {
    var mine := Filter((p: Pair) => p.treatment.common.agent == agent && p.treatment.surface == surface, s);
    SameFilter(AttributedTo((agent, surface)),
               (p: Pair) => p.treatment.common.agent == agent && p.treatment.surface == surface, s);
    SumIsTotal(INJECTIONS, (p: Pair) => p.treatment.injections, mine);
    SumIsTotal(HELPFUL, (p: Pair) => p.treatment.helpful, mine);
  }

  lemma {:induction false} AttributionIs(s: seq<Pair>)
    ensures AttributionSays(s, ByAttribution(s))
  {
    var parts := ByAttribution(s);
    forall agent, surface
      ensures (agent, surface) in parts <==>
                exists p :: p in s && p.treatment.common.agent == agent && p.treatment.surface == surface
      ensures (agent, surface) in parts ==> AttributedSays(agent, surface, s, parts[(agent, surface)])
    {
      AttributedIs(agent, surface, s);
      if p :| p in s && p.treatment.common.agent == agent && p.treatment.surface == surface {
        assert Attribution(p) == (agent, surface);
      }
    }
  }

  // ------------------------------------------------------------- per repository

  /** An hour of observation time. */
  const HOUR: nat := 3_600_000_000

  function MineOf(name: string, s: seq<Pair>): seq<Pair> {
    Filter((p: Pair) => p.repository == name, s)
  }

  /** An earliest pair of the repository with a helpful injection. */
  ghost predicate FirstHelped(name: string, s: seq<Pair>, p: Pair) {
    && p in s && p.repository == name && p.treatment.helpful > 0
    && forall q :: q in s && q.repository == name && q.treatment.helpful > 0 ==> p.observedAt <= q.observedAt
  }

  ghost predicate NeverHelped(name: string, s: seq<Pair>) {
    forall p :: p in s && p.repository == name ==> p.treatment.helpful == 0
  }

  ghost predicate RepositorySays(m: Manifest, name: string, s: seq<Pair>, x: RepositoryReport) {
    var mine := MineOf(name, s);
    && x.observed == |mine| && FirstUsefulSays(m, name, s, x.firstUsefulHours, x.firstUsefulPair)
    && GrowthSays(mine, (x.rowGrowth, x.byteGrowth, x.backlogGrowth))
  }

  ghost predicate FirstUsefulSays(m: Manifest, name: string, s: seq<Pair>, hours: Option<real>, id: Option<string>) {
    && (hours.None? <==> NeverHelped(name, s)) && (id.None? <==> NeverHelped(name, s))
    && (id.Some? && hours.Some? ==>
          exists p :: FirstHelped(name, s, p) && id.value == p.id && IsShare(hours.value, p.observedAt - m.start, HOUR))
  }

  ghost predicate GrowthSays(mine: seq<Pair>, growth: (Option<int>, Option<int>, Option<int>)) {
    if mine == [] then growth == (None, None, None)
    else
      var first, last := Earliest(mine).treatment, Latest(mine).treatment;
      && growth.0 == Some(last.rowsAfter - first.rowsBefore) && growth.1 == Some(last.bytesAfter - first.bytesBefore)
      && growth.2 == Some(last.backlogAfter - first.backlogBefore)
  }

  lemma {:induction false} GrowthIs(mine: seq<Pair>)
    ensures GrowthSays(mine, Growth(mine))
  {
  }

  lemma {:induction false} MineIs(name: string, s: seq<Pair>)
    ensures Filter(InRepository(name), s) == MineOf(name, s)
    ensures forall p :: p in MineOf(name, s) <==> p in s && p.repository == name
  {
    SameFilter(InRepository(name), (p: Pair) => p.repository == name, s);
    FilterMembers((p: Pair) => p.repository == name, s);
  }

  lemma {:induction false} FirstUsefulIs(m: Manifest, name: string, s: seq<Pair>)
    ensures var (hours, id) := FirstUseful(m, Filter(USEFUL, MineOf(name, s)));
            FirstUsefulSays(m, name, s, hours, id)
  {
    var useful := Filter(USEFUL, MineOf(name, s));
    UsefulAre(name, s);
    if useful != [] {
      FirstIsFirst(name, s, useful);
      HoursAre(m.start, Earliest(useful).observedAt);
    }
  }

  lemma {:induction false} FirstIsFirst(name: string, s: seq<Pair>, useful: seq<Pair>)
    requires useful != []
    requires forall p :: p in useful <==> p in s && p.repository == name && p.treatment.helpful > 0
    ensures FirstHelped(name, s, Earliest(useful)) && !NeverHelped(name, s)
  {
    assert Earliest(useful) in useful;
  }

  lemma {:induction false} HoursAre(start: Time, t: Time)
    ensures IsShare(HoursSince(start, t), t - start, HOUR)
  {
    assert HOUR as real == 3_600_000_000.0;
  }

  lemma {:induction false} UsefulAre(name: string, s: seq<Pair>)
    ensures forall p :: p in Filter(USEFUL, MineOf(name, s)) <==>
                          p in s && p.repository == name && p.treatment.helpful > 0
    ensures Filter(USEFUL, MineOf(name, s)) == [] <==> NeverHelped(name, s)
  {
    var useful := Filter(USEFUL, MineOf(name, s));
    MineIs(name, s);
    FilterMembers(USEFUL, MineOf(name, s));
    if useful != [] { assert useful[0] in useful; }
  }

  lemma {:induction false} RepositoryIs(m: Manifest, name: string, s: seq<Pair>)
    ensures RepositorySays(m, name, s, RepositoryEntry(m, name, s).1)
  {
    MineIs(name, s);
    FirstUsefulIs(m, name, s);
    GrowthIs(MineOf(name, s));
  }
}
