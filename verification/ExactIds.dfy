/**
 The exact-ID report: the producer's set assertions and totals, the checker's recomputation of
 them from JSON, and their agreement
 (crates/rb-eval/src/assertion_precision.rs:69-87, 134-281; scripts/scorecard-controls.py:223-331).
 */
module ExactIds {
  import opened Common
  import opened Order

  const REQUIRED: set<string> := {"supersede-chain", "five-slot-budget", "namespace-selection"}

  // --------------------------------------------------------------------- JSON

  /** The field names either side mentions; anything else is `Other`. */
  datatype Key =
    | SchemaVersion | JudgeUsed | NoJudgeStatement | Cases | PassedCases | TotalCases | PassedRequiredCases
    | RequiredCases | AllCasesPassed | PrecisionGatePassed
    | Id | GateRequired | Queries | Passed
    | ExpectedIds | ReturnedIds | ReturnedEvidence | MissingIds | ExtraIds | DuplicateIds
    | Other(name: string)

  datatype Json =
    | Null
    | Bool(b: bool)
    | Number(n: real)
    | Text(s: string)
    | List(items: seq<Json>)
    | Object(fields: map<Key, Json>)

  /** An absent field reads as null. */
  function Get(j: Json, key: Key): Json {
    if j.Object? && key in j.fields then j.fields[key] else Null
  }

  /** Equality with a number, where booleans count as 0 and 1. */
  predicate EqualsNumber(j: Json, n: real) {
    (j.Number? && j.n == n) || (j.Bool? && (if j.b then 1.0 else 0.0) == n)
  }

  predicate EqualsBool(j: Json, b: bool) {
    EqualsNumber(j, if b then 1.0 else 0.0)
  }

  predicate IsTexts(j: Json) {
    j.List? && forall i :: 0 <= i < |j.items| ==> j.items[i].Text?
  }

  function Strings(j: Json): (r: seq<string>)
    requires IsTexts(j)
    ensures |r| == |j.items|
    ensures forall i :: 0 <= i < |r| ==> r[i] == j.items[i].s
  {
    seq(|j.items|, i requires 0 <= i < |j.items| => j.items[i].s)
  }

  function Texts(s: seq<string>): (j: Json)
    ensures IsTexts(j) && Strings(j) == s
  {
    var j := List(seq(|s|, i requires 0 <= i < |s| => Text(s[i])));
    assert Strings(j) == s;
    j
  }

  // --------------------------------------------------------------- exact sets

  /** The ids that occur more than once. */
  function Repeated(s: seq<string>): set<string> {
    set i | 0 <= i < |s| && s[i] in s[..i] :: s[i]
  }

  lemma RepeatedEmpty(s: seq<string>)
    ensures Repeated(s) == {} <==> NoDuplicates(s)
  {
    if !NoDuplicates(s) {
      var i, j :| 0 <= i < j < |s| && s[i] == s[j];
      assert s[..j][i] == s[j] && s[j] in Repeated(s);
    }
    if Repeated(s) != {} {
      var x :| x in Repeated(s);
      var j :| 0 <= j < |s| && s[j] in s[..j] && s[j] == x;
      var i :| 0 <= i < j && s[..j][i] == s[j];
      assert s[i] == s[j];
    }
  }

  /** A query returned exactly the expected ids, each once. */
  ghost predicate Exact(expected: seq<string>, returned: seq<string>) {
    Elements(expected) == Elements(returned) && NoDuplicates(returned)
  }

  // ----------------------------------------------------------------- producer

  datatype Assertion = Assertion(expected: seq<string>, returned: seq<string>, missing: seq<string>,
                                 extra: seq<string>, repeated: seq<string>, passed: bool)

  datatype Query = Query(expected: seq<string>, returned: seq<string>)

  datatype Case = Case(id: string, gateRequired: bool, queries: seq<Query>)

  datatype CaseReport = CaseReport(id: string, gateRequired: bool, queries: seq<Assertion>, passed: bool)

  datatype Report = Report(cases: seq<CaseReport>, passedCases: nat, passedRequired: nat, requiredCases: nat)

  /** Ids seen before are repeated ones. */
  method RepeatedIds(s: seq<string>) returns (r: set<string>)
    ensures r == Repeated(s)
  {
    var seen: set<string> := {};
    r := {};
    for i := 0 to |s|
      invariant seen == Elements(s[..i]) && r == Repeated(s[..i])
    {
      RepeatedNext(s, i);
      if s[i] in seen {
        r := r + {s[i]};
      }
      seen := seen + {s[i]};
    }
    assert s[..|s|] == s;
  }

  lemma RepeatedNext(s: seq<string>, i: nat)
    requires i < |s|
    ensures Repeated(s[..i + 1]) == Repeated(s[..i]) + if s[i] in s[..i] then {s[i]} else {}
    ensures Elements(s[..i + 1]) == Elements(s[..i]) + {s[i]}
  {
  }

  /** What an assertion must say about its two id lists. */
  ghost predicate IsAssertion(a: Assertion, q: Query) {
    var e, r := Elements(q.expected), Elements(q.returned);
    && IsSorted(a.expected, e) && a.returned == q.returned
    && IsSorted(a.missing, e - r) && IsSorted(a.extra, r - e) && IsSorted(a.repeated, Repeated(q.returned))
    && (a.passed <==> Exact(q.expected, q.returned))
  }

  method AssertExactIds(q: Query) returns (a: Assertion)
    ensures IsAssertion(a, q)
  {
    var e, r := Elements(q.expected), Elements(q.returned);
    var again := RepeatedIds(q.returned);
    RepeatedEmpty(q.returned);
    var expected := SortedElements(e);
    var missing := SortedElements(e - r);
    var extra := SortedElements(r - e);
    var repeated := SortedElements(again);
    a := Assertion(expected, q.returned, missing, extra, repeated, e == r && again == {});
  }

  ghost predicate CasePasses(c: Case) {
    c.queries != [] && forall i :: 0 <= i < |c.queries| ==> Exact(c.queries[i].expected, c.queries[i].returned)
  }

  ghost predicate IsCaseReport(r: CaseReport, c: Case) {
    && r.id == c.id && r.gateRequired == c.gateRequired && |r.queries| == |c.queries|
    && (forall i :: 0 <= i < |c.queries| ==> IsAssertion(r.queries[i], c.queries[i]))
    && (r.passed <==> CasePasses(c))
  }

  method RunCase(c: Case) returns (r: CaseReport)
    ensures IsCaseReport(r, c)
  {
    var queries: seq<Assertion> := [];
    var all := true;
    for i := 0 to |c.queries|
      invariant |queries| == i
      invariant forall k :: 0 <= k < i ==> IsAssertion(queries[k], c.queries[k])
      invariant all <==> forall k :: 0 <= k < i ==> Exact(c.queries[k].expected, c.queries[k].returned)
    {
      var a := AssertExactIds(c.queries[i]);
      queries := queries + [a];
      all := all && a.passed;
    }
    r := CaseReport(c.id, c.gateRequired, queries, c.queries != [] && all);
  }

  function Count<T>(keep: T -> bool, s: seq<T>): (n: nat)
    ensures n <= |s|
  {
    if s == [] then 0 else Count(keep, s[..|s| - 1]) + if keep(s[|s| - 1]) then 1 else 0
  }

  const PASSED: CaseReport -> bool := (c: CaseReport) => c.passed
  const REQUIRES: CaseReport -> bool := (c: CaseReport) => c.gateRequired
  const PASSED_REQUIRED: CaseReport -> bool := (c: CaseReport) => c.gateRequired && c.passed

  /** The fixture the producer accepts. */
  ghost predicate FixtureOk(cases: seq<Case>) {
    && NoDuplicates(CaseIds(cases))
    && NamedRequired(cases) == REQUIRED
  }

  function NamedRequired(cases: seq<Case>): set<string> {
    set i | 0 <= i < |cases| && cases[i].gateRequired :: cases[i].id
  }

  ghost predicate IsReport(r: Report, cases: seq<Case>) {
    && |r.cases| == |cases|
    && (forall i :: 0 <= i < |cases| ==> IsCaseReport(r.cases[i], cases[i]))
    && r.passedCases == Count(PASSED, r.cases)
    && r.passedRequired == Count(PASSED_REQUIRED, r.cases)
    && r.requiredCases == Count(REQUIRES, r.cases)
  }

  function CaseIds(cases: seq<Case>): seq<string> {
    Mapped((c: Case) => c.id, cases)
  }

  datatype FixtureError = RepeatedCaseId | RequiredCasesChanged

  method RunCommitted(cases: seq<Case>) returns (r: Result<Report, FixtureError>)
    ensures r.Ok? <==> FixtureOk(cases)
    ensures r.Ok? ==> IsReport(r.value, cases)
  {
    DistinctIff(CaseIds(cases));
    if |Elements(CaseIds(cases))| != |cases| {
      return Err(RepeatedCaseId);
    }
    if NamedRequired(cases) != REQUIRED {
      return Err(RequiredCasesChanged);
    }
    var reports: seq<CaseReport> := [];
    for i := 0 to |cases|
      invariant |reports| == i && forall k :: 0 <= k < i ==> IsCaseReport(reports[k], cases[k])
    {
      var report := RunCase(cases[i]);
      reports := reports + [report];
    }
    r := Ok(Report(reports, Count(PASSED, reports), Count(PASSED_REQUIRED, reports), Count(REQUIRES, reports)));
  }

  // ------------------------------------------------------------------- checker

  /** The returned evidence is a list of objects whose ids are the returned ids in order. */
  predicate EvidenceMatches(evidence: Json, returned: Json) {
    && evidence.List? && returned.List? && |evidence.items| == |returned.items|
    && forall i :: 0 <= i < |evidence.items| ==>
         evidence.items[i].Object? && Get(evidence.items[i], Id) == returned.items[i]
  }

  /** A query's verdict, as recomputed. */
  ghost predicate QueryPasses(q: Json)
    requires IsTexts(Get(q, ExpectedIds)) && IsTexts(Get(q, ReturnedIds))
  {
    Exact(Strings(Get(q, ExpectedIds)), Strings(Get(q, ReturnedIds)))
  }

  ghost predicate IsSortedTexts(j: Json, s: set<string>) {
    IsTexts(j) && IsSorted(Strings(j), s)
  }

  /** A query object is consistent: all its derived lists and its verdict follow from its id lists. */
  ghost predicate QueryOk(q: Json) {
    && q.Object? && IsTexts(Get(q, ExpectedIds)) && IsTexts(Get(q, ReturnedIds))
    && var expected, returned := Strings(Get(q, ExpectedIds)), Strings(Get(q, ReturnedIds));
    && NoDuplicates(expected)
    && EvidenceMatches(Get(q, ReturnedEvidence), Get(q, ReturnedIds))
    && IsSortedTexts(Get(q, MissingIds), Elements(expected) - Elements(returned))
    && IsSortedTexts(Get(q, ExtraIds), Elements(returned) - Elements(expected))
    && IsSortedTexts(Get(q, DuplicateIds), Repeated(returned))
    && Get(q, Passed).Bool? && (Get(q, Passed).b <==> QueryPasses(q))
  }

  /** The checker's list comparison: equal to the sorted list exactly when it is that sorted list. */
  method MatchesSorted(j: Json, s: set<string>) returns (ok: bool)
    ensures ok <==> IsSortedTexts(j, s)
  {
    var sorted := SortedElements(s);
    ok := j == Texts(sorted);
    if IsSortedTexts(j, s) {
      SortedUnique(Strings(j), sorted);
    }
  }

  method CheckQuery(q: Json) returns (ok: bool, passed: bool)
    ensures ok <==> QueryOk(q)
    ensures ok ==> (passed <==> QueryPasses(q))
  {
    passed := false;
    if !q.Object? || !IsTexts(Get(q, ExpectedIds)) || !IsTexts(Get(q, ReturnedIds)) {
      return false, false;
    }
    var expected, returned := Strings(Get(q, ExpectedIds)), Strings(Get(q, ReturnedIds));
    var e, r := Elements(expected), Elements(returned);
    DistinctIff(expected);
    if |e| != |expected| || !EvidenceMatches(Get(q, ReturnedEvidence), Get(q, ReturnedIds)) {
      return false, false;
    }
    var again := CountedTwice(returned);
    RepeatedEmpty(returned);
    passed := e - r == {} && r - e == {} && again == {};
    assert passed <==> QueryPasses(q);
    var missing := MatchesSorted(Get(q, MissingIds), e - r);
    var extra := MatchesSorted(Get(q, ExtraIds), r - e);
    var repeated := MatchesSorted(Get(q, DuplicateIds), again);
    ok := missing && extra && repeated && Get(q, Passed) == Bool(passed);
  }

  /** A list is free of duplicates exactly when its set is as large. */
  lemma {:induction false} DistinctIff(s: seq<string>)
    ensures |Elements(s)| <= |s|
    ensures |Elements(s)| == |s| <==> NoDuplicates(s)
  {
    if s != [] {
      var front, last := s[..|s| - 1], s[|s| - 1];
      DistinctIff(front);
      assert s == front + [last];
      ElementsConcat(front, [last]);
      assert Elements([last]) == {last};
      if NoDuplicates(s) { assert last !in front; }
      if last in front { assert Elements(s) == Elements(front); }
    }
  }

  /** The checker's way to the repeated ids: count every id, keep those counted twice or more. */
  method CountedTwice(s: seq<string>) returns (r: set<string>)
    ensures r == Repeated(s)
  {
    var counts: map<string, nat> := map[];
    r := {};
    for i := 0 to |s|
      invariant counts.Keys == Elements(s[..i])
      invariant forall x :: x in counts ==> counts[x] >= 1 && (counts[x] > 1 <==> x in Repeated(s[..i]))
      invariant Repeated(s[..i]) <= counts.Keys
    {
      RepeatedNext(s, i);
      var n := if s[i] in counts then counts[s[i]] else 0;
      counts := counts[s[i] := n + 1];
    }
    assert s[..|s|] == s;
    r := set x | x in counts && counts[x] > 1;
  }

  ghost predicate QueriesOk(queries: Json) {
    queries.List? && queries.items != [] && forall i :: 0 <= i < |queries.items| ==> QueryOk(queries.items[i])
  }

  ghost predicate QueriesPass(queries: Json)
    requires QueriesOk(queries)
  {
    forall i :: 0 <= i < |queries.items| ==> QueryPasses(queries.items[i])
  }

  ghost predicate CaseOk(c: Json) {
    && c.Object? && Get(c, Id).Text? && Get(c, Id).s != "" && Get(c, GateRequired).Bool?
    && QueriesOk(Get(c, Queries))
    && Get(c, Passed).Bool? && (Get(c, Passed).b <==> QueriesPass(Get(c, Queries)))
  }

  method CheckCase(c: Json) returns (ok: bool, passed: bool)
    ensures ok <==> CaseOk(c)
    ensures ok ==> passed == Get(c, Passed).b
  {
    passed := false;
    if !c.Object? || !Get(c, Id).Text? || Get(c, Id).s == "" || !Get(c, GateRequired).Bool? {
      return false, false;
    }
    var queries := Get(c, Queries);
    if !queries.List? || queries.items == [] {
      return false, false;
    }
    passed := true;
    for i := 0 to |queries.items|
      invariant forall k :: 0 <= k < i ==> QueryOk(queries.items[k])
      invariant passed <==> forall k :: 0 <= k < i ==> QueryPasses(queries.items[k])
    {
      var fine, hit := CheckQuery(queries.items[i]);
      if !fine {
        return false, false;
      }
      passed := passed && hit;
    }
    ok := Get(c, Passed) == Bool(passed);
  }

  /** Ids of the cases that must pass. */
  ghost function RequiredIds(cases: seq<Json>): set<string> {
    set i | 0 <= i < |cases| && Get(cases[i], GateRequired) == Bool(true) && Get(cases[i], Id).Text? ::
      Get(cases[i], Id).s
  }

  ghost predicate DistinctIds(cases: seq<Json>) {
    forall i, j :: 0 <= i < j < |cases| ==> Get(cases[i], Id) != Get(cases[j], Id)
  }

  predicate CountsPassed(c: Json) {
    Get(c, Passed) == Bool(true)
  }

  predicate CountsRequired(c: Json) {
    Get(c, GateRequired) == Bool(true)
  }

  const JSON_PASSED: Json -> bool := (c: Json) => CountsPassed(c)
  const JSON_REQUIRED: Json -> bool := (c: Json) => CountsRequired(c)
  const JSON_PASSED_REQUIRED: Json -> bool := (c: Json) => CountsRequired(c) && CountsPassed(c)

  datatype Summary = Summary(gatePassed: bool, passedRequired: nat, requiredCases: nat, passedCases: nat,
                             totalCases: nat)

  predicate HeaderOk(data: Json) {
    && data.Object? && EqualsNumber(Get(data, SchemaVersion), 2.0) && Get(data, JudgeUsed) == Bool(false)
    && Get(data, NoJudgeStatement).Text? && Get(data, NoJudgeStatement).s != ""
    && Get(data, Cases).List? && Get(data, Cases).items != []
  }

  function SummaryOf(cases: seq<Json>): Summary {
    var passedRequired, required := Count(JSON_PASSED_REQUIRED, cases), Count(JSON_REQUIRED, cases);
    Summary(required > 0 && passedRequired == required, passedRequired, required, Count(JSON_PASSED, cases), |cases|)
  }

  predicate TotalsOk(data: Json, t: Summary) {
    && EqualsNumber(Get(data, PassedCases), t.passedCases as real)
    && EqualsNumber(Get(data, TotalCases), t.totalCases as real)
    && EqualsNumber(Get(data, PassedRequiredCases), t.passedRequired as real)
    && EqualsNumber(Get(data, RequiredCases), t.requiredCases as real)
    && EqualsBool(Get(data, AllCasesPassed), t.passedCases == t.totalCases)
    && EqualsBool(Get(data, PrecisionGatePassed), t.gatePassed)
  }

  /** A consistent report, said without the checker's loops. */
  ghost predicate Consistent(data: Json) {
    && HeaderOk(data)
    && var cases := Get(data, Cases).items;
    && AllCasesOk(cases) && DistinctIds(cases)
    && RequiredIds(cases) == REQUIRED
    && TotalsOk(data, SummaryOf(cases))
  }

  /** The case ids read so far are distinct and are exactly those seen. */
  ghost predicate Seen(cases: seq<Json>, i: nat, ids: set<string>)
    requires i <= |cases|
  {
    && (forall j, k :: 0 <= j < k < i ==> Get(cases[j], Id) != Get(cases[k], Id))
    && (forall k :: 0 <= k < i ==> Get(cases[k], Id).Text? && Get(cases[k], Id).s in ids)
    && (forall x :: x in ids ==> exists k :: 0 <= k < i && Get(cases[k], Id) == Text(x))
  }

  /** The checker's running counters. */
  datatype Counts = Counts(passed: nat, required: nat, passedRequired: nat, ids: set<string>)

  function Advance(c: Counts, passed: bool, required: bool, id: string): Counts {
    Counts(c.passed + (if passed then 1 else 0), c.required + (if required then 1 else 0),
           c.passedRequired + (if required && passed then 1 else 0), c.ids + (if required then {id} else {}))
  }

  ghost predicate Counted(cases: seq<Json>, c: Counts) {
    && c.passed == Count(JSON_PASSED, cases) && c.required == Count(JSON_REQUIRED, cases)
    && c.passedRequired == Count(JSON_PASSED_REQUIRED, cases) && c.ids == RequiredIds(cases)
  }

  lemma CountedNext(cases: seq<Json>, i: nat, c: Counts, passed: bool, required: bool, id: string)
    requires i < |cases| && Counted(cases[..i], c)
    requires Get(cases[i], Passed) == Bool(passed) && Get(cases[i], GateRequired) == Bool(required)
    requires Get(cases[i], Id) == Text(id)
    ensures Counted(cases[..i + 1], Advance(c, passed, required, id))
  {
    assert cases[..i + 1][..i] == cases[..i] && cases[..i + 1][i] == cases[i];
  }

  ghost predicate AllCasesOk(cases: seq<Json>) {
    forall i :: 0 <= i < |cases| ==> CaseOk(cases[i])
  }

  /** One case: its id, whether it must pass and whether it does, if it is consistent. */
  method ReadCase(c: Json) returns (ok: bool, id: string, required: bool, passed: bool)
    ensures ok <==> CaseOk(c)
    ensures ok ==> Get(c, Id) == Text(id) && Get(c, GateRequired) == Bool(required) && Get(c, Passed) == Bool(passed)
  {
    ok, passed := CheckCase(c);
    id, required := "", false;
    if ok {
      id, required := Get(c, Id).s, Get(c, GateRequired).b;
    }
  }

  /** The first `i` cases are consistent, their ids are those seen, and they are counted. */
  ghost predicate Checked(cases: seq<Json>, i: nat, ids: set<string>, c: Counts)
    requires i <= |cases|
  {
    AllCasesOk(cases[..i]) && Seen(cases, i, ids) && Counted(cases[..i], c)
  }

  lemma CheckedNone(cases: seq<Json>)
    ensures Checked(cases, 0, {}, Counts(0, 0, 0, {}))
  {
    assert RequiredIds(cases[..0]) == {};
  }

  lemma CheckedNext(cases: seq<Json>, i: nat, ids: set<string>, c: Counts, passed: bool, required: bool, id: string)
    requires i < |cases| && Checked(cases, i, ids, c) && CaseOk(cases[i])
    requires Get(cases[i], Passed) == Bool(passed) && Get(cases[i], GateRequired) == Bool(required)
    requires Get(cases[i], Id) == Text(id) && id !in ids
    ensures Checked(cases, i + 1, ids + {id}, Advance(c, passed, required, id))
  {
    assert cases[..i + 1] == cases[..i] + [cases[i]];
    CountedNext(cases, i, c, passed, required, id);
  }

  lemma CheckedAll(cases: seq<Json>, ids: set<string>, c: Counts)
    requires Checked(cases, |cases|, ids, c)
    ensures AllCasesOk(cases) && DistinctIds(cases) && Counted(cases, c)
  {
    assert cases[..|cases|] == cases;
  }

  /** The loop over all cases: every case consistent, ids unique, and the counters. */
  method CheckCases(cases: seq<Json>) returns (ok: bool, c: Counts)
    ensures ok <==> AllCasesOk(cases) && DistinctIds(cases)
    ensures ok ==> Counted(cases, c)
  {
    var ids: set<string> := {};
    c := Counts(0, 0, 0, {});
    CheckedNone(cases);
    for i := 0 to |cases|
      invariant Checked(cases, i, ids, c)
    {
      var fine, id, required, passed := ReadCase(cases[i]);
      if !fine {
        return false, c;
      }
      if id in ids {
        return false, c;
      }
      CheckedNext(cases, i, ids, c, passed, required, id);
      ids := ids + {id};
      c := Advance(c, passed, required, id);
    }
    CheckedAll(cases, ids, c);
    ok := true;
  }

  method ExactIdReport(data: Json) returns (r: Option<Summary>)
    ensures r.Some? <==> Consistent(data)
    ensures r.Some? ==> r.value == SummaryOf(Get(data, Cases).items)
  {
    if !HeaderOk(data) {
      return None;
    }
    var cases := Get(data, Cases).items;
    var ok, c := CheckCases(cases);
    var t := Summary(c.required > 0 && c.passedRequired == c.required, c.passedRequired, c.required, c.passed, |cases|);
    r := if ok && c.ids == REQUIRED && TotalsOk(data, t) then Some(t) else None;
  }

  // ----------------------------------------------------------------- agreement

  const STATEMENT := "no model judge"

  function Evidence(ids: seq<string>): Json {
    List(seq(|ids|, i requires 0 <= i < |ids| => Object(map[Id := Text(ids[i])])))
  }

  /** The producer's report as it is serialized. */
  function RenderQuery(a: Assertion): Json {
    Object(map[ExpectedIds := Texts(a.expected), ReturnedIds := Texts(a.returned),
               ReturnedEvidence := Evidence(a.returned),
               MissingIds := Texts(a.missing), ExtraIds := Texts(a.extra), DuplicateIds := Texts(a.repeated),
               Passed := Bool(a.passed)])
  }

  function RenderQueries(queries: seq<Assertion>): Json {
    List(seq(|queries|, i requires 0 <= i < |queries| => RenderQuery(queries[i])))
  }

  function RenderCase(c: CaseReport): Json {
    Object(map[Id := Text(c.id), GateRequired := Bool(c.gateRequired), Queries := RenderQueries(c.queries),
               Passed := Bool(c.passed)])
  }

  function RenderCases(cases: seq<CaseReport>): (r: seq<Json>)
    ensures |r| == |cases|
    ensures forall i :: 0 <= i < |cases| ==> r[i] == RenderCase(cases[i])
  {
    seq(|cases|, i requires 0 <= i < |cases| => RenderCase(cases[i]))
  }

  function Render(r: Report): Json {
    Object(map[SchemaVersion := Number(2.0), JudgeUsed := Bool(false), NoJudgeStatement := Text(STATEMENT),
               Cases := List(RenderCases(r.cases)),
               PassedCases := Number(r.passedCases as real), TotalCases := Number(|r.cases| as real),
               PassedRequiredCases := Number(r.passedRequired as real),
               RequiredCases := Number(r.requiredCases as real),
               AllCasesPassed := Bool(|r.cases| > 0 && r.passedCases == |r.cases|),
               PrecisionGatePassed := Bool(r.requiredCases > 0 && r.passedRequired == r.requiredCases)])
  }

  lemma {:induction false} RenderedQueryOk(a: Assertion, q: Query)
    requires IsAssertion(a, q)
    ensures QueryOk(RenderQuery(a)) && (QueryPasses(RenderQuery(a)) <==> Exact(q.expected, q.returned))
  {
    IncreasingHasNoDuplicates(a.expected);
  }

  /** A produced case is accepted exactly when it has an id and a query. */
  lemma {:induction false} RenderedCaseOk(r: CaseReport, c: Case)
    requires IsCaseReport(r, c)
    ensures CaseOk(RenderCase(r)) <==> c.id != "" && c.queries != []
  {
    var queries := Get(RenderCase(r), Queries);
    forall i | 0 <= i < |c.queries|
      ensures QueryOk(queries.items[i])
      ensures QueryPasses(queries.items[i]) <==> Exact(c.queries[i].expected, c.queries[i].returned)
    {
      RenderedQueryOk(r.queries[i], c.queries[i]);
    }
  }

  lemma {:induction false} CountsAgree(keep: CaseReport -> bool, keepJson: Json -> bool, cases: seq<CaseReport>)
    requires forall c :: keep(c) == keepJson(RenderCase(c))
    ensures Count(keep, cases) == Count(keepJson, RenderCases(cases))
  {
    if cases != [] {
      var front := cases[..|cases| - 1];
      CountsAgree(keep, keepJson, front);
      assert RenderCases(cases)[..|cases| - 1] == RenderCases(front);
    }
  }

  /** The totals of a report that states them as the producer computes them are right. */
  lemma {:induction false} StatedTotalsOk(data: Json, r: Report)
    requires r.cases != []
    requires r.passedCases == Count(PASSED, r.cases) && r.passedRequired == Count(PASSED_REQUIRED, r.cases)
    requires r.requiredCases == Count(REQUIRES, r.cases)
    requires Get(data, PassedCases) == Number(r.passedCases as real)
    requires Get(data, TotalCases) == Number(|r.cases| as real)
    requires Get(data, PassedRequiredCases) == Number(r.passedRequired as real)
    requires Get(data, RequiredCases) == Number(r.requiredCases as real)
    requires Get(data, AllCasesPassed) == Bool(|r.cases| > 0 && r.passedCases == |r.cases|)
    requires Get(data, PrecisionGatePassed) == Bool(r.requiredCases > 0 && r.passedRequired == r.requiredCases)
    ensures TotalsOk(data, SummaryOf(RenderCases(r.cases)))
  {
    CountsAgree(PASSED, JSON_PASSED, r.cases);
    CountsAgree(PASSED_REQUIRED, JSON_PASSED_REQUIRED, r.cases);
    CountsAgree(REQUIRES, JSON_REQUIRED, r.cases);
  }

  lemma {:induction false} RenderedHeaderOk(r: Report)
    requires r.cases != []
    ensures HeaderOk(Render(r)) && Get(Render(r), Cases) == List(RenderCases(r.cases))
  {
  }

  lemma {:induction false} RenderedCounts(r: Report)
    ensures var data := Render(r);
            && Get(data, PassedCases) == Number(r.passedCases as real)
            && Get(data, TotalCases) == Number(|r.cases| as real)
            && Get(data, PassedRequiredCases) == Number(r.passedRequired as real)
            && Get(data, RequiredCases) == Number(r.requiredCases as real)
  {
  }

  lemma {:induction false} RenderedVerdicts(r: Report)
    ensures var data := Render(r);
            && Get(data, AllCasesPassed) == Bool(|r.cases| > 0 && r.passedCases == |r.cases|)
            && Get(data, PrecisionGatePassed) == Bool(r.requiredCases > 0 && r.passedRequired == r.requiredCases)
  {
  }

  lemma {:induction false} RenderedIds(r: Report, cases: seq<Case>)
    requires IsReport(r, cases)
    requires NoDuplicates(CaseIds(cases))
    ensures DistinctIds(RenderCases(r.cases)) && RequiredIds(RenderCases(r.cases)) == NamedRequired(cases)
  {
    var rendered := RenderCases(r.cases);
    forall i | 0 <= i < |cases|
      ensures Get(rendered[i], Id) == Text(cases[i].id) && Get(rendered[i], GateRequired) == Bool(cases[i].gateRequired)
    {
      assert IsCaseReport(r.cases[i], cases[i]);
    }
    forall x ensures x in RequiredIds(rendered) <==> x in NamedRequired(cases) {
      if x in NamedRequired(cases) {
        var i :| 0 <= i < |cases| && cases[i].gateRequired && cases[i].id == x;
        assert Get(rendered[i], Id) == Text(x);
      }
    }
  }

  lemma {:induction false} RenderedCasesOk(r: Report, cases: seq<Case>)
    requires IsReport(r, cases)
    ensures AllCasesOk(RenderCases(r.cases)) <==> AllNamedAndQueried(cases)
  {
    forall i | 0 <= i < |cases|
      ensures CaseOk(RenderCases(r.cases)[i]) <==> cases[i].id != "" && cases[i].queries != []
    {
      RenderedCaseOk(r.cases[i], cases[i]);
    }
  }

  /** Every case has a name and something to ask. */
  ghost predicate AllNamedAndQueried(cases: seq<Case>) {
    forall i :: 0 <= i < |cases| ==> cases[i].id != "" && cases[i].queries != []
  }

  /** Producer and checker agree: a produced report is accepted if and only if every case has a
      non-empty id and at least one query. */
  lemma {:induction false} ProducedReportAccepted(r: Report, cases: seq<Case>)
    requires FixtureOk(cases) && IsReport(r, cases)
    ensures Consistent(Render(r)) <==> AllNamedAndQueried(cases)
  {
    assert "supersede-chain" in NamedRequired(cases);
    RenderedIds(r, cases);
    RenderedHeaderOk(r);
    RenderedCounts(r);
    RenderedVerdicts(r);
    StatedTotalsOk(Render(r), r);
    RenderedCasesOk(r, cases);
  }

  lemma {:induction false} AllRequiredPassed(cases: seq<Json>, i: nat)
    requires Count(JSON_PASSED_REQUIRED, cases) == Count(JSON_REQUIRED, cases)
    requires i < |cases| && CountsRequired(cases[i])
    ensures CountsPassed(cases[i])
  {
    CountsBounded(cases[..|cases| - 1]);
    if i < |cases| - 1 { AllRequiredPassed(cases[..|cases| - 1], i); }
  }

  lemma {:induction false} CountsBounded(cases: seq<Json>)
    ensures Count(JSON_PASSED_REQUIRED, cases) <= Count(JSON_REQUIRED, cases)
  {
    if cases != [] { CountsBounded(cases[..|cases| - 1]); }
  }

  /** An accepted report with a passed gate: every query of every required case returned exactly its
      expected ids without a duplicate, and the required cases are the fixed three. */
  lemma {:induction false} GateMeans(data: Json, i: nat, j: nat)
    requires Consistent(data) && SummaryOf(Get(data, Cases).items).gatePassed
    requires i < |Get(data, Cases).items| && CountsRequired(Get(data, Cases).items[i])
    requires j < |Get(Get(data, Cases).items[i], Queries).items|
    ensures QueryPasses(Get(Get(data, Cases).items[i], Queries).items[j])
    ensures RequiredIds(Get(data, Cases).items) == REQUIRED
  {
    AllRequiredPassed(Get(data, Cases).items, i);
  }

  /** A case without an id can be added to any fixture: the producer accepts the fixture and reports on
      it, and the checker refuses the report. */
  lemma {:induction false} NamelessCaseIsRejected(cases: seq<Case>, queries: seq<Query>, r: Report)
    requires FixtureOk(cases) && AllNamedAndQueried(cases) && IsReport(r, cases + [Case("", false, queries)])
    ensures FixtureOk(cases + [Case("", false, queries)]) && !Consistent(Render(r))
  {
    var longer := cases + [Case("", false, queries)];
    NamelessFixtureOk(cases, queries);
    ProducedReportAccepted(r, longer);
    assert longer[|cases|].id == "";
  }

  lemma {:induction false} NamelessFixtureOk(cases: seq<Case>, queries: seq<Query>)
    requires FixtureOk(cases) && AllNamedAndQueried(cases)
    ensures FixtureOk(cases + [Case("", false, queries)])
  {
    var longer := cases + [Case("", false, queries)];
    SameRequired(cases, longer);
    forall i, j | 0 <= i < j < |longer| ensures CaseIds(longer)[i] != CaseIds(longer)[j] {
      if j < |cases| { assert CaseIds(cases)[i] != CaseIds(cases)[j]; }
    }
  }

  lemma {:induction false} SameRequired(cases: seq<Case>, longer: seq<Case>)
    requires |longer| == |cases| + 1 && !longer[|cases|].gateRequired
    requires forall i :: 0 <= i < |cases| ==> longer[i] == cases[i]
    ensures NamedRequired(longer) == NamedRequired(cases)
  {
    forall id ensures id in NamedRequired(longer) <==> id in NamedRequired(cases) {
      if id in NamedRequired(cases) {
        var i :| 0 <= i < |cases| && cases[i].gateRequired && cases[i].id == id;
        assert longer[i].gateRequired && longer[i].id == id;
      }
    }
  }

  /** The required cases with one query each are such a fixture. */
  lemma {:induction false} FixtureExists(q: Query)
    ensures FixtureOk(RequiredOnly(q)) && AllNamedAndQueried(RequiredOnly(q))
  {
    var cases := RequiredOnly(q);
    assert CaseIds(cases) == ["supersede-chain", "five-slot-budget", "namespace-selection"];
    assert cases[0].id in NamedRequired(cases) && cases[1].id in NamedRequired(cases)
      && cases[2].id in NamedRequired(cases);
    assert "supersede-chain"[0] == 's' && "five-slot-budget"[0] == 'f' && "namespace-selection"[0] == 'n';
  }

  function RequiredOnly(q: Query): seq<Case> {
    [Case("supersede-chain", true, [q]), Case("five-slot-budget", true, [q]), Case("namespace-selection", true, [q])]
  }
}
