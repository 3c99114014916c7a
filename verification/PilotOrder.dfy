/**
 How much the pilot's report depends on the order of the event lines
 (scripts/dogfood-pilot.py:405-422, 634-863).
 */
module PilotOrder {
  import opened Common
  import opened Folds
  import opened PilotPlan
  import opened PilotReport

  ghost predicate SameBag(a: seq<Pair>, b: seq<Pair>) {
    multiset(a) == multiset(b)
  }

  lemma SameBagMembers(a: seq<Pair>, b: seq<Pair>)
    requires SameBag(a, b)
    ensures |a| == |b| && forall p :: p in a <==> p in b
  {
    assert |multiset(a)| == |multiset(b)|;
    assert forall p :: p in a <==> p in multiset(a);
    assert forall p :: p in b <==> p in multiset(b);
  }

  // ----------------------------------------------- everything but the repositories

  lemma {:induction false} SurfaceReportAgrees(surface: Surface, a: seq<Pair>, b: seq<Pair>)
    requires SameBag(a, b)
    ensures SurfaceReportOf(Filter(OnSurface(surface), a)) == SurfaceReportOf(Filter(OnSurface(surface), b))
  {
    var p, q := Filter(OnSurface(surface), a), Filter(OnSurface(surface), b);
    FilterPermutation(OnSurface(surface), a, b);
    SameBagMembers(p, q);
    SumsAgree(p, q);
  }

  lemma {:induction false} BySurfaceAgrees(a: seq<Pair>, b: seq<Pair>)
    requires SameBag(a, b)
    ensures BySurface(a) == BySurface(b)
  {
    forall i | 0 <= i < |SURFACES| ensures BySurface(a)[i] == BySurface(b)[i] {
      SurfaceReportAgrees(SURFACES[i], a, b);
    }
  }

  lemma {:induction false} AttributionReportAgrees(key: (string, Surface), a: seq<Pair>, b: seq<Pair>)
    requires SameBag(a, b)
    ensures AttributionReportOf(Filter(AttributedTo(key), a)) == AttributionReportOf(Filter(AttributedTo(key), b))
  {
    var p, q := Filter(AttributedTo(key), a), Filter(AttributedTo(key), b);
    FilterPermutation(AttributedTo(key), a, b);
    SameBagMembers(p, q);
    SumsAgree(p, q);
  }

  lemma {:induction false} ByAttributionAgrees(a: seq<Pair>, b: seq<Pair>)
    requires SameBag(a, b)
    ensures ByAttribution(a) == ByAttribution(b)
  {
    SameBagMembers(a, b);
    assert (set p | p in a :: Attribution(p)) == (set p | p in b :: Attribution(p));
    forall key
      ensures AttributionReportOf(Filter(AttributedTo(key), a)) == AttributionReportOf(Filter(AttributedTo(key), b))
    {
      AttributionReportAgrees(key, a, b);
    }
  }

  lemma {:induction false} SafetyAgrees(a: seq<Pair>, b: seq<Pair>)
    requires SameBag(a, b)
    ensures SafetyOf(a) == SafetyOf(b)
  {
    SumsAgree(a, b);
  }

  lemma {:induction false} WorthAgrees(m: Manifest, stats: Statistics, a: seq<Pair>, b: seq<Pair>,
                                       repos: seq<(string, RepositoryReport)>)
    requires SameBag(a, b) && a != [] && b != [] && m.repositories != []
    ensures WorthOf(m, stats, a, repos) == WorthOf(m, stats, b, repos)
  {
    SameBagMembers(a, b);
    SumsAgree(a, b);
  }

  lemma {:induction false} FactsAgree(stats: Statistics, a: seq<Pair>, b: seq<Pair>)
    requires SameBag(a, b) && a != [] && b != []
    ensures FactsOf(stats, a) == FactsOf(stats, b) && AllCosted(a) == AllCosted(b)
  {
    SameBagMembers(a, b);
    SumsAgree(a, b);
  }

  /** Reports on the same observations agree exactly when their repository parts do. */
  lemma {:induction false} ReportsAgreeWhen(m: Manifest, stats: Statistics, a: seq<Pair>, b: seq<Pair>, final: bool)
    requires SameBag(a, b) && a != [] && b != [] && m.repositories != []
    ensures ReportOf(m, stats, a, final) == ReportOf(m, stats, b, final)
       <==> ByRepository(m, m.repositories, a) == ByRepository(m, m.repositories, b)
  {
    SafetyAgrees(a, b);
    WorthAgrees(m, stats, a, b, ByRepository(m, m.repositories, a));
    FactsAgree(stats, a, b);
    BySurfaceAgrees(a, b);
    ByAttributionAgrees(a, b);
  }

  function Mine(m: Manifest, i: nat, s: seq<Pair>): seq<Pair>
    requires i < |m.repositories|
  {
    Filter(InRepository(m.repositories[i].name), s)
  }

  ghost predicate AgreeIn(m: Manifest, i: nat, a: seq<Pair>, b: seq<Pair>)
    requires i < |m.repositories|
  {
    RepositoryReportOf(m, Mine(m, i, a)) == RepositoryReportOf(m, Mine(m, i, b))
  }

  lemma {:induction false} RepositoriesAgreeWhen(m: Manifest, a: seq<Pair>, b: seq<Pair>)
    ensures ByRepository(m, m.repositories, a) == ByRepository(m, m.repositories, b)
       <==> forall i :: 0 <= i < |m.repositories| ==> AgreeIn(m, i, a, b)
  {
    var x, y := ByRepository(m, m.repositories, a), ByRepository(m, m.repositories, b);
    forall i | 0 <= i < |m.repositories| ensures x[i] == y[i] <==> AgreeIn(m, i, a, b) {
      assert x[i] == RepositoryEntry(m, m.repositories[i].name, a);
      assert y[i] == RepositoryEntry(m, m.repositories[i].name, b);
    }
    assert x == y <==> forall i :: 0 <= i < |x| ==> x[i] == y[i];
  }

  // ------------------------------------------------------ stable sorting is invisible

  lemma {:induction false} EarliestIsFirstTied(s: seq<Pair>)
    requires s != []
    ensures var tied := Filter(WithKey(OBSERVED, Earliest(s).observedAt), s); tied != [] && tied[0] == Earliest(s)
  {
    var n := |s| - 1;
    var front, last := s[..n], s[n];
    assert s == front + [last];
    var tied := WithKey(OBSERVED, Earliest(s).observedAt);
    FilterSnoc(tied, front, last);
    if n > 0 {
      EarliestIsFirstTied(front);
      if last.observedAt < Earliest(front).observedAt { FilterNone(tied, front); }
    }
  }

  lemma {:induction false} LatestIsLastTied(s: seq<Pair>)
    requires s != []
    ensures var tied := Filter(WithKey(OBSERVED, Latest(s).observedAt), s); tied != [] && tied[|tied| - 1] == Latest(s)
  {
    var front, last := s[..|s| - 1], s[|s| - 1];
    var tied := WithKey(OBSERVED, Latest(s).observedAt);
    assert s == front + [last];
    FilterSnoc(tied, front, last);
    if front != [] && last.observedAt < Latest(front).observedAt {
      LatestIsLastTied(front);
      assert Latest(s) == Latest(front) && Kept(tied, last) == [];
      assert Filter(tied, s) == Filter(tied, front);
    } else {
      assert Latest(s) == last && Kept(tied, last) == [last];
    }
  }

  lemma {:induction false} TiedEarliestAgrees(a: seq<Pair>, b: seq<Pair>)
    requires SameBag(a, b) && SameTies(OBSERVED, a, b) && a != [] && b != []
    ensures Earliest(a) == Earliest(b)
  {
    SameBagMembers(a, b);
    assert Earliest(a) in b && Earliest(b) in a;
    assert Earliest(a).observedAt == Earliest(b).observedAt;
    EarliestIsFirstTied(a);
    EarliestIsFirstTied(b);
  }

  lemma {:induction false} TiedLatestAgrees(a: seq<Pair>, b: seq<Pair>)
    requires SameBag(a, b) && SameTies(OBSERVED, a, b) && a != [] && b != []
    ensures Latest(a) == Latest(b)
  {
    SameBagMembers(a, b);
    assert Latest(a) in b && Latest(b) in a;
    assert Latest(a).observedAt == Latest(b).observedAt;
    LatestIsLastTied(a);
    LatestIsLastTied(b);
  }

  lemma {:induction false} FilterKeepsTies(keep: Pair -> bool, a: seq<Pair>, b: seq<Pair>)
    requires SameTies(OBSERVED, a, b)
    ensures SameTies(OBSERVED, Filter(keep, a), Filter(keep, b))
  {
    forall k ensures Filter(WithKey(OBSERVED, k), Filter(keep, a)) == Filter(WithKey(OBSERVED, k), Filter(keep, b)) {
      FiltersCommute(WithKey(OBSERVED, k), keep, a);
      FiltersCommute(WithKey(OBSERVED, k), keep, b);
    }
  }

  lemma {:induction false} TiedRepositoryAgrees(m: Manifest, a: seq<Pair>, b: seq<Pair>)
    requires SameBag(a, b) && SameTies(OBSERVED, a, b)
    ensures RepositoryReportOf(m, a) == RepositoryReportOf(m, b)
  {
    SameBagMembers(a, b);
    TiedGrowthAgrees(a, b);
    TiedFirstUsefulAgrees(m, a, b);
    ReportFromParts(m, a, b);
  }

  lemma {:induction false} ReportFromParts(m: Manifest, a: seq<Pair>, b: seq<Pair>)
    requires |a| == |b|
    ensures RepositoryReportOf(m, a) == RepositoryReportOf(m, b)
       <==> FirstUseful(m, Filter(USEFUL, a)) == FirstUseful(m, Filter(USEFUL, b)) && Growth(a) == Growth(b)
  {
  }

  lemma {:induction false} TiedGrowthAgrees(a: seq<Pair>, b: seq<Pair>)
    requires SameBag(a, b) && SameTies(OBSERVED, a, b)
    ensures Growth(a) == Growth(b)
  {
    SameBagMembers(a, b);
    if a != [] {
      TiedEarliestAgrees(a, b);
      TiedLatestAgrees(a, b);
    }
  }

  lemma {:induction false} TiedFirstUsefulAgrees(m: Manifest, a: seq<Pair>, b: seq<Pair>)
    requires SameBag(a, b) && SameTies(OBSERVED, a, b)
    ensures FirstUseful(m, Filter(USEFUL, a)) == FirstUseful(m, Filter(USEFUL, b))
  {
    FilterPermutation(USEFUL, a, b);
    FilterKeepsTies(USEFUL, a, b);
    SameBagMembers(Filter(USEFUL, a), Filter(USEFUL, b));
    if Filter(USEFUL, a) != [] { TiedEarliestAgrees(Filter(USEFUL, a), Filter(USEFUL, b)); }
  }

  /** The report on the lines sorted by time, ties left in line order, is the report on the lines. */
  lemma {:induction false} SortingIsInvisible(m: Manifest, stats: Statistics, a: seq<Pair>, b: seq<Pair>, final: bool)
    requires SameBag(a, b) && SameTies(OBSERVED, a, b) && a != [] && b != [] && m.repositories != []
    ensures ReportOf(m, stats, a, final) == ReportOf(m, stats, b, final)
  {
    forall i | 0 <= i < |m.repositories| ensures AgreeIn(m, i, a, b) {
      FilterPermutation(InRepository(m.repositories[i].name), a, b);
      FilterKeepsTies(InRepository(m.repositories[i].name), a, b);
      TiedRepositoryAgrees(m, Mine(m, i, a), Mine(m, i, b));
    }
    RepositoriesAgreeWhen(m, a, b);
    ReportsAgreeWhen(m, stats, a, b, final);
  }

  // ---------------------------------------------------------- one repository's order

  predicate IsEarliest(s: seq<Pair>, p: Pair) {
    p in s && forall q :: q in s ==> p.observedAt <= q.observedAt
  }

  predicate IsLatest(s: seq<Pair>, p: Pair) {
    p in s && forall q :: q in s ==> q.observedAt <= p.observedAt
  }

  predicate IsFirstUseful(s: seq<Pair>, p: Pair) {
    p in s && USEFUL(p) && forall q :: q in s && USEFUL(q) ==> p.observedAt <= q.observedAt
  }

  /** Rows, bytes and backlog as one observation found them, and as it left them. */
  function Before(p: Pair): (int, int, int) {
    (p.treatment.rowsBefore, p.treatment.bytesBefore, p.treatment.backlogBefore)
  }

  function After(p: Pair): (int, int, int) {
    (p.treatment.rowsAfter, p.treatment.bytesAfter, p.treatment.backlogAfter)
  }

  function Plus(a: (int, int, int), b: (int, int, int)): (int, int, int) {
    (a.0 + b.0, a.1 + b.1, a.2 + b.2)
  }

  function Minus(a: (int, int, int), b: (int, int, int)): (int, int, int) {
    (a.0 - b.0, a.1 - b.1, a.2 - b.2)
  }

  /** The named first useful observation is the same whichever line came first. */
  ghost predicate OneFirstUseful(s: seq<Pair>) {
    forall p, q :: IsFirstUseful(s, p) && IsFirstUseful(s, q) ==> p.id == q.id
  }

  /** All earliest observations found the same, and all latest left the same. Two observations at one
      time are a case of their own: each order makes one the first and the other the last, so what
      must agree is the sum of what each found and left. */
  ghost predicate OneGrowth(s: seq<Pair>) {
    if |s| == 2 && s[0].observedAt == s[1].observedAt then
      Plus(Before(s[0]), After(s[0])) == Plus(Before(s[1]), After(s[1]))
    else
      && (forall p, q :: IsEarliest(s, p) && IsEarliest(s, q) ==> Before(p) == Before(q))
      && (forall p, q :: IsLatest(s, p) && IsLatest(s, q) ==> After(p) == After(q))
  }

  /** Some observation is the first line. */
  function Leading(s: seq<Pair>, i: nat): seq<Pair>
    requires i < |s|
  {
    [s[i]] + Without(s, i)
  }

  lemma {:induction false} LeadingIs(s: seq<Pair>, i: nat)
    requires i < |s|
    ensures SameBag(s, Leading(s, i))
  {
    WithoutMultiset(s, i);
  }

  lemma {:induction false} EarliestIsLeading(s: seq<Pair>)
    requires s != [] && forall p :: p in s ==> s[0].observedAt <= p.observedAt
    ensures Earliest(s) == s[0]
  {
    if |s| > 1 {
      var front := s[..|s| - 1];
      assert front[0] == s[0] && forall p :: p in front ==> p in s;
      EarliestIsLeading(front);
    }
  }

  lemma {:induction false} LatestIsTrailing(s: seq<Pair>)
    requires s != [] && forall p :: p in s ==> p.observedAt <= s[|s| - 1].observedAt
    ensures Latest(s) == s[|s| - 1]
  {
    if |s| > 1 { assert Latest(s[..|s| - 1]) in s; }
  }

  /** A first useful observation put first is the one the report names. */
  lemma {:induction false} LeadingIsNamed(m: Manifest, s: seq<Pair>, i: nat)
    requires i < |s| && IsFirstUseful(s, s[i])
    ensures FirstUseful(m, Filter(USEFUL, Leading(s, i))).1 == Some(s[i].id)
  {
    var line := Leading(s, i);
    var useful := Filter(USEFUL, line);
    FilterConcat(USEFUL, [s[i]], Without(s, i));
    FilterAll(USEFUL, [s[i]]);
    FilterMembers(USEFUL, line);
    LeadingIs(s, i);
    SameBagMembers(s, line);
    assert useful[0] == s[i];
    EarliestIsLeading(useful);
  }

  lemma {:induction false} FirstUsefulIs(s: seq<Pair>)
    requires Filter(USEFUL, s) != []
    ensures IsFirstUseful(s, Earliest(Filter(USEFUL, s)))
  {
    FilterMembers(USEFUL, s);
  }

  /** Every order names the same first useful observation exactly when there is one to name. */
  lemma {:induction false} FirstUsefulExactlyWhen(m: Manifest, s: seq<Pair>)
    ensures (forall b :: SameBag(s, b) ==> FirstUseful(m, Filter(USEFUL, b)) == FirstUseful(m, Filter(USEFUL, s)))
       <==> OneFirstUseful(s)
  {
    if OneFirstUseful(s) {
      forall b | SameBag(s, b) ensures FirstUseful(m, Filter(USEFUL, b)) == FirstUseful(m, Filter(USEFUL, s)) {
        FirstUsefulSame(m, s, b);
      }
    }
    if forall b :: SameBag(s, b) ==> FirstUseful(m, Filter(USEFUL, b)) == FirstUseful(m, Filter(USEFUL, s)) {
      forall p, q | IsFirstUseful(s, p) && IsFirstUseful(s, q) ensures p.id == q.id {
        var i :| 0 <= i < |s| && s[i] == p;
        var j :| 0 <= j < |s| && s[j] == q;
        LeadingIs(s, i);
        LeadingIs(s, j);
        LeadingIsNamed(m, s, i);
        LeadingIsNamed(m, s, j);
      }
    }
  }

  lemma {:induction false} FirstUsefulSame(m: Manifest, a: seq<Pair>, b: seq<Pair>)
    requires SameBag(a, b) && OneFirstUseful(a)
    ensures FirstUseful(m, Filter(USEFUL, b)) == FirstUseful(m, Filter(USEFUL, a))
  {
    FilterPermutation(USEFUL, a, b);
    SameBagMembers(a, b);
    SameBagMembers(Filter(USEFUL, a), Filter(USEFUL, b));
    if Filter(USEFUL, a) != [] {
      FirstUsefulIs(a);
      FirstUsefulIs(b);
      assert IsFirstUseful(a, Earliest(Filter(USEFUL, b)));
    }
  }

  /** Some observation is the first line and another the last. */
  function Framed(s: seq<Pair>, i: nat, k: nat): seq<Pair>
    requires i < |s| && k < |s| && i != k
  {
    var rest := Without(s, i);
    [s[i]] + Without(rest, if k < i then k else k - 1) + [s[k]]
  }

  lemma {:induction false} FramedIs(s: seq<Pair>, i: nat, k: nat)
    requires i < |s| && k < |s| && i != k
    ensures SameBag(s, Framed(s, i, k))
  {
    var rest, at := Without(s, i), if k < i then k else k - 1;
    WithoutAt(s, i, k);
    WithoutMultiset(s, i);
    WithoutMultiset(rest, at);
    FrameElements(s[i], s[k], Without(rest, at));
    assert s[k] in multiset(rest) && s[i] in multiset(s);
    PutBack(multiset(s), s[i], s[k]);
  }

  lemma WithoutAt(s: seq<Pair>, i: nat, k: nat)
    requires i < |s| && k < |s| && i != k
    ensures Without(s, i)[if k < i then k else k - 1] == s[k]
  {
  }

  lemma FrameElements(p: Pair, q: Pair, rest: seq<Pair>)
    ensures multiset([p] + rest + [q]) == multiset{p} + multiset(rest) + multiset{q}
  {
  }

  lemma PutBack(bag: multiset<Pair>, p: Pair, q: Pair)
    requires p in bag && q in bag - multiset{p}
    ensures multiset{p} + (bag - multiset{p} - multiset{q}) + multiset{q} == bag
  {
  }

  function GrowthOf(first: Pair, last: Pair): (Option<int>, Option<int>, Option<int>) {
    var d := Minus(After(last), Before(first));
    (Some(d.0), Some(d.1), Some(d.2))
  }

  lemma {:induction false} FramedGrowth(s: seq<Pair>, i: nat, k: nat)
    requires i < |s| && k < |s| && i != k && IsEarliest(s, s[i]) && IsLatest(s, s[k])
    ensures Growth(Framed(s, i, k)) == GrowthOf(s[i], s[k])
  {
    var line := Framed(s, i, k);
    FramedIs(s, i, k);
    SameBagMembers(s, line);
    FramedEnds(s, i, k);
    GrowthBetween(line);
  }

  lemma {:induction false} FramedEnds(s: seq<Pair>, i: nat, k: nat)
    requires i < |s| && k < |s| && i != k
    ensures var line := Framed(s, i, k); line[0] == s[i] && line[|line| - 1] == s[k]
  {
  }

  lemma {:induction false} GrowthBetween(line: seq<Pair>)
    requires line != [] && IsEarliest(line, line[0]) && IsLatest(line, line[|line| - 1])
    ensures Growth(line) == GrowthOf(line[0], line[|line| - 1])
  {
    EarliestIsLeading(line);
    LatestIsTrailing(line);
  }

  ghost predicate GrowthIsFixed(s: seq<Pair>) {
    forall b :: SameBag(s, b) ==> Growth(b) == Growth(s)
  }

  /** Two framings report the same growth. */
  lemma {:induction false} FramingsAgree(s: seq<Pair>, i: nat, k: nat, j: nat, l: nat)
    requires GrowthIsFixed(s) && i < |s| && k < |s| && j < |s| && l < |s| && i != k && j != l
    requires IsEarliest(s, s[i]) && IsLatest(s, s[k]) && IsEarliest(s, s[j]) && IsLatest(s, s[l])
    ensures Minus(After(s[k]), Before(s[i])) == Minus(After(s[l]), Before(s[j]))
  {
    FramedIs(s, i, k);
    FramedIs(s, j, l);
    FramedGrowth(s, i, k);
    FramedGrowth(s, j, l);
    assert GrowthOf(s[i], s[k]) == GrowthOf(s[j], s[l]);
  }

  /** Besides any two positions there is a third that may be the last, unless just two observations
      share one time; and the same for the first. */
  lemma {:induction false} ThirdLatest(s: seq<Pair>, i: nat, j: nat) returns (k: nat)
    requires i < j < |s| && IsEarliest(s, s[i]) && IsEarliest(s, s[j])
             && (|s| > 2 || s[0].observedAt != s[1].observedAt)
    ensures k < |s| && k != i && k != j && IsLatest(s, s[k])
  {
    var last := Latest(s);
    k :| 0 <= k < |s| && s[k] == last;
    if k == i || k == j {
      k := if i > 0 then 0 else if j > 1 then 1 else 2;
    }
  }

  lemma {:induction false} ThirdEarliest(s: seq<Pair>, i: nat, j: nat) returns (k: nat)
    requires i < j < |s| && IsLatest(s, s[i]) && IsLatest(s, s[j]) && (|s| > 2 || s[0].observedAt != s[1].observedAt)
    ensures k < |s| && k != i && k != j && IsEarliest(s, s[k])
  {
    var first := Earliest(s);
    k :| 0 <= k < |s| && s[k] == first;
    if k == i || k == j {
      k := if i > 0 then 0 else if j > 1 then 1 else 2;
    }
  }

  lemma {:induction false} FixedMeansEarliestAgree(s: seq<Pair>, i: nat, j: nat)
    requires GrowthIsFixed(s) && !(|s| == 2 && s[0].observedAt == s[1].observedAt)
    requires i < j < |s| && IsEarliest(s, s[i]) && IsEarliest(s, s[j])
    ensures Before(s[i]) == Before(s[j])
  {
    var k := ThirdLatest(s, i, j);
    FramingsAgree(s, i, k, j, k);
  }

  lemma {:induction false} FixedMeansLatestAgree(s: seq<Pair>, i: nat, j: nat)
    requires GrowthIsFixed(s) && !(|s| == 2 && s[0].observedAt == s[1].observedAt)
    requires i < j < |s| && IsLatest(s, s[i]) && IsLatest(s, s[j])
    ensures After(s[i]) == After(s[j])
  {
    var k := ThirdEarliest(s, i, j);
    FramingsAgree(s, k, i, k, j);
  }

  lemma {:induction false} FixedMeansOneGrowth(s: seq<Pair>)
    requires GrowthIsFixed(s)
    ensures OneGrowth(s)
  {
    if |s| == 2 && s[0].observedAt == s[1].observedAt {
      FramingsAgree(s, 0, 1, 1, 0);
    } else {
      forall p, q | IsEarliest(s, p) && IsEarliest(s, q) ensures Before(p) == Before(q) {
        var i :| 0 <= i < |s| && s[i] == p;
        var j :| 0 <= j < |s| && s[j] == q;
        if i < j { FixedMeansEarliestAgree(s, i, j); }
        if j < i { FixedMeansEarliestAgree(s, j, i); }
      }
      forall p, q | IsLatest(s, p) && IsLatest(s, q) ensures After(p) == After(q) {
        var i :| 0 <= i < |s| && s[i] == p;
        var j :| 0 <= j < |s| && s[j] == q;
        if i < j { FixedMeansLatestAgree(s, i, j); }
        if j < i { FixedMeansLatestAgree(s, j, i); }
      }
    }
  }

  lemma {:induction false} OneGrowthMeansFixed(a: seq<Pair>, b: seq<Pair>)
    requires OneGrowth(a) && SameBag(a, b)
    ensures Growth(b) == Growth(a)
  {
    SameBagMembers(a, b);
    if |a| == 2 && a[0].observedAt == a[1].observedAt {
      TwoOrders(a, b);
      GrowthBetween(a);
      GrowthBetween(b);
    } else if a != [] {
      ExtremesAgree(a, b);
    }
  }

  lemma {:induction false} ExtremesAgree(a: seq<Pair>, b: seq<Pair>)
    requires a != [] && b != [] && (forall p :: p in a <==> p in b)
    requires forall p, q :: IsEarliest(a, p) && IsEarliest(a, q) ==> Before(p) == Before(q)
    requires forall p, q :: IsLatest(a, p) && IsLatest(a, q) ==> After(p) == After(q)
    ensures Growth(b) == Growth(a)
  {
    assert IsEarliest(a, Earliest(a)) && IsEarliest(a, Earliest(b));
    assert IsLatest(a, Latest(a)) && IsLatest(a, Latest(b));
    GrowthIs(a);
    GrowthIs(b);
  }

  lemma {:induction false} GrowthIs(s: seq<Pair>)
    requires s != []
    ensures Growth(s) == GrowthOf(Earliest(s), Latest(s))
  {
  }

  lemma {:induction false} TwoOrders(a: seq<Pair>, b: seq<Pair>)
    requires |a| == 2 && |b| == 2 && SameBag(a, b)
    ensures (b[0] == a[0] && b[1] == a[1]) || (b[0] == a[1] && b[1] == a[0])
  {
    assert a == [a[0], a[1]] && b == [b[0], b[1]];
    assert multiset(a)[b[0]] > 0 && multiset(a)[b[1]] > 0;
    assert multiset(b)[a[0]] > 0 && multiset(b)[a[1]] > 0;
  }

  /** Every order of a repository's lines reports it the same exactly when this holds. */
  ghost predicate Determined(s: seq<Pair>) {
    OneFirstUseful(s) && OneGrowth(s)
  }

  ghost predicate RepositoryIsFixed(m: Manifest, s: seq<Pair>) {
    forall b :: SameBag(s, b) ==> RepositoryReportOf(m, b) == RepositoryReportOf(m, s)
  }

  lemma {:induction false} RepositoryFixedExactlyWhen(m: Manifest, s: seq<Pair>)
    ensures RepositoryIsFixed(m, s) <==> Determined(s)
  {
    FirstUsefulExactlyWhen(m, s);
    if Determined(s) {
      forall b | SameBag(s, b) ensures RepositoryReportOf(m, b) == RepositoryReportOf(m, s) {
        SameBagMembers(s, b);
        OneGrowthMeansFixed(s, b);
        FirstUsefulSame(m, s, b);
        ReportFromParts(m, b, s);
      }
    }
    if RepositoryIsFixed(m, s) {
      forall b | SameBag(s, b)
        ensures FirstUseful(m, Filter(USEFUL, b)) == FirstUseful(m, Filter(USEFUL, s)) && Growth(b) == Growth(s)
      {
        SameBagMembers(s, b);
        ReportFromParts(m, b, s);
      }
      FixedMeansOneGrowth(s);
    }
  }

  // ------------------------------------------------------------- all repositories

  function Elsewhere(name: string): Pair -> bool {
    (p: Pair) => p.repository != name
  }

  /** Any order of one repository's lines extends to an order of all lines. */
  lemma {:induction false} ExtendOrder(m: Manifest, i: nat, s: seq<Pair>, mine: seq<Pair>)
    requires i < |m.repositories| && SameBag(Mine(m, i, s), mine)
    ensures var all := mine + Filter(Elsewhere(m.repositories[i].name), s); SameBag(s, all) && Mine(m, i, all) == mine
  {
    var name := m.repositories[i].name;
    var here, rest := InRepository(name), Filter(Elsewhere(name), s);
    FilterMembers(here, s);
    FilterMembers(Elsewhere(name), s);
    SameBagMembers(Mine(m, i, s), mine);
    FilterConcat(here, mine, rest);
    FilterAll(here, mine);
    FilterNone(here, rest);
    forall p: Pair ensures multiset(s)[p] == multiset(mine + rest)[p] {
      FilterCount(here, s, p);
      FilterCount(Elsewhere(name), s, p);
      assert multiset(mine + rest) == multiset(mine) + multiset(rest);
    }
    assert multiset(s) == multiset(mine + rest);
  }

  ghost predicate ReportIsFixed(m: Manifest, stats: Statistics, pairs: seq<Pair>, final: bool)
    requires pairs != [] && m.repositories != []
  {
    forall b :: SameBag(pairs, b) && b != [] ==> ReportOf(m, stats, b, final) == ReportOf(m, stats, pairs, final)
  }

  ghost predicate AllAgree(m: Manifest, a: seq<Pair>, b: seq<Pair>) {
    forall i :: 0 <= i < |m.repositories| ==> AgreeIn(m, i, a, b)
  }

  /** Reports on the same observations agree exactly when every repository's part does. */
  lemma {:induction false} ReportsAgreeExactlyWhen(m: Manifest, stats: Statistics, a: seq<Pair>, b: seq<Pair>,
                                                   final: bool)
    requires SameBag(a, b) && a != [] && b != [] && m.repositories != []
    ensures ReportOf(m, stats, a, final) == ReportOf(m, stats, b, final) <==> AllAgree(m, a, b)
  {
    ReportsAgreeWhen(m, stats, a, b, final);
    RepositoriesAgreeWhen(m, a, b);
  }

  ghost predicate AllFixed(m: Manifest, pairs: seq<Pair>) {
    forall b :: SameBag(pairs, b) && b != [] ==> AllAgree(m, b, pairs)
  }

  lemma {:induction false} FixedIsAllFixed(m: Manifest, stats: Statistics, pairs: seq<Pair>, final: bool)
    requires pairs != [] && m.repositories != []
    ensures ReportIsFixed(m, stats, pairs, final) <==> AllFixed(m, pairs)
  {
    forall b | SameBag(pairs, b) && b != []
      ensures ReportOf(m, stats, b, final) == ReportOf(m, stats, pairs, final) <==> AllAgree(m, b, pairs)
    {
      ReportsAgreeExactlyWhen(m, stats, b, pairs, final);
    }
  }

  ghost predicate AllDetermined(m: Manifest, pairs: seq<Pair>) {
    forall i :: 0 <= i < |m.repositories| ==> Determined(Mine(m, i, pairs))
  }

  /** All orders of the lines give one report exactly when, in each repository, there is one first
      useful observation to name, all earliest observations found the same rows, bytes and backlog
      and all latest left the same (or, of just two at one time, each the same sum). */
  lemma {:induction false} ReportFixedExactlyWhen(m: Manifest, stats: Statistics, pairs: seq<Pair>, final: bool)
    requires pairs != [] && m.repositories != []
    ensures ReportIsFixed(m, stats, pairs, final) <==> AllDetermined(m, pairs)
  {
    FixedIsAllFixed(m, stats, pairs, final);
    if AllDetermined(m, pairs) {
      forall b | SameBag(pairs, b) && b != [] ensures AllAgree(m, b, pairs) {
        DeterminedAgree(m, pairs, b);
      }
    }
    if AllFixed(m, pairs) {
      forall i | 0 <= i < |m.repositories| ensures Determined(Mine(m, i, pairs)) {
        FixedIsDetermined(m, pairs, i);
      }
    }
  }

  lemma {:induction false} DeterminedAgree(m: Manifest, a: seq<Pair>, b: seq<Pair>)
    requires SameBag(a, b) && AllDetermined(m, a)
    ensures AllAgree(m, b, a)
  {
    forall i | 0 <= i < |m.repositories| ensures AgreeIn(m, i, b, a) {
      FilterPermutation(InRepository(m.repositories[i].name), a, b);
      RepositoryFixedExactlyWhen(m, Mine(m, i, a));
    }
  }

  lemma {:induction false} FixedIsDetermined(m: Manifest, pairs: seq<Pair>, i: nat)
    requires pairs != [] && i < |m.repositories| && AllFixed(m, pairs)
    ensures Determined(Mine(m, i, pairs))
  {
    forall mine | SameBag(Mine(m, i, pairs), mine)
      ensures RepositoryReportOf(m, mine) == RepositoryReportOf(m, Mine(m, i, pairs))
    {
      FixedInOrder(m, pairs, i, mine);
    }
    RepositoryFixedExactlyWhen(m, Mine(m, i, pairs));
  }

  lemma {:induction false} FixedInOrder(m: Manifest, pairs: seq<Pair>, i: nat, mine: seq<Pair>)
    requires pairs != [] && i < |m.repositories| && AllFixed(m, pairs) && SameBag(Mine(m, i, pairs), mine)
    ensures RepositoryReportOf(m, mine) == RepositoryReportOf(m, Mine(m, i, pairs))
  {
    var all := mine + Filter(Elsewhere(m.repositories[i].name), pairs);
    ExtendOrder(m, i, pairs, mine);
    SameBagMembers(pairs, all);
    assert AllAgree(m, all, pairs) && AgreeIn(m, i, all, pairs);
  }

  // ------------------------------------------------------------- the schedule

  /** Inside one repository the observation time tells the observation. */
  ghost predicate TimesIdentify(s: seq<Pair>) {
    forall p, q :: p in s && q in s && p.repository == q.repository && p.observedAt == q.observedAt ==> p == q
  }

  lemma {:induction false} TimesDetermine(m: Manifest, s: seq<Pair>, i: nat)
    requires i < |m.repositories| && TimesIdentify(s) && NoDuplicates(PairIdsOf(s))
    ensures Determined(Mine(m, i, s))
  {
    FilterMembers(InRepository(m.repositories[i].name), s);
    FilterDistinct(InRepository(m.repositories[i].name), s);
    DistinctTimesDetermine(Mine(m, i, s));
  }

  lemma {:induction false} DistinctTimesDetermine(s: seq<Pair>)
    requires NoDuplicates(s) && forall p, q :: p in s && q in s && p.observedAt == q.observedAt ==> p == q
    ensures Determined(s)
  {
    if |s| == 2 { assert s[0] in s && s[1] in s; }
  }

  lemma {:induction false} FilterDistinct(keep: Pair -> bool, s: seq<Pair>)
    requires NoDuplicates(PairIdsOf(s))
    ensures NoDuplicates(Filter(keep, s))
  {
    if s != [] {
      var front, last := s[..|s| - 1], s[|s| - 1];
      assert forall i :: 0 <= i < |front| ==> PairIdsOf(front)[i] == PairIdsOf(s)[i];
      FilterDistinct(keep, front);
      FilterMembers(keep, front);
      forall i | 0 <= i < |front| ensures front[i] != last {
        assert PairIdsOf(s)[i] != PairIdsOf(s)[|s| - 1];
      }
    }
  }

  /** No two scenarios of a repository share a slot. */
  ghost predicate DistinctSlots(slots: seq<Slot>) {
    forall i, j :: 0 <= i < j < |slots| && slots[i].repository == slots[j].repository ==>
      slots[i].scheduled != slots[j].scheduled
  }

  /** The schedule places each scenario with the repository that planned it. */
  ghost predicate Matches(slots: seq<Slot>, pairs: seq<Pair>) {
    forall i, k :: 0 <= i < |pairs| && 0 <= k < |slots| && slots[k].scenario == pairs[i].scenario ==>
      slots[k].repository == pairs[i].repository
  }

  ghost predicate DistinctScenarios(pairs: seq<Pair>) {
    forall i, j :: 0 <= i < j < |pairs| ==> pairs[i].scenario != pairs[j].scenario
  }

  lemma {:induction false} TimesDiffer(m: Manifest, slots: seq<Slot>, pairs: seq<Pair>, i: nat, j: nat)
    requires ScheduledOnce(slots) && DistinctSlots(slots) && Matches(slots, pairs) && DistinctScenarios(pairs)
    requires i < j < |pairs| && Accepted(m, slots, pairs[i]) && Accepted(m, slots, pairs[j])
    requires pairs[i].repository == pairs[j].repository
    ensures pairs[i].observedAt != pairs[j].observedAt
  {
    var k :| 0 <= k < |slots| && slots[k].scenario == pairs[i].scenario && OnSchedule(m, slots, pairs[i], k);
    var l :| 0 <= l < |slots| && slots[l].scenario == pairs[j].scenario && OnSchedule(m, slots, pairs[j], l);
    assert SlotOf(slots, pairs[i], k) && SlotOf(slots, pairs[j], l) && k != l;
    assert slots[k].scheduled != slots[l].scheduled;
    ObservationsFollowSchedule(m, slots, pairs[i], pairs[j], k, l);
  }

  /** Accepted observations of one repository happen at different times. */
  lemma {:induction false} ScheduleIdentifies(m: Manifest, slots: seq<Slot>, pairs: seq<Pair>)
    requires ScheduledOnce(slots) && DistinctSlots(slots) && Matches(slots, pairs) && DistinctScenarios(pairs)
    requires forall i :: 0 <= i < |pairs| ==> Accepted(m, slots, pairs[i])
    ensures TimesIdentify(pairs)
  {
    forall i, j | 0 <= i < j < |pairs| && pairs[i].repository == pairs[j].repository
      ensures pairs[i].observedAt != pairs[j].observedAt
    {
      TimesDiffer(m, slots, pairs, i, j);
    }
  }
}
