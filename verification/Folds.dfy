/** Order-blind computations over sequences: sums, bags of values, filters and extremes. */
module Folds {
  import opened Common

  function Fold<T, R>(op: (R, R) -> R, zero: R, f: T -> R, s: seq<T>): R {
    if s == [] then zero else op(Fold(op, zero, f, s[..|s| - 1]), f(s[|s| - 1]))
  }

  ghost predicate Commutes<R(!new)>(op: (R, R) -> R) {
    forall x, y, z :: op(op(x, y), z) == op(op(x, z), y)
  }

  function Without<T>(s: seq<T>, i: nat): seq<T>
    requires i < |s|
  {
    s[..i] + s[i + 1..]
  }

  lemma {:induction false} FoldRemove<T, R(!new)>(op: (R, R) -> R, zero: R, f: T -> R, s: seq<T>, i: nat)
    requires Commutes(op) && i < |s|
    ensures Fold(op, zero, f, s) == op(Fold(op, zero, f, Without(s, i)), f(s[i]))
  {
    var n := |s| - 1;
    if i < n {
      FoldRemove(op, zero, f, s[..n], i);
      var rest := Without(s, i);
      assert rest[..|rest| - 1] == Without(s[..n], i) && rest[|rest| - 1] == s[n];
    } else {
      assert Without(s, i) == s[..n];
    }
  }

  lemma WithoutMultiset<T>(s: seq<T>, i: nat)
    requires i < |s|
    ensures multiset(Without(s, i)) == multiset(s) - multiset{s[i]}
  {
    assert s == s[..i] + [s[i]] + s[i + 1..];
  }

  /** A commutative fold sees only which elements there are. */
  lemma {:induction false} FoldPermutation<T, R(!new)>(op: (R, R) -> R, zero: R, f: T -> R, a: seq<T>, b: seq<T>)
    requires Commutes(op) && multiset(a) == multiset(b)
    ensures Fold(op, zero, f, a) == Fold(op, zero, f, b)
    decreases |a|
  {
    assert |multiset(a)| == |multiset(b)|;
    if a != [] {
      var front, x := a[..|a| - 1], a[|a| - 1];
      assert a == front + [x];
      assert x in multiset(b);
      var i :| 0 <= i < |b| && b[i] == x;
      FoldRemove(op, zero, f, b, i);
      DropSame(front, x, b, i);
      FoldPermutation(op, zero, f, front, Without(b, i));
    }
  }

  lemma DropSame<T>(front: seq<T>, x: T, b: seq<T>, i: nat)
    requires i < |b| && b[i] == x && multiset(front + [x]) == multiset(b)
    ensures multiset(front) == multiset(Without(b, i))
  {
    WithoutMultiset(b, i);
    assert multiset(front) == multiset(front + [x]) - multiset{x};
  }

  const PLUS: (int, int) -> int := (x, y) => x + y
  const PLUS_REAL: (real, real) -> real := (x, y) => x + y
  const JOIN: (multiset<real>, multiset<real>) -> multiset<real> := (x, y) => x + y

  function Sum<T>(f: T -> int, s: seq<T>): int {
    Fold(PLUS, 0, f, s)
  }

  function SumReal<T>(f: T -> real, s: seq<T>): real {
    Fold(PLUS_REAL, 0.0, f, s)
  }

  /** The bag of values a list of measurements gives. */
  function Values<T>(f: T -> multiset<real>, s: seq<T>): multiset<real> {
    Fold(JOIN, multiset{}, f, s)
  }

  lemma JoinCommutes()
    ensures Commutes(JOIN)
  {
    forall x: multiset<real>, y: multiset<real>, z: multiset<real> ensures JOIN(JOIN(x, y), z) == JOIN(JOIN(x, z), y) {
      assert (x + y) + z == (x + z) + y;
    }
  }

  lemma {:induction false} SumsAgree<T(!new)>(a: seq<T>, b: seq<T>)
    requires multiset(a) == multiset(b)
    ensures forall f: T -> int :: Sum(f, a) == Sum(f, b)
    ensures forall f: T -> real :: SumReal(f, a) == SumReal(f, b)
    ensures forall f: T -> multiset<real> :: Values(f, a) == Values(f, b)
  {
    forall f: T -> int ensures Sum(f, a) == Sum(f, b) { FoldPermutation(PLUS, 0, f, a, b); }
    forall f: T -> real ensures SumReal(f, a) == SumReal(f, b) { FoldPermutation(PLUS_REAL, 0.0, f, a, b); }
    JoinCommutes();
    forall f: T -> multiset<real> ensures Values(f, a) == Values(f, b) { FoldPermutation(JOIN, multiset{}, f, a, b); }
  }

  function Kept<T>(keep: T -> bool, x: T): seq<T> {
    if keep(x) then [x] else []
  }

  function Filter<T>(keep: T -> bool, s: seq<T>): seq<T> {
    if s == [] then [] else Filter(keep, s[..|s| - 1]) + Kept(keep, s[|s| - 1])
  }

  lemma {:induction false} FilterMembers<T>(keep: T -> bool, s: seq<T>)
    ensures |Filter(keep, s)| <= |s|
    ensures forall x :: x in Filter(keep, s) <==> x in s && keep(x)
  {
    if s != [] {
      FilterMembers(keep, s[..|s| - 1]);
      assert s == s[..|s| - 1] + [s[|s| - 1]];
    }
  }

  lemma {:induction false} FilterCount<T>(keep: T -> bool, s: seq<T>, x: T)
    ensures multiset(Filter(keep, s))[x] == if keep(x) then multiset(s)[x] else 0
  {
    if s != [] {
      var front, last := s[..|s| - 1], s[|s| - 1];
      FilterCount(keep, front, x);
      assert s == front + [last];
    }
  }

  lemma {:induction false} FilterPermutation<T(!new)>(keep: T -> bool, a: seq<T>, b: seq<T>)
    requires multiset(a) == multiset(b)
    ensures multiset(Filter(keep, a)) == multiset(Filter(keep, b))
  {
    var p, q := multiset(Filter(keep, a)), multiset(Filter(keep, b));
    forall x: T ensures p[x] == q[x] {
      FilterCount(keep, a, x);
      FilterCount(keep, b, x);
    }
    assert p == q;
  }

  lemma {:induction false} FilterSnoc<T>(keep: T -> bool, s: seq<T>, x: T)
    ensures Filter(keep, s + [x]) == Filter(keep, s) + Kept(keep, x)
  {
    assert (s + [x])[..|s + [x]| - 1] == s;
  }

  lemma {:induction false} FilterConcat<T>(keep: T -> bool, a: seq<T>, b: seq<T>)
    ensures Filter(keep, a + b) == Filter(keep, a) + Filter(keep, b)
    decreases |b|
  {
    if b == [] {
      assert a + b == a && Filter(keep, a) + [] == Filter(keep, a);
    } else {
      var front, last := b[..|b| - 1], b[|b| - 1];
      assert b == front + [last];
      FilterConcat(keep, a, front);
      FilterConcatSnoc(keep, a, front, last);
    }
  }

  lemma {:induction false} FilterConcatSnoc<T>(keep: T -> bool, a: seq<T>, b: seq<T>, x: T)
    requires Filter(keep, a + b) == Filter(keep, a) + Filter(keep, b)
    ensures Filter(keep, a + (b + [x])) == Filter(keep, a) + Filter(keep, b + [x])
  {
    Regroup(a, b, [x]);
    FilterSnoc(keep, a + b, x);
    FilterSnoc(keep, b, x);
    Regroup(Filter(keep, a), Filter(keep, b), Kept(keep, x));
  }

  lemma {:induction false} FilterAll<T>(keep: T -> bool, s: seq<T>)
    requires forall x :: x in s ==> keep(x)
    ensures Filter(keep, s) == s
  {
    if s != [] { FilterAll(keep, s[..|s| - 1]); }
  }

  lemma {:induction false} FilterNone<T>(keep: T -> bool, s: seq<T>)
    requires forall x :: x in s ==> !keep(x)
    ensures Filter(keep, s) == []
  {
    if s != [] { FilterNone(keep, s[..|s| - 1]); }
  }

  lemma {:induction false} FiltersCommute<T>(p: T -> bool, q: T -> bool, s: seq<T>)
    ensures Filter(p, Filter(q, s)) == Filter(q, Filter(p, s))
  {
    if s != [] {
      var front, last := s[..|s| - 1], s[|s| - 1];
      assert s == front + [last];
      FiltersCommute(p, q, front);
      FilterTwice(p, q, front, last);
      FilterTwice(q, p, front, last);
    }
  }

  lemma {:induction false} FilterTwice<T>(p: T -> bool, q: T -> bool, s: seq<T>, x: T)
    ensures Filter(p, Filter(q, s + [x])) == Filter(p, Filter(q, s)) + (if p(x) && q(x) then [x] else [])
  {
    FilterSnoc(q, s, x);
    if q(x) {
      FilterSnoc(p, Filter(q, s), x);
    } else {
      assert Filter(q, s) + [] == Filter(q, s);
    }
  }

  // ------------------------------------------------------------ sums and bounds

  lemma {:induction false} SumOfNats<T>(f: T -> int, s: seq<T>)
    requires forall x :: x in s ==> f(x) >= 0
    ensures Sum(f, s) >= 0
    ensures Sum(f, s) == 0 ==> forall x :: x in s ==> f(x) == 0
  {
    if s != [] {
      var front, last := s[..|s| - 1], s[|s| - 1];
      assert s == front + [last];
      SumOfNats(f, front);
    }
  }

  // ------------------------------------------------------------------- sorting

  ghost predicate Ascending<T>(key: T -> int, s: seq<T>) {
    forall i, j :: 0 <= i < j < |s| ==> key(s[i]) <= key(s[j])
  }

  function WithKey<T>(key: T -> int, k: int): T -> bool {
    (x: T) => key(x) == k
  }

  /** Elements with the same key come in the same order in both. */
  ghost predicate SameTies<T>(key: T -> int, a: seq<T>, b: seq<T>) {
    forall k :: Filter(WithKey(key, k), a) == Filter(WithKey(key, k), b)
  }

  /** Insert behind everything that is not greater. */
  method Insert<T>(key: T -> int, s: seq<T>, x: T) returns (r: seq<T>)
    requires Ascending(key, s)
    ensures multiset(r) == multiset(s) + multiset{x} && Ascending(key, r) && SameTies(key, r, s + [x])
  {
    var at := |s|;
    while at > 0 && key(s[at - 1]) > key(x)
      invariant 0 <= at <= |s|
      invariant forall k :: at <= k < |s| ==> key(s[k]) > key(x)
    {
      at := at - 1;
    }
    r := s[..at] + [x] + s[at..];
    InsertIs(key, s, x, at, r);
  }

  lemma {:induction false} InsertIs<T>(key: T -> int, s: seq<T>, x: T, at: nat, r: seq<T>)
    requires Ascending(key, s) && at <= |s| && r == s[..at] + [x] + s[at..]
    requires forall k :: at <= k < |s| ==> key(s[k]) > key(x)
    requires at > 0 ==> key(s[at - 1]) <= key(x)
    ensures multiset(r) == multiset(s) + multiset{x} && Ascending(key, r) && SameTies(key, r, s + [x])
  {
    InsertKeepsAscending(key, s, x, at);
    InsertKeepsElements(s[..at], x, s[at..]);
    InsertKeepsTies(key, s[..at], x, s[at..]);
    assert s == s[..at] + s[at..];
    assert s + [x] == s[..at] + s[at..] + [x];
  }

  lemma InsertKeepsElements<T>(a: seq<T>, x: T, b: seq<T>)
    ensures multiset(a + [x] + b) == multiset(a + b) + multiset{x}
  {
  }

  lemma InsertKeepsAscending<T>(key: T -> int, s: seq<T>, x: T, at: nat)
    requires Ascending(key, s) && at <= |s|
    requires forall k :: at <= k < |s| ==> key(s[k]) > key(x)
    requires at > 0 ==> key(s[at - 1]) <= key(x)
    ensures Ascending(key, s[..at] + [x] + s[at..])
  {
  }

  lemma {:induction false} InsertKeepsTies<T>(key: T -> int, a: seq<T>, x: T, b: seq<T>)
    requires forall y :: y in b ==> key(y) > key(x)
    ensures SameTies(key, a + [x] + b, a + b + [x])
  {
    forall k ensures Filter(WithKey(key, k), a + [x] + b) == Filter(WithKey(key, k), a + b + [x]) {
      MoveBack(WithKey(key, k), a, x, b);
    }
  }

  lemma {:induction false} MoveBack<T>(keep: T -> bool, a: seq<T>, x: T, b: seq<T>)
    requires keep(x) ==> forall y :: y in b ==> !keep(y)
    ensures Filter(keep, a + [x] + b) == Filter(keep, a + b + [x])
  {
    FilterConcat(keep, a + [x], b);
    FilterSnoc(keep, a, x);
    FilterSnoc(keep, a + b, x);
    FilterConcat(keep, a, b);
    if keep(x) { FilterNone(keep, b); }
    SwapEmpty(Filter(keep, a), Kept(keep, x), Filter(keep, b));
  }

  lemma SwapEmpty<T>(a: seq<T>, x: seq<T>, b: seq<T>)
    requires x == [] || b == []
    ensures a + x + b == a + b + x
  {
  }

  lemma {:induction false} TiesAppend<T>(key: T -> int, a: seq<T>, b: seq<T>, x: T)
    requires SameTies(key, a, b)
    ensures SameTies(key, a + [x], b + [x])
  {
    forall k ensures Filter(WithKey(key, k), a + [x]) == Filter(WithKey(key, k), b + [x]) {
      FilterConcat(WithKey(key, k), a, [x]);
      FilterConcat(WithKey(key, k), b, [x]);
    }
  }

  /** Stable sort by a key. */
  method SortBy<T>(key: T -> int, s: seq<T>) returns (r: seq<T>)
    ensures multiset(r) == multiset(s) && Ascending(key, r) && SameTies(key, r, s)
  {
    r := [];
    for i := 0 to |s|
      invariant multiset(r) == multiset(s[..i]) && Ascending(key, r) && SameTies(key, r, s[..i])
    {
      assert s[..i + 1] == s[..i] + [s[i]];
      TiesAppend(key, r, s[..i], s[i]);
      r := Insert(key, r, s[i]);
    }
    assert s[..|s|] == s;
  }
}
