/** Vocabulary shared by every component model. */
module Common {

  datatype Option<+T> = None | Some(value: T)

  datatype Result<+T, +E> = Ok(value: T) | Err(error: E)

  ghost predicate NoDuplicates<T>(s: seq<T>) {
    forall i, j :: 0 <= i < j < |s| ==> s[i] != s[j]
  }

  function Elements<T>(s: seq<T>): set<T> {
    set x | x in s
  }

  function Min(a: int, b: int): int {
    if a <= b then a else b
  }

  function Max(a: int, b: int): int {
    if a >= b then a else b
  }

  /** Unicode White_Space characters, as `str::trim` and `char::is_whitespace` use them. */
  predicate IsWhitespace(c: char) {
    || '\t' <= c <= '\r'
    || c == ' '
    || c == '\U{85}'
    || c == '\U{A0}'
    || c == '\U{1680}'
    || '\U{2000}' <= c <= '\U{200A}'
    || c == '\U{2028}'
    || c == '\U{2029}'
    || c == '\U{202F}'
    || c == '\U{205F}'
    || c == '\U{3000}'
  }

  function TrimStart(s: string): string {
    if s != [] && IsWhitespace(s[0]) then TrimStart(s[1..]) else s
  }

  function TrimEnd(s: string): string {
    if s != [] && IsWhitespace(s[|s| - 1]) then TrimEnd(s[..|s| - 1]) else s
  }

  function Trim(s: string): string {
    TrimEnd(TrimStart(s))
  }

  /** `t` is what `s` holds from `at` on, with nothing but white space around it and none at its ends. */
  ghost predicate IsTrimmed(s: string, t: string, at: nat) {
    && at + |t| <= |s| && s[at..at + |t|] == t
    && (forall i :: 0 <= i < at ==> IsWhitespace(s[i])) && (forall i :: at + |t| <= i < |s| ==> IsWhitespace(s[i]))
    && (t != "" ==> !IsWhitespace(t[0]) && !IsWhitespace(t[|t| - 1]))
  }

  lemma {:induction false} TrimIs(s: string) returns (at: nat)
    ensures IsTrimmed(s, Trim(s), at)
  {
    var rest := TrimStart(s);
    TrimStartIs(s);
    TrimEndIs(rest);
    at := TrimBoth(s, rest, Trim(s));
  }

  /** `t` is `s` without the white space at its start. */
  ghost predicate IsSuffix(s: string, t: string) {
    && |t| <= |s| && s[|s| - |t|..] == t && (t != "" ==> !IsWhitespace(t[0]))
    && (forall i :: 0 <= i < |s| - |t| ==> IsWhitespace(s[i]))
  }

  /** `t` is `s` without the white space at its end. */
  ghost predicate IsPrefix(s: string, t: string) {
    && |t| <= |s| && s[..|t|] == t && (t != "" ==> !IsWhitespace(t[|t| - 1]))
    && (forall i :: |t| <= i < |s| ==> IsWhitespace(s[i]))
  }

  lemma {:induction false} TrimBoth(s: string, rest: string, t: string) returns (at: nat)
    requires IsSuffix(s, rest) && IsPrefix(rest, t)
    ensures IsTrimmed(s, t, at)
  {
    at := |s| - |rest|;
    Within(s, rest, t, at);
    assert t != "" ==> t[0] == rest[0];
  }

  lemma {:induction false} Within(s: string, rest: string, t: string, at: nat)
    requires at <= |s| && s[at..] == rest && |t| <= |rest| && rest[..|t|] == t
    ensures s[at..at + |t|] == t && forall i :: at <= i < |s| ==> s[i] == rest[i - at]
  {
    assert s[at..][..|t|] == s[at..at + |t|];
    assert forall i :: at <= i < |s| ==> s[i] == s[at..][i - at];
  }

  lemma {:induction false} TrimStartIs(s: string)
    ensures IsSuffix(s, TrimStart(s))
  {
    if s != [] && IsWhitespace(s[0]) {
      TrimStartIs(s[1..]);
      assert forall i :: 0 < i < |s| ==> s[i] == s[1..][i - 1];
    }
  }

  lemma {:induction false} TrimEndIs(s: string)
    ensures IsPrefix(s, TrimEnd(s))
  {
    if s != [] && IsWhitespace(s[|s| - 1]) {
      TrimEndIs(s[..|s| - 1]);
      assert forall i :: 0 <= i < |s| - 1 ==> s[i] == s[..|s| - 1][i];
    }
  }

  /** The first `n` naturals in order. */
  function Range(n: nat): (r: seq<nat>)
    ensures |r| == n
    ensures forall i :: 0 <= i < n ==> r[i] == i
  {
    seq(n, i => i)
  }

  /** One value per element, in order. */
  function Mapped<T, R>(f: T -> R, s: seq<T>): (r: seq<R>)
    ensures |r| == |s| && forall i :: 0 <= i < |s| ==> r[i] == f(s[i])
  {
    seq(|s|, i requires 0 <= i < |s| => f(s[i]))
  }

  lemma ElementsCons<T>(x: T, rest: seq<T>)
    ensures Elements([x] + rest) == {x} + Elements(rest)
  {
  }

  lemma ElementsConcat<T>(a: seq<T>, b: seq<T>)
    ensures Elements(a + b) == Elements(a) + Elements(b)
  {
  }

  lemma Regroup<T>(a: seq<T>, b: seq<T>, c: seq<T>)
    ensures a + b + c == a + (b + c)
  {
  }

  lemma CancelLeft<T>(a: seq<T>, b: seq<T>, c: seq<T>)
    requires a + b == a + c
    ensures b == c
  {
    assert b == (a + b)[|a|..] == (a + c)[|a|..] == c;
  }

  /** A duplicate-free sequence has as many distinct elements as positions. */
  lemma {:induction false} DistinctCount<T>(s: seq<T>)
    requires NoDuplicates(s)
    ensures |Elements(s)| == |s|
  {
    if s == [] {
      assert Elements(s) == {};
    } else {
      var front := s[..|s| - 1];
      DistinctCount(front);
      assert s == front + [s[|s| - 1]];
      assert Elements(s) == Elements(front) + {s[|s| - 1]};
      assert s[|s| - 1] !in Elements(front);
    }
  }

  /** Pigeonhole: n distinct naturals below n cover every natural below n. */
  lemma Pigeonhole(s: seq<nat>, n: nat)
    requires |s| == n && NoDuplicates(s)
    requires forall i :: 0 <= i < n ==> s[i] < n
    ensures forall k: nat :: k < n ==> k in s
  {
    var all := Elements(Range(n));
    DistinctCount(Range(n));
    DistinctCount(s);
    assert forall i :: 0 <= i < n ==> Range(n)[s[i]] == s[i];
    assert Elements(s) <= all;
    if Elements(s) != all {
      ProperSubsetIsSmaller(Elements(s), all);
      assert false;
    }
    forall k: nat | k < n ensures k in s {
      assert Range(n)[k] in all;
    }
  }

  lemma ProperSubsetIsSmaller<T>(a: set<T>, b: set<T>)
    requires a < b
    ensures |a| < |b|
  {
    var x :| x in b && x !in a;
    SubsetIsNotLarger(a, b - {x});
  }

  lemma SubsetIsNotLarger<T>(a: set<T>, b: set<T>)
    requires a <= b
    ensures |a| <= |b|
  {
    assert b == a + (b - a);
  }

  /** Decimal rendering of a natural number, as integer formatting prints it. */
  function Decimal(n: nat): (r: string)
    ensures r != []
    ensures forall i :: 0 <= i < |r| ==> '0' <= r[i] <= '9'
  {
    var digit := ['0' + (n % 10) as char];
    if n < 10 then digit else Decimal(n / 10) + digit
  }

  lemma {:induction false} DecimalInjective(m: nat, n: nat)
    requires Decimal(m) == Decimal(n)
    ensures m == n
  {
    var a, b := Decimal(m), Decimal(n);
    assert a[|a| - 1] == '0' + (m % 10) as char;
    assert b[|b| - 1] == '0' + (n % 10) as char;
    assert m % 10 == n % 10;
    assert m >= 10 ==> |a| == |Decimal(m / 10)| + 1 >= 2;
    assert n >= 10 ==> |b| == |Decimal(n / 10)| + 1 >= 2;
    if m >= 10 && n >= 10 {
      assert Decimal(m / 10) == a[..|a| - 1] == b[..|b| - 1] == Decimal(n / 10);
      DecimalInjective(m / 10, n / 10);
    }
  }
}
