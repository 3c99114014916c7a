/**
 Lexicographic order on strings by code point (which for UTF-8 is also byte order, so
 `BTreeSet<String>` iteration and Python's `sorted` agree), and the one increasing
 enumeration of a finite set of strings.
 */
module Order {
  import opened Common

  predicate Less(a: string, b: string) {
    b != [] && (a == [] || a[0] < b[0] || (a[0] == b[0] && Less(a[1..], b[1..])))
  }

  lemma {:induction false} LessIrreflexive(a: string)
    ensures !Less(a, a)
  {
    if a != [] { LessIrreflexive(a[1..]); }
  }

  lemma {:induction false} LessTransitive(a: string, b: string, c: string)
    requires Less(a, b) && Less(b, c)
    ensures Less(a, c)
  {
    if a != [] && a[0] == b[0] == c[0] { LessTransitive(a[1..], b[1..], c[1..]); }
  }

  lemma {:induction false} LessTotal(a: string, b: string)
    ensures Less(a, b) || a == b || Less(b, a)
  {
    if a != [] && b != [] && a[0] == b[0] {
      LessTotal(a[1..], b[1..]);
      if a[1..] == b[1..] { assert a == [a[0]] + a[1..] == [b[0]] + b[1..] == b; }
    }
  }

  ghost predicate Increasing(s: seq<string>) {
    forall i, j :: 0 <= i < j < |s| ==> Less(s[i], s[j])
  }

  predicate IsLeast(x: string, s: set<string>) {
    x in s && forall y :: y in s ==> x == y || Less(x, y)
  }

  lemma {:induction false} LeastExists(s: set<string>)
    requires s != {}
    ensures exists x :: IsLeast(x, s)
    decreases s
  {
    var y :| y in s;
    if s == {y} {
      assert IsLeast(y, s);
    } else {
      LeastExists(s - {y});
      var x :| IsLeast(x, s - {y});
      LessTotal(x, y);
      if Less(x, y) {
        assert IsLeast(x, s);
      } else {
        forall z | z in s ensures y == z || Less(y, z) {
          if z != y && z != x { LessTransitive(y, x, z); }
        }
        assert IsLeast(y, s);
      }
    }
  }

  lemma LeastUnique(x: string, y: string, s: set<string>)
    requires IsLeast(x, s) && IsLeast(y, s)
    ensures x == y
  {
    if x != y { LessTransitive(x, y, x); LessIrreflexive(x); }
  }

  /** `r` lists exactly the elements of `s`, in increasing order. */
  ghost predicate IsSorted(r: seq<string>, s: set<string>) {
    Increasing(r) && Elements(r) == s
  }

  /** Ordered iteration over a finite set of strings. */
  method SortedElements(s: set<string>) returns (r: seq<string>)
    ensures IsSorted(r, s)
  {
    r := [];
    var rest := s;
    while rest != {}
      invariant rest <= s && IsSorted(r, s - rest)
      invariant forall x, y :: x in r && y in rest ==> Less(x, y)
      decreases rest
    {
      LeastExists(rest);
      var x :| x in rest && IsLeast(x, rest);
      ElementsConcat(r, [x]);
      assert forall y :: y in r + [x] <==> y in r || y == x;
      r, rest := r + [x], rest - {x};
    }
  }

  lemma IncreasingHasNoDuplicates(r: seq<string>)
    requires Increasing(r)
    ensures NoDuplicates(r)
  {
    forall i, j | 0 <= i < j < |r| ensures r[i] != r[j] { LessIrreflexive(r[i]); }
  }

  lemma FirstIsLeast(x: string, rest: seq<string>)
    requires Increasing([x] + rest)
    ensures IsLeast(x, Elements([x] + rest))
    ensures Increasing(rest) && Elements(rest) == Elements([x] + rest) - {x}
  {
    var r := [x] + rest;
    ElementsCons(x, rest);
    forall i | 0 <= i < |rest| ensures Less(x, rest[i]) && rest[i] != x {
      assert r[0] == x && r[i + 1] == rest[i];
      LessIrreflexive(x);
    }
    forall i, j | 0 <= i < j < |rest| ensures Less(rest[i], rest[j]) {
      assert r[i + 1] == rest[i] && r[j + 1] == rest[j];
    }
  }

  /** A finite set of strings has only one increasing enumeration. */
  lemma {:induction false} SortedUnique(a: seq<string>, b: seq<string>)
    requires Increasing(a) && Increasing(b) && Elements(a) == Elements(b)
    ensures a == b
  {
    assert b != [] ==> b[0] in Elements(b);
    if a != [] {
      assert a[0] in Elements(a);
      assert a == [a[0]] + a[1..];
      assert b == [b[0]] + b[1..];
      FirstIsLeast(a[0], a[1..]);
      FirstIsLeast(b[0], b[1..]);
      LeastUnique(a[0], b[0], Elements(a));
      SortedUnique(a[1..], b[1..]);
    }
  }

  /** Picking the next key of an ordered scan keeps the picks ordered. */
  lemma PickKeepsSorted(picked: seq<string>, keys: seq<string>, i: nat, wanted: set<string>)
    requires i < |keys| && Increasing(keys)
    requires IsSorted(picked, Elements(keys[..i]) * wanted)
    ensures keys[i] in wanted ==> IsSorted(picked + [keys[i]], Elements(keys[..i + 1]) * wanted)
    ensures keys[i] !in wanted ==> IsSorted(picked, Elements(keys[..i + 1]) * wanted)
  {
    assert keys[..i + 1] == keys[..i] + [keys[i]];
    ElementsConcat(keys[..i], [keys[i]]);
    ElementsConcat(picked, [keys[i]]);
    forall j | 0 <= j < |picked| ensures Less(picked[j], keys[i]) {
      assert picked[j] in Elements(picked);
      var k :| 0 <= k < i && keys[..i][k] == picked[j];
    }
  }
}
