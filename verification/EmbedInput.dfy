/**
 What a note's document vector is computed from, and the optimistic fingerprint of those
 fields (crates/rb-engine/src/embed_input.rs; crates/rb-types/src/embedding.rs).
 */
module EmbedInput {
  import opened Common

  type Byte = int
  type Digest = nat

  /** The fields document embedding consumes. */
  datatype Fields = Fields(content: string, keywords: seq<string>, tags: seq<string>, context: string)

  // -------------------------------------------------------------- composition

  function Join(parts: seq<string>, separator: string): string {
    if parts == [] then ""
    else if |parts| == 1 then parts[0]
    else parts[0] + separator + Join(parts[1..], separator)
  }

  function Present(part: string): seq<string> {
    if part == "" then [] else [part]
  }

  /** Entries trimmed, blank ones dropped. */
  function Trimmed(items: seq<string>): seq<string> {
    if items == [] then [] else Present(Trim(items[0])) + Trimmed(items[1..])
  }

  function JoinNonEmpty(items: seq<string>): string {
    Join(Trimmed(items), " ")
  }

  /** The text embedded for a note: raw content unless blank, then keywords, tags and context. */
  function Composed(f: Fields): string {
    Join((if Trim(f.content) == "" then [] else [f.content])
         + Present(JoinNonEmpty(f.keywords)) + Present(JoinNonEmpty(f.tags)) + Present(Trim(f.context)),
         "\n")
  }

  ghost predicate AllBlank(items: seq<string>) {
    forall i :: 0 <= i < |items| ==> Trim(items[i]) == ""
  }

  lemma {:induction false} TrimmedOfBlank(items: seq<string>)
    requires AllBlank(items)
    ensures Trimmed(items) == []
  {
    if items != [] { TrimmedOfBlank(items[1..]); }
  }

  /** Without enrichment a note embeds exactly its content, whitespace included. */
  lemma {:induction false} ContentOnlyIsVerbatim(f: Fields)
    requires AllBlank(f.keywords) && AllBlank(f.tags) && Trim(f.context) == ""
    ensures Composed(f) == if Trim(f.content) == "" then "" else f.content
  {
    TrimmedOfBlank(f.keywords);
    TrimmedOfBlank(f.tags);
  }

  /** A text with one more part, set off by the separator; an absent part changes nothing. */
  function Appended(before: string, part: string, separator: string): string {
    if part == "" then before else if before == "" then part else before + separator + part
  }

  /** The entries one after the other, each trimmed, blank ones left out, single spaces between. */
  function Words(items: seq<string>): string {
    if items == [] then "" else Appended(Words(items[..|items| - 1]), Trim(items[|items| - 1]), " ")
  }

  ghost predicate NoneEmpty(parts: seq<string>) {
    forall i :: 0 <= i < |parts| ==> parts[i] != ""
  }

  lemma {:induction false} JoinSnoc(parts: seq<string>, part: string, separator: string)
    requires NoneEmpty(parts) && part != ""
    ensures Join(parts + [part], separator) == Appended(Join(parts, separator), part, separator)
    ensures parts != [] ==> Join(parts, separator) != ""
  {
    if parts == [] {
      assert parts + [part] == [part];
    } else if |parts| > 1 {
      JoinSnoc(parts[1..], part, separator);
      assert (parts + [part])[1..] == parts[1..] + [part];
    } else {
      assert (parts + [part])[1..] == [part];
    }
  }

  lemma {:induction false} TrimmedSnoc(items: seq<string>, item: string)
    ensures Trimmed(items + [item]) == Trimmed(items) + Present(Trim(item))
    ensures NoneEmpty(Trimmed(items))
  {
    if items == [] {
      assert items + [item] == [item] && [item][1..] == [];
      assert Trimmed([item]) == Present(Trim(item)) + [];
    } else {
      TrimmedSnoc(items[1..], item);
      assert (items + [item])[1..] == items[1..] + [item];
    }
  }

  lemma {:induction false} JoinPresent(parts: seq<string>, part: string, separator: string)
    requires NoneEmpty(parts)
    ensures Join(parts + Present(part), separator) == Appended(Join(parts, separator), part, separator)
    ensures NoneEmpty(parts + Present(part))
  {
    if part == "" { assert parts + [] == parts; } else { JoinSnoc(parts, part, separator); }
  }

  lemma {:induction false} WordsAre(items: seq<string>)
    ensures JoinNonEmpty(items) == Words(items)
  {
    if items != [] {
      var front, last := items[..|items| - 1], items[|items| - 1];
      assert items == front + [last];
      WordsAre(front);
      TrimmedSnoc(front, last);
      JoinPresent(Trimmed(front), Trim(last), " ");
    }
  }

  /** The embedded text: the content as it is, unless blank, then the keywords, the tags and the context,
      each on a line of its own if there is any. */
  lemma {:induction false} ComposedIs(f: Fields)
    ensures var content := if Trim(f.content) == "" then "" else f.content;
            Composed(f) == Appended(Appended(Appended(content, Words(f.keywords), "\n"), Words(f.tags), "\n"),
                                    Trim(f.context), "\n")
  {
    var content := if Trim(f.content) == "" then [] else [f.content];
    assert Trim("") == "";
    WordsAre(f.keywords);
    WordsAre(f.tags);
    JoinPresent(content, Words(f.keywords), "\n");
    JoinPresent(content + Present(Words(f.keywords)), Words(f.tags), "\n");
    JoinPresent(content + Present(Words(f.keywords)) + Present(Words(f.tags)), Trim(f.context), "\n");
  }

  // ---------------------------------------------------------------- UTF-8

  function Utf8Char(c: char): seq<Byte> {
    var n := c as int;
    if n < 0x80 then [n]
    else if n < 0x800 then [0xC0 + n / 64, 0x80 + n % 64]
    else if n < 0x1_0000 then [0xE0 + n / 4096, 0x80 + n / 64 % 64, 0x80 + n % 64]
    else [0xF0 + n / 262144, 0x80 + n / 4096 % 64, 0x80 + n / 64 % 64, 0x80 + n % 64]
  }

  function Utf8(s: string): seq<Byte> {
    if s == "" then [] else Utf8Char(s[0]) + Utf8(s[1..])
  }

  /** The code point a leading byte group stands for. */
  function CodePoint(b: seq<Byte>): int
    requires b != []
  {
    if b[0] < 0x80 || |b| < 2 then b[0]
    else if b[0] < 0xE0 || |b| < 3 then 64 * b[0] + b[1] - 64 * 0xC0 - 0x80
    else if b[0] < 0xF0 || |b| < 4 then 4096 * b[0] + 64 * b[1] + b[2] - 4096 * 0xE0 - 65 * 0x80
    else 262144 * b[0] + 4096 * b[1] + 64 * b[2] + b[3] - 262144 * 0xF0 - 4161 * 0x80
  }

  lemma CodePointOfChar(c: char, rest: seq<Byte>)
    ensures CodePoint(Utf8Char(c) + rest) == c as int
  {
    var n := c as int;
    assert n / 64 == n / 4096 * 64 + n / 64 % 64;
    assert n / 4096 == n / 262144 * 64 + n / 4096 % 64;
  }

  lemma {:induction false} Utf8Injective(s: string, t: string)
    requires Utf8(s) == Utf8(t)
    ensures s == t
  {
    assert s != "" ==> |Utf8(s)| >= 1;
    assert t != "" ==> |Utf8(t)| >= 1;
    if s != "" && t != "" {
      CodePointOfChar(s[0], Utf8(s[1..]));
      CodePointOfChar(t[0], Utf8(t[1..]));
      assert s[0] == t[0];
      CancelLeft(Utf8Char(s[0]), Utf8(s[1..]), Utf8(t[1..]));
      Utf8Injective(s[1..], t[1..]);
      assert s == [s[0]] + s[1..] && t == [t[0]] + t[1..];
    }
  }

  // --------------------------------------------------------------- framing

  function Pow256(k: nat): nat {
    if k == 0 then 1 else 256 * Pow256(k - 1)
  }

  /** The low `k` bytes of a number, least significant first. */
  function LittleEndian(n: nat, k: nat): (r: seq<Byte>)
    ensures |r| == k
  {
    if k == 0 then [] else [n % 256] + LittleEndian(n / 256, k - 1)
  }

  lemma {:induction false} LittleEndianInjective(m: nat, n: nat, k: nat)
    requires m < Pow256(k) && n < Pow256(k)
    requires LittleEndian(m, k) == LittleEndian(n, k)
    ensures m == n
  {
    if k > 0 {
      var a, b := LittleEndian(m, k), LittleEndian(n, k);
      assert a[0] == m % 256 && b[0] == n % 256;
      assert LittleEndian(m / 256, k - 1) == a[1..] == b[1..] == LittleEndian(n / 256, k - 1);
      LittleEndianInjective(m / 256, n / 256, k - 1);
    }
  }

  /** Each entry with its byte length in front; a length takes `w` bytes, eight in the code. */
  function Entries(items: seq<string>, w: nat): seq<Byte> {
    if items == [] then []
    else LittleEndian(|Utf8(items[0])|, w) + Utf8(items[0]) + Entries(items[1..], w)
  }

  function Block(items: seq<string>, w: nat): seq<Byte> {
    LittleEndian(|items|, w) + Entries(items, w)
  }

  /** The byte string that is hashed. */
  function Frame(f: Fields, w: nat): seq<Byte> {
    Block([f.content], w) + Block(f.keywords, w) + Block(f.tags, w) + Block([f.context], w)
  }

  /** Sizes that a length of `w` bytes can hold. */
  ghost predicate Fits(items: seq<string>, w: nat) {
    |items| < Pow256(w) && forall i :: 0 <= i < |items| ==> |Utf8(items[i])| < Pow256(w)
  }

  ghost predicate Addressable(f: Fields, w: nat) {
    Fits([f.content], w) && Fits(f.keywords, w) && Fits(f.tags, w) && Fits([f.context], w)
  }

  /** Cut two equal byte strings after equally long heads. */
  lemma SplitEqual(a: seq<Byte>, x: seq<Byte>, b: seq<Byte>, y: seq<Byte>)
    requires a + x == b + y && |a| == |b|
    ensures a == b && x == y
  {
    assert a == (a + x)[..|a|] == (b + y)[..|b|] == b;
    CancelLeft(a, x, y);
  }

  /** A length-prefixed text ends where its length says. */
  lemma {:induction false} EntryInjective(s: string, x: seq<Byte>, t: string, y: seq<Byte>, w: nat)
    requires |Utf8(s)| < Pow256(w) && |Utf8(t)| < Pow256(w)
    requires LittleEndian(|Utf8(s)|, w) + (Utf8(s) + x) == LittleEndian(|Utf8(t)|, w) + (Utf8(t) + y)
    ensures s == t && x == y
  {
    var p, q := Utf8(s), Utf8(t);
    SplitEqual(LittleEndian(|p|, w), p + x, LittleEndian(|q|, w), q + y);
    LittleEndianInjective(|p|, |q|, w);
    SplitEqual(p, x, q, y);
    Utf8Injective(s, t);
  }

  lemma {:induction false} EntriesUnfold(a: seq<string>, x: seq<Byte>, w: nat)
    requires a != []
    ensures Entries(a, w) + x == LittleEndian(|Utf8(a[0])|, w) + (Utf8(a[0]) + (Entries(a[1..], w) + x))
  {
  }

  lemma {:induction false} EntriesInjective(a: seq<string>, x: seq<Byte>, b: seq<string>, y: seq<Byte>, w: nat)
    requires Fits(a, w) && Fits(b, w) && |a| == |b|
    requires Entries(a, w) + x == Entries(b, w) + y
    ensures a == b && x == y
  {
    if a == [] {
      assert Entries(a, w) + x == x && Entries(b, w) + y == y;
    } else {
      EntriesUnfold(a, x, w);
      EntriesUnfold(b, y, w);
      EntryInjective(a[0], Entries(a[1..], w) + x, b[0], Entries(b[1..], w) + y, w);
      EntriesInjective(a[1..], x, b[1..], y, w);
      assert a == [a[0]] + a[1..] && b == [b[0]] + b[1..];
    }
  }

  lemma {:induction false} BlockInjective(a: seq<string>, x: seq<Byte>, b: seq<string>, y: seq<Byte>, w: nat)
    requires Fits(a, w) && Fits(b, w) && Block(a, w) + x == Block(b, w) + y
    ensures a == b && x == y
  {
    Regroup(LittleEndian(|a|, w), Entries(a, w), x);
    Regroup(LittleEndian(|b|, w), Entries(b, w), y);
    SplitEqual(LittleEndian(|a|, w), Entries(a, w) + x, LittleEndian(|b|, w), Entries(b, w) + y);
    LittleEndianInjective(|a|, |b|, w);
    EntriesInjective(a, x, b, y, w);
  }

  /** Four blocks in a row fall apart in one way only. */
  lemma {:induction false} BlocksInjective(a: seq<seq<string>>, b: seq<seq<string>>, w: nat)
    requires |a| == |b| == 4
    requires forall i :: 0 <= i < 4 ==> Fits(a[i], w) && Fits(b[i], w)
    requires Block(a[0], w) + Block(a[1], w) + Block(a[2], w) + Block(a[3], w)
          == Block(b[0], w) + Block(b[1], w) + Block(b[2], w) + Block(b[3], w)
    ensures a == b
  {
    var x, y := Block(a[2], w) + Block(a[3], w), Block(b[2], w) + Block(b[3], w);
    BlocksRegroup(Block(a[0], w), Block(a[1], w), Block(a[2], w), Block(a[3], w));
    BlocksRegroup(Block(b[0], w), Block(b[1], w), Block(b[2], w), Block(b[3], w));
    BlockInjective(a[0], Block(a[1], w) + x, b[0], Block(b[1], w) + y, w);
    BlockInjective(a[1], x, b[1], y, w);
    BlockInjective(a[2], Block(a[3], w), b[2], Block(b[3], w), w);
    assert Block(a[3], w) + [] == Block(a[3], w) && Block(b[3], w) + [] == Block(b[3], w);
    BlockInjective(a[3], [], b[3], [], w);
  }

  lemma BlocksRegroup(p: seq<Byte>, q: seq<Byte>, r: seq<Byte>, s: seq<Byte>)
    ensures p + q + r + s == p + (q + (r + s))
  {
  }

  /** Length prefixes keep field and list boundaries: different fields are hashed as different
      byte strings. */
  lemma {:induction false} FrameInjective(f: Fields, g: Fields, w: nat)
    requires Addressable(f, w) && Addressable(g, w) && Frame(f, w) == Frame(g, w)
    ensures f == g
  {
    var a, b := [[f.content], f.keywords, f.tags, [f.context]], [[g.content], g.keywords, g.tags, [g.context]];
    BlocksInjective(a, b, w);
    assert a[0][0] == b[0][0] && a[1] == b[1] && a[2] == b[2] && a[3][0] == b[3][0];
  }

  /** The fingerprint compared by the vector write. */
  function Fingerprint(hash: seq<Byte> -> Digest, f: Fields, w: nat): Digest {
    hash(Frame(f, w))
  }

  /** Equal fingerprints mean equal fields, unless the hash itself collides on their two frames. */
  lemma {:induction false} FingerprintSeparates(hash: seq<Byte> -> Digest, f: Fields, g: Fields, w: nat)
    requires Addressable(f, w) && Addressable(g, w)
    requires hash(Frame(f, w)) == hash(Frame(g, w)) ==> Frame(f, w) == Frame(g, w)
    ensures Fingerprint(hash, f, w) == Fingerprint(hash, g, w) <==> f == g
  {
    if Frame(f, w) == Frame(g, w) { FrameInjective(f, g, w); }
  }

  lemma {:induction false} EntriesAppend(items: seq<string>, item: string, w: nat)
    ensures Entries(items + [item], w) == Entries(items, w) + LittleEndian(|Utf8(item)|, w) + Utf8(item)
  {
    if items == [] {
      assert items + [item] == [item] && [item][1..] == [];
    } else {
      assert (items + [item])[1..] == items[1..] + [item] && (items + [item])[0] == items[0];
      EntriesAppend(items[1..], item, w);
    }
  }

  lemma {:induction false} FeedStep(head: seq<Byte>, items: seq<string>, i: nat, w: nat)
    requires i < |items|
    ensures head + Entries(items[..i], w) + LittleEndian(|Utf8(items[i])|, w) + Utf8(items[i])
         == head + Entries(items[..i + 1], w)
  {
    var p, q, r := Entries(items[..i], w), LittleEndian(|Utf8(items[i])|, w), Utf8(items[i]);
    EntriesAppend(items[..i], items[i], w);
    assert items[..i + 1] == items[..i] + [items[i]];
    Regroup(head + p, q, r);
    Regroup(head, p, q + r);
    Regroup(p, q, r);
  }

  /** What the running hash is fed for one group of fields. */
  method FeedGroup(items: seq<string>, w: nat) returns (bytes: seq<Byte>)
    ensures bytes == Block(items, w)
  {
    bytes := LittleEndian(|items|, w);
    for i := 0 to |items|
      invariant bytes == LittleEndian(|items|, w) + Entries(items[..i], w)
    {
      FeedStep(LittleEndian(|items|, w), items, i, w);
      bytes := bytes + LittleEndian(|Utf8(items[i])|, w);
      bytes := bytes + Utf8(items[i]);
    }
    assert items[..|items|] == items;
  }

  /** Feed all fields, scalars as one-element groups. */
  method Feed(f: Fields, w: nat) returns (bytes: seq<Byte>)
    ensures bytes == Frame(f, w)
  {
    var groups := [[f.content], f.keywords, f.tags, [f.context]];
    ghost var fed: seq<seq<Byte>> := [[]];
    bytes := [];
    for g := 0 to 4
      invariant |fed| == g + 1 && fed[0] == [] && bytes == fed[g]
      invariant forall k :: 0 <= k < g ==> fed[k + 1] == fed[k] + Block(groups[k], w)
    {
      var group := FeedGroup(groups[g], w);
      bytes := bytes + group;
      fed := fed + [bytes];
    }
    assert fed[1] == Block(groups[0], w);
    assert fed[4] == fed[1] + Block(groups[1], w) + Block(groups[2], w) + Block(groups[3], w);
  }
}
