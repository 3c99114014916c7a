/**
 The remote embedding provider after its HTTP response has been parsed:
 index-directed placement of one chunk and chunking of a whole request
 (crates/rb-embed/src/voyage.rs).
 */
module Voyage {
  import opened Common

  type Vector = seq<real>

  /** One entry of the response's `data` array. */
  datatype Item = Item(index: Option<nat>, embedding: Vector)

  datatype Error =
    | RequestFailed
    | CountMismatch(returned: nat, expected: nat)
    | MissingIndex
    | IndexOutOfRange(index: nat)
    | DuplicateIndex(index: nat)
    | DimensionMismatch(got: nat)
    | MissingSlots

  const MAX_BATCH: nat := 128

  /** The input position an entry claims; only a one-item response may leave it out. */
  function ClaimedSlot(n: nat, pos: nat, item: Item): Option<nat> {
    match item.index
    case Some(i) => Some(i)
    case None => if n == 1 then Some(pos) else None
  }

  ghost predicate AllClaimed(n: nat, data: seq<Item>) {
    forall k :: 0 <= k < |data| ==> ClaimedSlot(n, k, data[k]).Some?
  }

  ghost function Claims(n: nat, data: seq<Item>): (r: seq<nat>)
    requires AllClaimed(n, data)
    ensures |r| == |data|
  {
    seq(|data|, k requires 0 <= k < |data| => ClaimedSlot(n, k, data[k]).value)
  }

  /** What a correct response is, said without placement: one vector of the right
      length per input, whose claimed positions are a permutation of the inputs. */
  ghost predicate WellFormed(n: nat, data: seq<Item>, dim: nat) {
    && |data| == n
    && AllClaimed(n, data)
    && multiset(Claims(n, data)) == multiset(Range(n))
    && (forall k :: 0 <= k < n ==> |data[k].embedding| == dim)
  }

  /** Output position `slot` carries the vector some entry declared for it. */
  ghost predicate Paired(n: nat, data: seq<Item>, out: seq<Vector>) {
    && |out| == n
    && AllClaimed(n, data)
    && (forall k :: 0 <= k < |data| ==>
          Claims(n, data)[k] < n && out[Claims(n, data)[k]] == data[k].embedding)
  }

  lemma InRangeDistinctIsPermutation(s: seq<nat>, n: nat)
    requires |s| == n && NoDuplicates(s)
    requires forall i :: 0 <= i < n ==> s[i] < n
    ensures multiset(s) == multiset(Range(n))
  {
    Pigeonhole(s, n);
    forall x: nat ensures multiset(s)[x] == multiset(Range(n))[x] {
      NoDuplicatesMultiplicity(s, x);
      NoDuplicatesMultiplicity(Range(n), x);
      assert x < n ==> Range(n)[x] == x;
    }
  }

  lemma {:induction false} NoDuplicatesMultiplicity(s: seq<nat>, x: nat)
    requires NoDuplicates(s)
    ensures multiset(s)[x] == if x in s then 1 else 0
  {
    if s != [] {
      var front := s[..|s| - 1];
      NoDuplicatesMultiplicity(front, x);
      assert s == front + [s[|s| - 1]];
    }
  }

  lemma PermutationIsInRangeDistinct(s: seq<nat>, n: nat)
    requires multiset(s) == multiset(Range(n))
    ensures |s| == n && NoDuplicates(s)
    ensures forall i :: 0 <= i < n ==> s[i] < n
  {
    assert |multiset(s)| == |multiset(Range(n))|;
    forall i | 0 <= i < |s| ensures s[i] < n {
      assert s[i] in multiset(s);
      assert s[i] in Range(n);
    }
    forall i, j | 0 <= i < j < |s| ensures s[i] != s[j] {
      if s[i] == s[j] {
        RepeatedMultiplicity(s, i, j);
        NoDuplicatesMultiplicity(Range(n), s[i]);
        assert false;
      }
    }
  }

  lemma RepeatedMultiplicity(s: seq<nat>, i: nat, j: nat)
    requires i < j < |s| && s[i] == s[j]
    ensures multiset(s)[s[i]] >= 2
  {
    assert s == s[..j] + [s[j]] + s[j + 1..];
    assert s[i] in s[..j];
    assert multiset(s) == multiset(s[..j]) + multiset{s[j]} + multiset(s[j + 1..]);
  }

  /** The fault an error names is really present in the response. */
  ghost predicate Explains(n: nat, data: seq<Item>, dim: nat, error: Error) {
    match error
    case RequestFailed => false
    case CountMismatch(returned, expected) => returned == |data| != n == expected
    case MissingIndex => n != 1 && exists k :: 0 <= k < |data| && data[k].index.None?
    case IndexOutOfRange(i) => n <= i && exists k :: 0 <= k < |data| && data[k].index == Some(i)
    case DuplicateIndex(i) =>
      exists j, k :: 0 <= j < k < |data| && data[j].index == Some(i) == data[k].index
    case DimensionMismatch(got) =>
      got != dim && exists k :: 0 <= k < |data| && |data[k].embedding| == got
    case MissingSlots => false
  }

  /** The entries placed so far claim distinct positions and have the right length. */
  ghost predicate Placed(n: nat, data: seq<Item>, dim: nat, claims: seq<nat>) {
    && |claims| <= |data|
    && NoDuplicates(claims)
    && (forall k :: 0 <= k < |claims| ==>
          ClaimedSlot(n, k, data[k]) == Some(claims[k]) && claims[k] < n && |data[k].embedding| == dim)
  }

  lemma PlacedIsWellFormed(n: nat, data: seq<Item>, dim: nat, claims: seq<nat>)
    requires |data| == |claims| == n && Placed(n, data, dim, claims)
    ensures WellFormed(n, data, dim) && claims == Claims(n, data)
    ensures forall i: nat :: i < n ==> i in claims
  {
    Pigeonhole(claims, n);
    assert claims == Claims(n, data);
    InRangeDistinctIsPermutation(claims, n);
  }

  /** The slot an entry is to be placed in. */
  method SlotFor(n: nat, pos: nat, item: Item) returns (r: Result<nat, Error>)
    requires pos < n
    ensures r.Ok? ==> ClaimedSlot(n, pos, item) == Some(r.value) && r.value < n
    ensures r.Err? ==> (r.error == MissingIndex && ClaimedSlot(n, pos, item).None?)
                       || (r.error.IndexOutOfRange? && item.index == Some(r.error.index) && n <= r.error.index)
  {
    var slot: nat;
    match item.index {
      case Some(i) => slot := i;
      case None =>
        if n != 1 {
          return Err(MissingIndex);
        }
        slot := pos;
    }
    r := if slot >= n then Err(IndexOutOfRange(slot)) else Ok(slot);
  }

  /** The response is not well formed, and the error says why. */
  ghost predicate Refuted(n: nat, data: seq<Item>, dim: nat, error: Error) {
    !WellFormed(n, data, dim) && Explains(n, data, dim, error)
  }

  /** Place one chunk's vectors by their declared index. */
  method EmbedChunk(n: nat, data: seq<Item>, dim: nat) returns (r: Result<seq<Vector>, Error>)
    ensures r.Ok? ==> WellFormed(n, data, dim) && Paired(n, data, r.value)
    ensures r.Err? ==> Refuted(n, data, dim, r.error)
  {
    if |data| != n {
      return Err(CountMismatch(|data|, n));
    }
    var slots := new Option<Vector>[n](_ => None);
    ghost var claims: seq<nat> := [];
    for pos := 0 to n
      invariant |claims| == pos && Placed(n, data, dim, claims)
      invariant forall k :: 0 <= k < pos ==> slots[claims[k]] == Some(data[k].embedding)
      invariant forall i :: 0 <= i < n && i !in claims ==> slots[i] == None
    {
      var item := data[pos];
      var claim := SlotFor(n, pos, item);
      if claim.Err? {
        BadClaim(n, data, dim, pos, claim.error);
        return Err(claim.error);
      }
      var slot := claim.value;
      if slots[slot].Some? {
        ghost var k :| 0 <= k < pos && claims[k] == slot;
        Clash(n, data, dim, k, pos, slot);
        return Err(DuplicateIndex(slot));
      }
      if |item.embedding| != dim {
        return Err(DimensionMismatch(|item.embedding|));
      }
      slots[slot] := Some(item.embedding);
      claims := claims + [slot];
    }
    PlacedIsWellFormed(n, data, dim, claims);
    forall i | 0 <= i < n ensures slots[i].Some? {
      assert i in claims;
    }
    var out := Collect(slots);
    r := if out.Some? then Ok(out.value) else Err(MissingSlots);
  }

  /** All slots' vectors, or nothing if one is empty. */
  method Collect(slots: array<Option<Vector>>) returns (r: Option<seq<Vector>>)
    ensures r.Some? <==> forall i :: 0 <= i < slots.Length ==> slots[i].Some?
    ensures r.Some? ==> |r.value| == slots.Length
    ensures r.Some? ==> forall i :: 0 <= i < slots.Length ==> slots[i] == Some(r.value[i])
  {
    var out: seq<Vector> := [];
    for i := 0 to slots.Length
      invariant |out| == i
      invariant forall k :: 0 <= k < i ==> slots[k] == Some(out[k])
    {
      if slots[i].None? {
        return None;
      }
      out := out + [slots[i].value];
    }
    r := Some(out);
  }

  lemma BadClaim(n: nat, data: seq<Item>, dim: nat, pos: nat, error: Error)
    requires pos < |data| == n
    requires (error == MissingIndex && ClaimedSlot(n, pos, data[pos]).None?)
             || (error.IndexOutOfRange? && data[pos].index == Some(error.index) && n <= error.index)
    ensures Refuted(n, data, dim, error)
  {
    if ClaimedSlot(n, pos, data[pos]).Some? && WellFormed(n, data, dim) {
      assert Claims(n, data)[pos] >= n;
      PermutationIsInRangeDistinct(Claims(n, data), n);
    }
  }

  lemma Clash(n: nat, data: seq<Item>, dim: nat, i: nat, j: nat, slot: nat)
    requires i < j < |data| == n
    requires ClaimedSlot(n, i, data[i]) == Some(slot) == ClaimedSlot(n, j, data[j])
    ensures Refuted(n, data, dim, DuplicateIndex(slot))
  {
    if WellFormed(n, data, dim) {
      assert Claims(n, data)[i] == Claims(n, data)[j];
      PermutationIsInRangeDistinct(Claims(n, data), n);
    }
  }

  /** Number of texts in chunk `c`, the last chunk being short. */
  function ChunkSize(total: nat, c: nat): nat
    requires c * MAX_BATCH < total
  {
    if total - c * MAX_BATCH < MAX_BATCH then total - c * MAX_BATCH else MAX_BATCH
  }

  /** Chunk `c` got a parsed, well-formed response. */
  ghost predicate ChunkServed(total: nat, dim: nat, serve: nat -> Option<seq<Item>>, c: nat)
    requires c * MAX_BATCH < total
  {
    serve(c).Some? && WellFormed(ChunkSize(total, c), serve(c).value, dim)
  }

  ghost predicate Served(total: nat, dim: nat, serve: nat -> Option<seq<Item>>) {
    forall c: nat :: c * MAX_BATCH < total ==> ChunkServed(total, dim, serve, c)
  }

  /** The chunk's part of the output pairs with its response. */
  ghost predicate ChunkPaired(total: nat, serve: nat -> Option<seq<Item>>, out: seq<Vector>, c: nat)
    requires c * MAX_BATCH < total
  {
    var from, size := c * MAX_BATCH, ChunkSize(total, c);
    serve(c).Some? && from + size <= |out| && Paired(size, serve(c).value, out[from..from + size])
  }

  lemma ChunkPairedAppend(total: nat, serve: nat -> Option<seq<Item>>, out: seq<Vector>, more: seq<Vector>, c: nat)
    requires c * MAX_BATCH < total && ChunkPaired(total, serve, out, c)
    ensures ChunkPaired(total, serve, out + more, c)
  {
  }

  lemma ChunkPairedLast(total: nat, serve: nat -> Option<seq<Item>>, out: seq<Vector>, chunk: seq<Vector>, c: nat)
    requires c * MAX_BATCH < total && serve(c).Some? && |out| == c * MAX_BATCH
    requires |chunk| == ChunkSize(total, c) && Paired(|chunk|, serve(c).value, chunk)
    ensures ChunkPaired(total, serve, out + chunk, c)
  {
  }

  /** Embed any number of texts; `serve(c)` is the parsed body for chunk `c`, or
      `None` for a transport, status or decoding failure. */
  method Embed(texts: seq<string>, dim: nat, serve: nat -> Option<seq<Item>>)
    returns (r: Result<seq<Vector>, Error>)
    ensures r.Ok? <==> Served(|texts|, dim, serve)
    ensures r.Ok? ==> |r.value| == |texts|
    ensures r.Ok? ==> forall c: nat :: c * MAX_BATCH < |texts| ==>
                        ChunkPaired(|texts|, serve, r.value, c)
    ensures r.Err? ==> !r.error.MissingSlots?
  {
    if |texts| == 0 {
      return Ok([]);
    }
    var out: seq<Vector> := [];
    var c := 0;
    while c * MAX_BATCH < |texts|
      invariant |out| == if c * MAX_BATCH < |texts| then c * MAX_BATCH else |texts|
      invariant forall d: nat :: d < c ==> d * MAX_BATCH < |texts| && ChunkServed(|texts|, dim, serve, d)
      invariant forall d: nat :: d < c ==> ChunkPaired(|texts|, serve, out, d)
      decreases |texts| - c * MAX_BATCH
    {
      var body := serve(c);
      if body.None? {
        assert !ChunkServed(|texts|, dim, serve, c);
        return Err(RequestFailed);
      }
      var chunk := EmbedChunk(ChunkSize(|texts|, c), body.value, dim);
      if chunk.Err? {
        assert !ChunkServed(|texts|, dim, serve, c);
        return Err(chunk.error);
      }
      forall d: nat | d < c ensures ChunkPaired(|texts|, serve, out + chunk.value, d) {
        ChunkPairedAppend(|texts|, serve, out, chunk.value, d);
      }
      ChunkPairedLast(|texts|, serve, out, chunk.value, c);
      out := out + chunk.value;
      c := c + 1;
    }
    r := Ok(out);
  }

  /** The service answers truthfully: an entry's vector is the embedding of the text at
      the position the entry claims. */
  ghost predicate Honest(texts: seq<string>, dim: nat, serve: nat -> Option<seq<Item>>,
                         embed: string -> Vector)
    requires Served(|texts|, dim, serve)
  {
    forall c: nat, k: nat :: c * MAX_BATCH < |texts|
                             && ChunkServed(|texts|, dim, serve, c) && k < |serve(c).value| ==>
      var size := ChunkSize(|texts|, c);
      var slot := Claims(size, serve(c).value)[k];
      slot < size ==> serve(c).value[k].embedding == embed(texts[c * MAX_BATCH + slot])
  }

  /** However the service orders each chunk, output i is the embedding of text i. */
  lemma PairingSurvivesChunking(texts: seq<string>, dim: nat, serve: nat -> Option<seq<Item>>,
                                embed: string -> Vector, out: seq<Vector>, i: nat)
    requires Served(|texts|, dim, serve) && Honest(texts, dim, serve, embed)
    requires |out| == |texts| && i < |texts|
    requires forall c: nat :: c * MAX_BATCH < |texts| ==>
               ChunkPaired(|texts|, serve, out, c)
    ensures out[i] == embed(texts[i])
  {
    var c, j := i / MAX_BATCH, i % MAX_BATCH;
    assert i == c * MAX_BATCH + j;
    assert ChunkServed(|texts|, dim, serve, c) && ChunkPaired(|texts|, serve, out, c);
    var size := ChunkSize(|texts|, c);
    var data := serve(c).value;
    var claims := Claims(size, data);
    PermutationIsInRangeDistinct(claims, size);
    Pigeonhole(claims, size);
    assert j in claims;
    var k: nat :| k < |claims| && claims[k] == j;
    assert out[c * MAX_BATCH..c * MAX_BATCH + size][claims[k]] == data[k].embedding;
  }
}
