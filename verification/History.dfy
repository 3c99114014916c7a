/**
 Fitting a history reply into one wire frame: a streaming byte budget, and three forms of the
 reply that drop ever more optional rows (crates/rb-daemon/src/server.rs:1828-1877;
 crates/rb-proto/src/codec.rs:11).
 */
module History {
  import opened Common

  type Byte = nat

  const MAX_FRAME_BYTES: nat := 1024 * 1024

  /** A chain member: its links inside the chain, and everything else that is stored about it. */
  datatype Entry = Entry(id: nat, isTarget: bool, predecessors: seq<nat>, supersededBy: Option<nat>,
                         summary: string, evidence: Option<string>)

  datatype Timeline = Timeline(namespace: string, depth: nat, chain: seq<Entry>, edges: seq<(nat, nat)>,
                               cycleDetected: bool, truncated: bool)

  /** What a serializer writes, piece by piece; it is incomplete if serialization itself fails. */
  datatype Rendering = Rendering(pieces: seq<seq<Byte>>, complete: bool)

  datatype Error = Serialization | TargetTooLarge

  // ------------------------------------------------------------- byte budget

  /** Accepts bytes while the budget lasts. */
  class ByteBudget {
    var left: nat

    constructor (limit: nat)
      ensures left == limit
    {
      left := limit;
    }

    method Write(bytes: seq<Byte>) returns (ok: bool)
      modifies this
      ensures ok <==> |bytes| <= old(left)
      ensures left == if ok then old(left) - |bytes| else old(left)
    {
      if |bytes| > left {
        return false;
      }
      left := left - |bytes|;
      ok := true;
    }
  }

  function Flatten(pieces: seq<seq<Byte>>): seq<Byte> {
    if pieces == [] then [] else Flatten(pieces[..|pieces| - 1]) + pieces[|pieces| - 1]
  }

  /** A reply fits when all its bytes do; how they are split into writes plays no part. */
  predicate Fits(r: Rendering) {
    |Flatten(r.pieces)| <= MAX_FRAME_BYTES
  }

  lemma {:induction false} FlattenPrefix(pieces: seq<seq<Byte>>, n: nat)
    requires n <= |pieces|
    ensures |Flatten(pieces[..n])| <= |Flatten(pieces)|
  {
    if n < |pieces| {
      var front := pieces[..|pieces| - 1];
      FlattenPrefix(front, n);
      assert front[..n] == pieces[..n];
    } else {
      assert pieces[..n] == pieces;
    }
  }

  /** Write the pieces into a budget of one frame, stopping at the first refusal. */
  method FrameFits(r: Rendering) returns (fits: Result<bool, Error>)
    ensures fits == if !Fits(r) then Ok(false) else if r.complete then Ok(true) else Err(Serialization)
  {
    var budget := new ByteBudget(MAX_FRAME_BYTES);
    for i := 0 to |r.pieces|
      invariant fresh(budget)
      invariant budget.left + |Flatten(r.pieces[..i])| == MAX_FRAME_BYTES
    {
      assert r.pieces[..i + 1][..i] == r.pieces[..i];
      var ok := budget.Write(r.pieces[i]);
      if !ok {
        FlattenPrefix(r.pieces, i + 1);
        return Ok(false);
      }
    }
    assert r.pieces[..|r.pieces|] == r.pieces;
    fits := if r.complete then Ok(true) else Err(Serialization);
  }

  // -------------------------------------------------------------- three forms

  function Targets(chain: seq<Entry>): seq<Entry> {
    if chain == [] then []
    else
      var last := chain[|chain| - 1];
      Targets(chain[..|chain| - 1]) + (if last.isTarget then [last.(predecessors := [])] else [])
  }

  function WithoutEdges(h: Timeline): Timeline {
    h.(edges := [], truncated := true)
  }

  function TargetOnly(h: Timeline): Timeline {
    h.(edges := [], truncated := true, chain := Targets(h.chain))
  }

  /** The forms of a reply, from the whole of it to the least. */
  function Form(h: Timeline, level: nat): Timeline
    requires level < 3
  {
    if level == 0 then h else if level == 1 then WithoutEdges(h) else TargetOnly(h)
  }

  /** Keep only the target entries, then drop their predecessor ids. */
  method RetainTargets(chain: seq<Entry>) returns (r: seq<Entry>)
    ensures r == Targets(chain)
  {
    r := [];
    for i := 0 to |chain|
      invariant r == Targets(chain[..i])
    {
      assert chain[..i + 1][..i] == chain[..i];
      if chain[i].isTarget {
        r := r + [chain[i].(predecessors := [])];
      }
    }
    assert chain[..|chain|] == chain;
  }

  /** The least degraded form that fits; a serializer failure on the way stops the search. */
  ghost predicate Answers(render: Timeline -> Rendering, h: Timeline, r: Result<Timeline, Error>) {
    match r
    case Ok(reply) =>
      exists level: nat :: level < 3 && IsLeast(render, h, level) && reply == Form(h, level) && render(reply).complete
    case Err(TargetTooLarge) => forall level: nat :: level < 3 ==> !Fits(render(Form(h, level)))
    case Err(Serialization) =>
      exists level: nat :: level < 3 && IsLeast(render, h, level) && !render(Form(h, level)).complete
  }

  ghost predicate IsLeast(render: Timeline -> Rendering, h: Timeline, level: nat)
    requires level < 3
  {
    Fits(render(Form(h, level))) && forall lower: nat :: lower < level ==> !Fits(render(Form(h, lower)))
  }

  method BoundedHistoryResponse(h: Timeline, render: Timeline -> Rendering) returns (r: Result<Timeline, Error>)
    ensures Answers(render, h, r)
  {
    var reply := h;
    var fits := FrameFits(render(reply));
    assert reply == Form(h, 0);
    if fits != Ok(false) {
      assert IsLeast(render, h, 0);
      return if fits.Ok? then Ok(reply) else Err(fits.error);
    }
    reply := reply.(edges := []);
    reply := reply.(truncated := true);
    fits := FrameFits(render(reply));
    assert reply == Form(h, 1);
    if fits != Ok(false) {
      assert IsLeast(render, h, 1);
      return if fits.Ok? then Ok(reply) else Err(fits.error);
    }
    var chain := RetainTargets(reply.chain);
    reply := reply.(chain := chain);
    fits := FrameFits(render(reply));
    assert reply == Form(h, 2);
    if fits == Ok(false) {
      return Err(TargetTooLarge);
    }
    assert IsLeast(render, h, 2);
    r := if fits.Ok? then Ok(reply) else Err(fits.error);
  }

  // --------------------------------------------------------------- guarantees

  /** The same bytes give the same verdict however they are split. */
  lemma {:induction false} SplitDoesNotMatter(a: Rendering, b: Rendering)
    requires SameBytes(a, b)
    ensures Fits(a) == Fits(b)
    ensures Fits(a) == Fits(Rendering([Flatten(a.pieces)], a.complete))
  {
    var whole := [Flatten(a.pieces)];
    assert Flatten(whole) == Flatten(whole[..0]) + whole[0] && whole[..0] == [];
  }

  /** So the reply depends on the bytes of the three forms alone, not on the pieces they come in. */
  lemma {:induction false} SplittingIsInvisible(render: Timeline -> Rendering, other: Timeline -> Rendering,
                                                h: Timeline, r: Result<Timeline, Error>)
    requires forall level: nat :: level < 3 ==> SameBytes(render(Form(h, level)), other(Form(h, level)))
    ensures Answers(render, h, r) ==> Answers(other, h, r)
  {
    forall level: nat | level < 3 ensures Fits(render(Form(h, level))) == Fits(other(Form(h, level))) {
      SplitDoesNotMatter(render(Form(h, level)), other(Form(h, level)));
    }
    if Answers(render, h, r) && r != Err(TargetTooLarge) {
      var level: nat :| level < 3 && IsLeast(render, h, level)
                        && (if r.Ok? then r.value == Form(h, level) && render(r.value).complete
                            else !render(Form(h, level)).complete);
      assert IsLeast(other, h, level);
    }
  }

  ghost predicate SameBytes(a: Rendering, b: Rendering) {
    Flatten(a.pieces) == Flatten(b.pieces) && a.complete == b.complete
  }

  /** The least fitting form is unique, so the reply is determined. */
  lemma {:induction false} AnswerIsUnique(render: Timeline -> Rendering, h: Timeline,
                                          a: Result<Timeline, Error>, b: Result<Timeline, Error>)
    requires Answers(render, h, a) && Answers(render, h, b)
    ensures a == b
  {
  }

  /** What is stored about the target, as opposed to its place in the chain. */
  ghost function Evidence(chain: seq<Entry>): seq<(nat, Option<nat>, string, Option<string>)> {
    if chain == [] then []
    else
      var e := chain[|chain| - 1];
      Evidence(chain[..|chain| - 1]) + (if e.isTarget then [(e.id, e.supersededBy, e.summary, e.evidence)] else [])
  }

  lemma {:induction false} TargetsKeepEvidence(chain: seq<Entry>)
    ensures Evidence(Targets(chain)) == Evidence(chain)
    ensures forall i :: 0 <= i < |Targets(chain)| ==> Targets(chain)[i].isTarget && Targets(chain)[i].predecessors == []
  {
    if chain != [] {
      var front, last := chain[..|chain| - 1], chain[|chain| - 1];
      TargetsKeepEvidence(front);
      if last.isTarget {
      } else {
        assert Targets(chain) == Targets(front);
      }
    }
  }

  /** All edges are dropped, and the chain is whole or just the target; nothing else is. */
  ghost predicate Degraded(h: Timeline, reply: Timeline) {
    && reply.namespace == h.namespace && reply.depth == h.depth && reply.cycleDetected == h.cycleDetected
    && reply.edges == [] && reply.truncated
    && (reply.chain == h.chain
        || forall i :: 0 <= i < |reply.chain| ==> reply.chain[i].isTarget && reply.chain[i].predecessors == [])
  }

  /** The first reply in which all edges are gone still has the whole chain. */
  lemma {:induction false} EdgesGoFirst(render: Timeline -> Rendering, h: Timeline, reply: Timeline)
    requires Answers(render, h, Ok(reply)) && !Fits(render(h))
    ensures reply.edges == [] && reply.truncated
    ensures reply.chain == h.chain || !Fits(render(h.(edges := [], truncated := true)))
    ensures reply.namespace == h.namespace && reply.depth == h.depth && reply.cycleDetected == h.cycleDetected
  {
    var level: nat :| level < 3 && IsLeast(render, h, level) && reply == Form(h, level) && render(reply).complete;
    assert Form(h, 0) == h;
    if level == 2 { assert !Fits(render(Form(h, 1))); }
  }

  /** No reply alters the target's stored evidence, and a reply that drops rows says so. */
  lemma {:induction false} EvidenceIsKept(render: Timeline -> Rendering, h: Timeline, reply: Timeline)
    requires Answers(render, h, Ok(reply))
    ensures Evidence(reply.chain) == Evidence(h.chain)
    ensures reply != h ==> reply.truncated
    ensures reply.chain != h.chain ==> !Fits(render(WithoutEdges(h)))
    ensures reply == h || Degraded(h, reply)
  {
    TargetsKeepEvidence(h.chain);
    var level: nat :| level < 3 && IsLeast(render, h, level) && reply == Form(h, level) && render(reply).complete;
    if level == 2 { assert !Fits(render(Form(h, 1))); }
  }

  /** Dropping rows never makes the reply longer. */
  ghost predicate Shrinks(render: Timeline -> Rendering, h: Timeline) {
    && |Flatten(render(WithoutEdges(h)).pieces)| <= |Flatten(render(h).pieces)|
    && |Flatten(render(TargetOnly(h)).pieces)| <= |Flatten(render(WithoutEdges(h)).pieces)|
  }

  /** The size error means exactly that the target-only form itself does not fit. */
  lemma {:induction false} ErrorExactlyWhenTargetTooLarge(render: Timeline -> Rendering, h: Timeline,
                                                          r: Result<Timeline, Error>)
    requires Answers(render, h, r) && Shrinks(render, h)
    ensures r == Err(TargetTooLarge) <==> !Fits(render(TargetOnly(h)))
  {
    if !Fits(render(TargetOnly(h))) {
      assert !Fits(render(Form(h, 2))) && !Fits(render(Form(h, 1))) && !Fits(render(Form(h, 0)));
    }
    if r == Err(TargetTooLarge) {
      assert !Fits(render(Form(h, 2)));
    }
  }
}
