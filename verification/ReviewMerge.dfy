/**
 Combining two near-duplicate memories into one, and what survives any tree of such merges
 (crates/rb-daemon/src/server.rs:1524-1628; crates/rb-engine/src/engine.rs:347-483).
 */
module ReviewMerge {
  import opened Common

  /** The trust ladder, weakest first. */
  datatype Trust = InferredActivity | AgentAttested | HumanConfirmed | MeasuredLocal | MeasuredCi {
    function Rank(): nat {
      match this
      case InferredActivity => 0
      case AgentAttested => 1
      case HumanConfirmed => 2
      case MeasuredLocal => 3
      case MeasuredCi => 4
    }
  }

  datatype Memory = Memory(content: string, context: string, kind: string, importance: nat, confidence: real,
                           trust: Trust, keywords: seq<string>, tags: seq<string>, files: seq<string>,
                           anchors: seq<string>, quarantined: bool)

  /** What composition contributes on one occasion: whether the write gate lets the combined note
      through, the keywords and tags it falls back to, and the origin of the connection. */
  datatype Composer = Composer(accepts: bool, keywords: seq<string>, tags: seq<string>, quarantined: bool)

  // ------------------------------------------------------------ specification

  /** `a` followed by what `b` adds, in order. */
  function Union(a: seq<string>, b: seq<string>): seq<string>
    decreases b
  {
    if b == [] then a else Union(if b[0] in a then a else a + [b[0]], b[1..])
  }

  function OrElse(union: seq<string>, fallback: seq<string>): seq<string> {
    if union != [] then union else fallback
  }

  function CombinedContent(a: string, b: string): string {
    if a == b then a else a + "\n\n---\n\n" + b
  }

  function WeakerTrust(a: Trust, b: Trust): Trust {
    if a.Rank() <= b.Rank() then a else b
  }

  function Combined(a: Memory, b: Memory, c: Composer): Memory {
    Memory(CombinedContent(a.content, b.content),
           if a.context != "" then a.context else b.context,
           if b.importance > a.importance then b.kind else a.kind,
           if b.importance > a.importance then b.importance else a.importance,
           if b.confidence > a.confidence then b.confidence else a.confidence,
           WeakerTrust(a.trust, b.trust),
           OrElse(Union(a.keywords, b.keywords), c.keywords),
           OrElse(Union(a.tags, b.tags), c.tags),
           Union(a.files, b.files),
           Union(a.anchors, b.anchors),
           c.quarantined)
  }

  function Merged(a: Memory, b: Memory, c: Composer): Option<Memory> {
    if a.quarantined || b.quarantined || !c.accepts then None else Some(Combined(a, b, c))
  }

  // ----------------------------------------------------------- implementation

  method AppendMissing(a: seq<string>, b: seq<string>) returns (r: seq<string>)
    ensures r == Union(a, b)
  {
    r := a;
    for i := 0 to |b|
      invariant Union(r, b[i..]) == Union(a, b)
    {
      assert b[i..][0] == b[i] && b[i..][1..] == b[i + 1..];
      if b[i] !in r {
        r := r + [b[i]];
      }
    }
    assert b[|b|..] == [];
  }

  method Merge(a: Memory, b: Memory, c: Composer) returns (r: Option<Memory>)
    ensures r == Merged(a, b, c)
  {
    if a.quarantined || b.quarantined {
      return None;
    }
    var content := if a.content == b.content then a.content else a.content + "\n\n---\n\n" + b.content;
    var keywords := AppendMissing(a.keywords, b.keywords);
    var tags := AppendMissing(a.tags, b.tags);
    var files := AppendMissing(a.files, b.files);
    var anchors := AppendMissing(a.anchors, b.anchors);
    var context := if a.context != "" then a.context else b.context;
    var kind := if b.importance > a.importance then b.kind else a.kind;
    if !c.accepts {
      return None;
    }
    if keywords == [] { keywords := c.keywords; }
    if tags == [] { tags := c.tags; }
    var importance := if b.importance > a.importance then b.importance else a.importance;
    var confidence := if b.confidence > a.confidence then b.confidence else a.confidence;
    r := Some(Memory(content, context, kind, importance, confidence, WeakerTrust(a.trust, b.trust),
                     keywords, tags, files, anchors, c.quarantined));
  }

  // -------------------------------------------------------------- merge trees

  /** Which merges led to a memory. */
  datatype MergeTree = Leaf(memory: Memory) | Node(left: MergeTree, right: MergeTree, composer: Composer)

  /** The memory a tree of merges ends in, if every merge was accepted. */
  function Value(t: MergeTree): Option<Memory> {
    match t
    case Leaf(m) => Some(m)
    case Node(l, r, c) =>
      var a, b := Value(l), Value(r);
      if a.None? || b.None? then None else Merged(a.value, b.value, c)
  }

  function Leaves(t: MergeTree): (r: seq<Memory>)
    ensures r != []
  {
    match t
    case Leaf(m) => [m]
    case Node(l, r, _) => Leaves(l) + Leaves(r)
  }

  // -------------------------------------------------------------- quarantine

  /** Whether the last to write a memory was a connection whose notes are quarantined. */
  predicate FromQuarantine(t: MergeTree) {
    match t
    case Leaf(m) => m.quarantined
    case Node(_, _, c) => c.quarantined
  }

  /** Every composition was let through, and nothing that went into one came from quarantine. */
  predicate Mergeable(t: MergeTree) {
    match t
    case Leaf(_) => true
    case Node(l, r, c) => Mergeable(l) && Mergeable(r) && !FromQuarantine(l) && !FromQuarantine(r) && c.accepts
  }

  /** A tree of merges goes through exactly when no quarantined memory is merged anywhere in it, be it an
      original or the result of an earlier merge; the outcome is quarantined by who merged last, alone. */
  lemma {:induction false} MergesExactlyWhen(t: MergeTree)
    ensures Value(t).Some? <==> Mergeable(t)
    ensures Value(t).Some? ==> Value(t).value.quarantined == FromQuarantine(t)
  {
    if t.Node? {
      MergesExactlyWhen(t.left);
      MergesExactlyWhen(t.right);
    }
  }

  // ------------------------------------------------------------------ content

  ghost predicate OccursAt(part: string, whole: string, at: nat) {
    at + |part| <= |whole| && whole[at..at + |part|] == part
  }

  ghost predicate Occurs(part: string, whole: string) {
    exists at: nat :: OccursAt(part, whole, at)
  }

  lemma OccursInside(part: string, before: string, whole: string, after: string)
    requires Occurs(part, whole)
    ensures Occurs(part, before + whole + after)
  {
    var at: nat :| OccursAt(part, whole, at);
    var all := before + whole + after;
    assert all[|before|..|before| + |whole|] == whole;
    assert all[|before| + at..|before| + at + |part|] == whole[at..at + |part|];
    assert OccursAt(part, all, |before| + at);
  }

  lemma CombinedContentKeepsBoth(part: string, a: string, b: string)
    requires Occurs(part, a) || Occurs(part, b)
    ensures Occurs(part, CombinedContent(a, b))
  {
    if a != b {
      var rule := "\n\n---\n\n";
      if Occurs(part, a) {
        OccursInside(part, "", a, rule + b);
        assert "" + a + (rule + b) == a + rule + b;
      } else {
        OccursInside(part, a + rule, b, "");
        assert (a + rule) + b + "" == a + rule + b;
      }
    }
  }

  /** Every original text is still inside the merged one. */
  lemma {:induction false} ContentSurvives(t: MergeTree, i: nat)
    requires Value(t).Some? && i < |Leaves(t)|
    ensures Occurs(Leaves(t)[i].content, Value(t).value.content)
  {
    match t
    case Leaf(m) =>
      assert OccursAt(m.content, m.content, 0);
    case Node(l, r, c) =>
      if i < |Leaves(l)| {
        ContentSurvives(l, i);
      } else {
        ContentSurvives(r, i - |Leaves(l)|);
      }
      CombinedContentKeepsBoth(Leaves(t)[i].content, Value(l).value.content, Value(r).value.content);
  }

  // ------------------------------------------------------------------- unions

  lemma {:induction false} UnionElements(a: seq<string>, b: seq<string>)
    ensures Elements(Union(a, b)) == Elements(a) + Elements(b)
    ensures NoDuplicates(a) ==> NoDuplicates(Union(a, b))
    decreases b
  {
    if b != [] {
      var next := if b[0] in a then a else a + [b[0]];
      UnionElements(next, b[1..]);
      ElementsConcat(a, [b[0]]);
      ElementsCons(b[0], b[1..]);
      assert b == [b[0]] + b[1..];
      assert Elements([b[0]]) == {b[0]};
    }
  }

  /** All entries of one list-valued field among the leaves. */
  ghost function LeafEntries(t: MergeTree, field: Memory -> seq<string>): set<string> {
    match t
    case Leaf(m) => Elements(field(m))
    case Node(l, r, _) => LeafEntries(l, field) + LeafEntries(r, field)
  }

  const FILES: Memory -> seq<string> := (m: Memory) => m.files
  const ANCHORS: Memory -> seq<string> := (m: Memory) => m.anchors
  const KEYWORDS: Memory -> seq<string> := (m: Memory) => m.keywords
  const TAGS: Memory -> seq<string> := (m: Memory) => m.tags

  /** Files and anchors are exactly the union of the leaves'. */
  lemma {:induction false} FilesAndAnchorsAreUnions(t: MergeTree)
    requires Value(t).Some?
    ensures Elements(Value(t).value.files) == LeafEntries(t, FILES)
    ensures Elements(Value(t).value.anchors) == LeafEntries(t, ANCHORS)
  {
    if t.Node? {
      FilesAndAnchorsAreUnions(t.left);
      FilesAndAnchorsAreUnions(t.right);
      UnionElements(Value(t.left).value.files, Value(t.right).value.files);
      UnionElements(Value(t.left).value.anchors, Value(t.right).value.anchors);
    }
  }

  /** Entries composition supplied: wherever a merge found no entry at all among its members. */
  ghost function Supplied(t: MergeTree, field: Memory -> seq<string>, fallback: Composer -> seq<string>): set<string> {
    match t
    case Leaf(_) => {}
    case Node(l, r, c) =>
      var below := Supplied(l, field, fallback) + Supplied(r, field, fallback);
      if LeafEntries(t, field) + below == {} then Elements(fallback(c)) else below
  }

  const KEYWORD_FALLBACK: Composer -> seq<string> := (c: Composer) => c.keywords
  const TAG_FALLBACK: Composer -> seq<string> := (c: Composer) => c.tags

  lemma OrElseElements(union: seq<string>, fallback: seq<string>)
    ensures Elements(OrElse(union, fallback)) == if Elements(union) == {} then Elements(fallback) else Elements(union)
  {
    if union != [] { assert union[0] in Elements(union); }
  }

  /** Keywords are the leaves' plus what composition supplied on the way. */
  lemma {:induction false} KeywordsAre(t: MergeTree)
    requires Value(t).Some?
    ensures Elements(Value(t).value.keywords)
         == LeafEntries(t, KEYWORDS) + Supplied(t, KEYWORDS, KEYWORD_FALLBACK)
  {
    if t.Node? {
      KeywordsAre(t.left);
      KeywordsAre(t.right);
      var a, b := Value(t.left).value.keywords, Value(t.right).value.keywords;
      UnionElements(a, b);
      OrElseElements(Union(a, b), t.composer.keywords);
    }
  }

  lemma {:induction false} TagsAre(t: MergeTree)
    requires Value(t).Some?
    ensures Elements(Value(t).value.tags) == LeafEntries(t, TAGS) + Supplied(t, TAGS, TAG_FALLBACK)
  {
    if t.Node? {
      TagsAre(t.left);
      TagsAre(t.right);
      var a, b := Value(t.left).value.tags, Value(t.right).value.tags;
      UnionElements(a, b);
      OrElseElements(Union(a, b), t.composer.tags);
    }
  }

  /** So keywords and tags are exactly the leaves' union if and only if composition supplied nothing
      the leaves did not already have. */
  lemma {:induction false} ExactUnionWhen(t: MergeTree)
    requires Value(t).Some?
    ensures Elements(Value(t).value.keywords) == LeafEntries(t, KEYWORDS) <==>
            Supplied(t, KEYWORDS, KEYWORD_FALLBACK) <= LeafEntries(t, KEYWORDS)
    ensures Elements(Value(t).value.tags) == LeafEntries(t, TAGS) <==>
            Supplied(t, TAGS, TAG_FALLBACK) <= LeafEntries(t, TAGS)
  {
    KeywordsAre(t);
    TagsAre(t);
  }

  /** Nothing is supplied when every leaf has an entry of its own. */
  lemma {:induction false} NothingSupplied(t: MergeTree, field: Memory -> seq<string>,
                                           fallback: Composer -> seq<string>)
    requires forall i :: 0 <= i < |Leaves(t)| ==> field(Leaves(t)[i]) != []
    ensures LeafEntries(t, field) != {} && Supplied(t, field, fallback) == {}
  {
    match t
    case Leaf(m) =>
      assert Leaves(t)[0] == m && field(m)[0] in Elements(field(m));
    case Node(l, r, _) =>
      assert forall i :: 0 <= i < |Leaves(l)| ==> Leaves(t)[i] == Leaves(l)[i];
      assert forall i :: 0 <= i < |Leaves(r)| ==> Leaves(t)[|Leaves(l)| + i] == Leaves(r)[i];
      NothingSupplied(l, field, fallback);
      NothingSupplied(r, field, fallback);
  }

  /** Two keyword-free memories merge into one with keywords neither had. */
  lemma DerivedKeywordsAppear(a: Memory, b: Memory, c: Composer)
    requires !a.quarantined && !b.quarantined && c.accepts
    requires a.keywords == [] && b.keywords == [] && c.keywords != []
    ensures var t := Node(Leaf(a), Leaf(b), c);
            Value(t).Some? && Elements(Value(t).value.keywords) != LeafEntries(t, KEYWORDS)
  {
    assert c.keywords[0] in Elements(c.keywords);
  }

  // --------------------------------------------------------------- duplicates

  ghost predicate Plain(m: Memory) {
    NoDuplicates(m.keywords) && NoDuplicates(m.tags) && NoDuplicates(m.files) && NoDuplicates(m.anchors)
  }

  ghost predicate PlainInputs(t: MergeTree) {
    match t
    case Leaf(m) => Plain(m)
    case Node(l, r, c) => PlainInputs(l) && PlainInputs(r) && NoDuplicates(c.keywords) && NoDuplicates(c.tags)
  }

  /** Duplicate-free inputs give a duplicate-free result. */
  lemma {:induction false} MergesStayPlain(t: MergeTree)
    requires Value(t).Some? && PlainInputs(t)
    ensures Plain(Value(t).value)
  {
    if t.Node? {
      MergesStayPlain(t.left);
      MergesStayPlain(t.right);
      var a, b := Value(t.left).value, Value(t.right).value;
      UnionElements(a.keywords, b.keywords);
      UnionElements(a.tags, b.tags);
      UnionElements(a.files, b.files);
      UnionElements(a.anchors, b.anchors);
    }
  }

  // ------------------------------------------------------------------ metadata

  /** The first leaf of greatest importance decides importance and kind. */
  ghost predicate LeadsWith(leaves: seq<Memory>, m: Memory, i: nat) {
    && i < |leaves|
    && m.importance == leaves[i].importance && m.kind == leaves[i].kind
    && (forall j :: 0 <= j < |leaves| ==> leaves[j].importance <= m.importance)
    && (forall j :: 0 <= j < i ==> leaves[j].importance < m.importance)
  }

  lemma {:induction false} MostImportantLeads(t: MergeTree) returns (i: nat)
    requires Value(t).Some?
    ensures LeadsWith(Leaves(t), Value(t).value, i)
  {
    match t
    case Leaf(_) => i := 0;
    case Node(l, r, _) =>
      var p := MostImportantLeads(l);
      var q := MostImportantLeads(r);
      i := if Value(r).value.importance > Value(l).value.importance then |Leaves(l)| + q else p;
  }

  ghost predicate GreatestConfidence(leaves: seq<Memory>, c: real) {
    && (exists i :: 0 <= i < |leaves| && leaves[i].confidence == c)
    && (forall i :: 0 <= i < |leaves| ==> leaves[i].confidence <= c)
  }

  ghost predicate WeakestTrust(leaves: seq<Memory>, trust: Trust) {
    && (exists i :: 0 <= i < |leaves| && leaves[i].trust == trust)
    && (forall i :: 0 <= i < |leaves| ==> trust.Rank() <= leaves[i].trust.Rank())
  }

  lemma GreatestOfTwo(p: seq<Memory>, q: seq<Memory>, c: real, d: real)
    requires GreatestConfidence(p, c) && GreatestConfidence(q, d)
    ensures GreatestConfidence(p + q, if d > c then d else c)
  {
    var i :| 0 <= i < |p| && p[i].confidence == c;
    var j :| 0 <= j < |q| && q[j].confidence == d;
    assert (p + q)[i] == p[i] && (p + q)[|p| + j] == q[j];
  }

  lemma WeakestOfTwo(p: seq<Memory>, q: seq<Memory>, c: Trust, d: Trust)
    requires WeakestTrust(p, c) && WeakestTrust(q, d)
    ensures WeakestTrust(p + q, WeakerTrust(c, d))
  {
    var i :| 0 <= i < |p| && p[i].trust == c;
    var j :| 0 <= j < |q| && q[j].trust == d;
    assert (p + q)[i] == p[i] && (p + q)[|p| + j] == q[j];
  }

  /** Confidence is the greatest and trust the weakest among all leaves. */
  lemma {:induction false} ConfidenceAndTrust(t: MergeTree)
    requires Value(t).Some?
    ensures GreatestConfidence(Leaves(t), Value(t).value.confidence)
    ensures WeakestTrust(Leaves(t), Value(t).value.trust)
  {
    match t
    case Leaf(m) =>
      assert Leaves(t)[0] == m;
    case Node(l, r, _) =>
      ConfidenceAndTrust(l);
      ConfidenceAndTrust(r);
      GreatestOfTwo(Leaves(l), Leaves(r), Value(l).value.confidence, Value(r).value.confidence);
      WeakestOfTwo(Leaves(l), Leaves(r), Value(l).value.trust, Value(r).value.trust);
  }

  /** The context is the first non-empty one among the leaves. */
  ghost predicate FirstContext(leaves: seq<Memory>, context: string) {
    if context == "" then forall i :: 0 <= i < |leaves| ==> leaves[i].context == ""
    else exists i :: 0 <= i < |leaves| && leaves[i].context == context
                     && forall j :: 0 <= j < i ==> leaves[j].context == ""
  }

  lemma {:induction false} ContextIsFirst(t: MergeTree)
    requires Value(t).Some?
    ensures FirstContext(Leaves(t), Value(t).value.context)
  {
    match t
    case Leaf(m) =>
      assert Leaves(t)[0] == m;
    case Node(l, r, _) =>
      ContextIsFirst(l);
      ContextIsFirst(r);
      FirstOfTwo(Leaves(l), Leaves(r), Value(l).value.context, Value(r).value.context);
  }

  lemma FirstOfTwo(p: seq<Memory>, q: seq<Memory>, c: string, d: string)
    requires FirstContext(p, c) && FirstContext(q, d)
    ensures FirstContext(p + q, if c != "" then c else d)
  {
    if c != "" {
      var i :| 0 <= i < |p| && p[i].context == c && forall j :: 0 <= j < i ==> p[j].context == "";
      assert (p + q)[i].context == c && forall j :: 0 <= j < i ==> (p + q)[j].context == "";
    } else if d != "" {
      var i :| 0 <= i < |q| && q[i].context == d && forall j :: 0 <= j < i ==> q[j].context == "";
      assert (p + q)[|p| + i].context == d && forall j :: 0 <= j < |p| + i ==> (p + q)[j].context == "";
    }
  }

  /** Nothing of untrusted origin is laundered: a merged memory has no quarantined leaf. */
  lemma {:induction false} NoQuarantinedLeaf(t: MergeTree, i: nat)
    requires Value(t).Some? && (t.Node? || !t.memory.quarantined) && i < |Leaves(t)|
    ensures !Leaves(t)[i].quarantined
  {
    if t.Node? {
      if i < |Leaves(t.left)| {
        NoQuarantinedLeaf(t.left, i);
      } else {
        NoQuarantinedLeaf(t.right, i - |Leaves(t.left)|);
      }
    }
  }
}
