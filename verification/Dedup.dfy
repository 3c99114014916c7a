/**
 Suppressing a hook capture's exact duplicates at write time
 (crates/rb-daemon/src/server.rs:1375-1428; crates/rb-store/src/store/core.rs:275-385, 436-459, 2396-2470).
 */
module Dedup {
  import opened Common

  type MemoryId = nat

  /** The authored fields that equivalence compares. */
  datatype Facts = Facts(content: string, summary: string, context: string, kind: string, keywords: seq<string>,
                         tags: seq<string>, files: seq<string>, anchors: seq<string>, confidence: real,
                         trust: nat, source: Option<string>, channel: Option<string>, legacyUnknown: bool,
                         user: Option<string>, host: Option<string>, agent: Option<string>, hasSession: bool)

  datatype Row = Row(namespace: string, facts: Facts, curated: bool, archived: bool, supersededBy: Option<MemoryId>)

  /** `linked` are the rows that carry an authored link. */
  datatype Store = Store(rows: map<MemoryId, Row>, linked: set<MemoryId>)

  datatype Error = NotFound(id: MemoryId) | StalePlan | InvalidArgument | Storage

  datatype Receipt = Receipt(retired: MemoryId, survivor: MemoryId)

  /** Foreign calls that fail: the neighbour search and row reads of the scan, and per candidate its
      read and its supersede transaction. */
  datatype Faults = Faults(search: bool, scanRead: MemoryId -> bool, peek: nat -> bool, supersede: nat -> bool)

  const HOOK: Option<string> := Some("hook")

  // ------------------------------------------------------------ specification

  predicate Live(s: Store, id: MemoryId) {
    id in s.rows && !s.rows[id].archived && s.rows[id].supersededBy.None?
  }

  predicate Owns(s: Store, namespace: string, id: MemoryId) {
    id in s.rows && s.rows[id].namespace == namespace
  }

  predicate Equivalent(s: Store, a: MemoryId, b: MemoryId)
    requires a in s.rows && b in s.rows
  {
    && s.rows[a].namespace == s.rows[b].namespace && s.rows[a].facts == s.rows[b].facts
    && a !in s.linked && b !in s.linked
  }

  function Retire(s: Store, retired: MemoryId, survivor: MemoryId): Store
    requires retired in s.rows
  {
    s.(rows := s.rows[retired := s.rows[retired].(archived := true, supersededBy := Some(survivor))])
  }

  /** Retire one of two equivalent rows, keeping a curated one; anything uncertain changes nothing. */
  function SupersedeDuplicate(s: Store, namespace: string, dup: MemoryId, current: MemoryId)
    : (Store, Result<Option<Receipt>, Error>)
  {
    if !Owns(s, namespace, dup) then (s, Err(NotFound(dup)))
    else if !Owns(s, namespace, current) then (s, Err(NotFound(current)))
    else if !Equivalent(s, dup, current) || (s.rows[dup].curated && s.rows[current].curated) then (s, Ok(None))
    else
      var (retired, survivor) := if s.rows[dup].curated then (current, dup) else (dup, current);
      if retired == survivor then (s, Err(InvalidArgument))
      else if !Live(s, survivor) || !Live(s, retired) then (s, Err(StalePlan))
      else (Retire(s, retired, survivor), Ok(Some(Receipt(retired, survivor))))
  }

  predicate IsDuplicate(s: Store, id: MemoryId, x: MemoryId)
    requires id in s.rows
  {
    Live(s, x) && Equivalent(s, id, x)
  }

  /** The neighbours still live and equivalent to the new row, in search order. */
  function Duplicates(s: Store, id: MemoryId, near: seq<MemoryId>): seq<MemoryId>
    requires id in s.rows
  {
    if near == [] then []
    else
      var front, last := near[..|near| - 1], near[|near| - 1];
      Duplicates(s, id, front) + (if IsDuplicate(s, id, last) then [last] else [])
  }

  lemma DuplicatesNext(s: Store, id: MemoryId, near: seq<MemoryId>, k: nat)
    requires id in s.rows && k < |near|
    ensures IsDuplicate(s, id, near[k]) ==> Duplicates(s, id, near[..k + 1]) == Duplicates(s, id, near[..k]) + [near[k]]
    ensures !IsDuplicate(s, id, near[k]) ==> Duplicates(s, id, near[..k + 1]) == Duplicates(s, id, near[..k])
  {
    assert near[..k + 1][..k] == near[..k];
  }

  /** One candidate of the loop. */
  function Turn(s: Store, namespace: string, survivor: MemoryId, dup: MemoryId, f: Faults, k: nat): (Store, MemoryId) {
    if dup == survivor || f.peek(k) || !Owns(s, namespace, dup) || s.rows[dup].facts.source != HOOK || f.supersede(k)
    then (s, survivor)
    else
      match SupersedeDuplicate(s, namespace, dup, survivor) {
        case (t, Ok(Some(receipt))) => (t, receipt.survivor)
        case (t, _) => (s, survivor)
      }
  }

  function Suppressed(s: Store, namespace: string, survivor: MemoryId, dups: seq<MemoryId>, f: Faults, k: nat)
    : (Store, MemoryId)
    requires k <= |dups|
    decreases |dups| - k
  {
    if k == |dups| then (s, survivor)
    else
      var (t, next) := Turn(s, namespace, survivor, dups[k], f, k);
      Suppressed(t, namespace, next, dups, f, k + 1)
  }

  // ------------------------------------------------------------ implementation

  /** Reading some neighbour fails. */
  ghost predicate ScanFails(near: seq<MemoryId>, f: Faults) {
    exists i :: 0 <= i < |near| && f.scanRead(near[i])
  }

  /** What the store reports as duplicates of a row; nothing for a row that is not live or not of the
      namespace, and nothing when the search or a read fails. */
  ghost function Found(s: Store, namespace: string, id: MemoryId, near: seq<MemoryId>, f: Faults): seq<MemoryId> {
    if Live(s, id) && Owns(s, namespace, id) && !f.search && !ScanFails(near, f) then Duplicates(s, id, near) else []
  }

  /** Filter a list in place: swap keepers to the front, then truncate. */
  method FilterInPlace(s: Store, id: MemoryId, near: seq<MemoryId>, f: Faults) returns (r: Result<seq<MemoryId>, Error>)
    requires id in s.rows
    ensures r.Ok? ==> r.value == Duplicates(s, id, near)
    ensures r.Err? <==> ScanFails(near, f)
  {
    var list := new MemoryId[|near|](i requires 0 <= i < |near| => near[i]);
    var kept := 0;
    for index := 0 to |near|
      invariant 0 <= kept <= index
      invariant list[..kept] == Duplicates(s, id, near[..index])
      invariant forall i :: index <= i < |near| ==> list[i] == near[i]
      invariant NoneFail(near[..index], f)
    {
      DuplicatesNext(s, id, near, index);
      assert near[..index + 1] == near[..index] + [near[index]];
      if f.scanRead(list[index]) {
        return Err(Storage);
      }
      var keep := IsDuplicate(s, id, list[index]);
      if keep {
        MoveForward(list, kept, index);
        kept := kept + 1;
      }
    }
    assert near[..|near|] == near;
    r := Ok(list[..kept]);
  }

  ghost predicate NoneFail(near: seq<MemoryId>, f: Faults) {
    forall i :: 0 <= i < |near| ==> !f.scanRead(near[i])
  }

  /** Swap one entry behind those kept so far. */
  method MoveForward(list: array<MemoryId>, kept: nat, index: nat)
    requires kept <= index < list.Length
    modifies list
    ensures list[..kept + 1] == old(list[..kept]) + [old(list[index])]
    ensures forall i :: index < i < list.Length ==> list[i] == old(list[i])
  {
    list[kept], list[index] := list[index], list[kept];
  }

  class DedupStore {
    var rows: map<MemoryId, Row>
    const linked: set<MemoryId>

    function Contents(): Store
      reads this
    {
      Store(rows, linked)
    }

    constructor (s: Store)
      ensures Contents() == s
    {
      rows, linked := s.rows, s.linked;
    }

    /** The live equivalent neighbours of a live row. */
    method EquivalentDuplicates(namespace: string, id: MemoryId, near: seq<MemoryId>, f: Faults)
      returns (r: Result<seq<MemoryId>, Error>)
      ensures !(Live(Contents(), id) && Owns(Contents(), namespace, id)) ==> r == Ok([])
      ensures Live(Contents(), id) && Owns(Contents(), namespace, id) ==>
                && (r.Err? <==> f.search || ScanFails(near, f))
                && (r.Ok? ==> r.value == Duplicates(Contents(), id, near))
    {
      if id !in rows || rows[id].namespace != namespace || rows[id].archived || rows[id].supersededBy.Some? {
        return Ok([]);
      }
      if f.search {
        return Err(Storage);
      }
      r := FilterInPlace(Contents(), id, near, f);
    }

    method Supersede(namespace: string, dup: MemoryId, current: MemoryId) returns (r: Result<Option<Receipt>, Error>)
      modifies this
      ensures (Contents(), r) == SupersedeDuplicate(old(Contents()), namespace, dup, current)
    {
      if dup !in rows || rows[dup].namespace != namespace {
        return Err(NotFound(dup));
      }
      if current !in rows || rows[current].namespace != namespace {
        return Err(NotFound(current));
      }
      if !Equivalent(Contents(), dup, current) || (rows[dup].curated && rows[current].curated) {
        return Ok(None);
      }
      var retired, survivor := dup, current;
      if rows[dup].curated {
        retired, survivor := current, dup;
      }
      if retired == survivor {
        return Err(InvalidArgument);
      }
      if !Live(Contents(), survivor) || !Live(Contents(), retired) {
        return Err(StalePlan);
      }
      rows := rows[retired := rows[retired].(archived := true, supersededBy := Some(survivor))];
      r := Ok(Some(Receipt(retired, survivor)));
    }
  }

  /** Collapse a new hook capture with its exact duplicates; the result is the row to keep. */
  method SuppressHookNearDuplicates(b: DedupStore, namespace: string, newId: MemoryId, near: seq<MemoryId>, f: Faults)
    returns (survivor: MemoryId, ghost dups: seq<MemoryId>)
    modifies b
    ensures (b.Contents(), survivor) == Suppressed(old(b.Contents()), namespace, newId, dups, f, 0)
    ensures dups == Found(old(b.Contents()), namespace, newId, near, f)
  {
    survivor, dups := newId, [];
    var found := b.EquivalentDuplicates(namespace, newId, near, f);
    if found.Err? {
      return;
    }
    dups := found.value;
    for k := 0 to |found.value|
      invariant Suppressed(b.Contents(), namespace, survivor, dups, f, k)
             == Suppressed(old(b.Contents()), namespace, newId, dups, f, 0)
    {
      var dup := found.value[k];
      if dup != survivor {
        if !f.peek(k) && Owns(b.Contents(), namespace, dup) && b.rows[dup].facts.source == HOOK {
          if !f.supersede(k) {
            var r := b.Supersede(namespace, dup, survivor);
            if r.Ok? && r.value.Some? {
              survivor := r.value.value.survivor;
            }
          }
        }
      }
    }
  }

  // ---------------------------------------------------------------- guarantees

  /** Distinct authored facts among live rows. */
  ghost function LiveFacts(s: Store): set<(string, Facts)> {
    set id | id in s.rows && Live(s, id) :: (s.rows[id].namespace, s.rows[id].facts)
  }

  /** Another live row, with the same authored facts in the same namespace and without a link. */
  ghost predicate StandsFor(s: Store, id: MemoryId, survivor: Option<MemoryId>)
    requires id in s.rows
  {
    && survivor.Some? && survivor.value != id && Live(s, survivor.value) && survivor.value !in s.linked
    && s.rows[survivor.value].namespace == s.rows[id].namespace && s.rows[survivor.value].facts == s.rows[id].facts
  }

  /** Between two stores only live, uncurated hook rows without a link were retired, each in favour of a row
      that stands for it, and nothing else of them changed. */
  ghost predicate OnlyHooksRetired(s: Store, t: Store) {
    && t.linked == s.linked && t.rows.Keys == s.rows.Keys
    && (forall id :: id in s.rows ==>
          || t.rows[id] == s.rows[id]
          || (Live(s, id) && !s.rows[id].curated && s.rows[id].facts.source == HOOK && id !in s.linked
              && StandsFor(s, id, t.rows[id].supersededBy)
              && t.rows[id] == s.rows[id].(archived := true, supersededBy := t.rows[id].supersededBy)))
  }

  lemma {:induction false} TurnSound(s: Store, namespace: string, survivor: MemoryId, dup: MemoryId, f: Faults, k: nat)
    requires Live(s, survivor) && Owns(s, namespace, survivor)
    ensures var (t, next) := Turn(s, namespace, survivor, dup, f, k);
            && Live(t, next) && Owns(t, namespace, next) && t.rows[next].facts == s.rows[survivor].facts
            && OnlyHooksRetired(s, t) && LiveFacts(t) == LiveFacts(s)
  {
    var (t, next) := Turn(s, namespace, survivor, dup, f, k);
    if t != s {
      var retired := if s.rows[dup].curated then survivor else dup;
      assert t == Retire(s, retired, next) && next != retired && Equivalent(s, retired, next) && Live(s, next);
      RetireKeepsFacts(s, retired, next);
    }
  }

  lemma RetireKeepsFacts(s: Store, retired: MemoryId, survivor: MemoryId)
    requires Live(s, retired) && Live(s, survivor) && retired != survivor && Equivalent(s, retired, survivor)
    ensures LiveFacts(Retire(s, retired, survivor)) == LiveFacts(s)
  {
    var t := Retire(s, retired, survivor);
    forall x ensures x in LiveFacts(t) <==> x in LiveFacts(s) {
      if x in LiveFacts(s) {
        var id :| id in s.rows && Live(s, id) && x == (s.rows[id].namespace, s.rows[id].facts);
        var keeper := if id == retired then survivor else id;
        assert Live(t, keeper) && x == (t.rows[keeper].namespace, t.rows[keeper].facts);
      }
      if x in LiveFacts(t) {
        var id :| id in t.rows && Live(t, id) && x == (t.rows[id].namespace, t.rows[id].facts);
        assert id != retired && Live(s, id);
      }
    }
  }

  /** Whatever calls fail, and even when the survivor switches to an older curated row: the returned
      row is live and carries the new row's facts, only uncurated hook rows were retired, and no authored
      fact disappeared from, or appeared among, the live rows. */
  lemma {:induction false} SuppressionIsSafe(s: Store, namespace: string, survivor: MemoryId, dups: seq<MemoryId>,
                                             f: Faults, k: nat)
    requires k <= |dups| && Live(s, survivor) && Owns(s, namespace, survivor)
    ensures var (t, kept) := Suppressed(s, namespace, survivor, dups, f, k);
            && Live(t, kept) && Owns(t, namespace, kept) && t.rows[kept].facts == s.rows[survivor].facts
            && OnlyHooksRetired(s, t) && LiveFacts(t) == LiveFacts(s)
    decreases |dups| - k
  {
    if k < |dups| {
      var (t, next) := Turn(s, namespace, survivor, dups[k], f, k);
      TurnSound(s, namespace, survivor, dups[k], f, k);
      SuppressionIsSafe(t, namespace, next, dups, f, k + 1);
    }
  }

  // -------------------------------------------------------------- completeness

  /** A candidate is dealt with: retired, the survivor itself, or protected by curation. */
  ghost predicate Settled(s: Store, survivor: MemoryId, id: MemoryId) {
    !Live(s, id) || id == survivor || s.rows[id].curated
  }

  ghost predicate Comparable(s: Store, namespace: string, survivor: MemoryId, id: MemoryId) {
    Owns(s, namespace, survivor) && Owns(s, namespace, id) && Equivalent(s, survivor, id)
      && s.rows[id].facts.source == HOOK
  }

  lemma {:induction false} SettledLasts(s: Store, namespace: string, survivor: MemoryId, dups: seq<MemoryId>, f: Faults,
                                        k: nat, id: MemoryId)
    requires k <= |dups| && Live(s, survivor) && Owns(s, namespace, survivor) && Settled(s, survivor, id)
    ensures var (t, kept) := Suppressed(s, namespace, survivor, dups, f, k); Settled(t, kept, id)
    decreases |dups| - k
  {
    if k < |dups| {
      var (t, next) := Turn(s, namespace, survivor, dups[k], f, k);
      TurnSound(s, namespace, survivor, dups[k], f, k);
      SettledLasts(t, namespace, next, dups, f, k + 1, id);
    }
  }

  /** When no call fails, no uncurated hook duplicate that was found stays live beside the survivor. */
  lemma {:induction false} SuppressionIsComplete(s: Store, namespace: string, survivor: MemoryId, dups: seq<MemoryId>,
                                                 f: Faults, k: nat, i: nat)
    requires k <= i < |dups| && Live(s, survivor) && Comparable(s, namespace, survivor, dups[i])
    requires forall n :: !f.peek(n) && !f.supersede(n)
    ensures var (t, kept) := Suppressed(s, namespace, survivor, dups, f, k); Settled(t, kept, dups[i])
    decreases |dups| - k
  {
    var (t, next) := Turn(s, namespace, survivor, dups[k], f, k);
    TurnSound(s, namespace, survivor, dups[k], f, k);
    if i == k {
      SettledLasts(t, namespace, next, dups, f, k + 1, dups[i]);
    } else {
      SuppressionIsComplete(t, namespace, next, dups, f, k + 1, i);
    }
  }

  lemma {:induction false} DuplicatesMembers(s: Store, id: MemoryId, near: seq<MemoryId>, x: MemoryId)
    requires id in s.rows
    ensures x in Duplicates(s, id, near) <==> x in near && IsDuplicate(s, id, x)
  {
    if near != [] {
      var front, last := near[..|near| - 1], near[|near| - 1];
      DuplicatesMembers(s, id, front, x);
      assert near == front + [last];
    }
  }

  /** So a hook capture written without any failing call collapses with every neighbour that was live
      and equivalent to it: each of them is afterwards retired, the survivor, or protected by curation. */
  lemma {:induction false} CaptureCollapses(s: Store, namespace: string, newId: MemoryId, near: seq<MemoryId>,
                                            f: Faults, x: MemoryId)
    requires Live(s, newId) && Owns(s, namespace, newId) && s.rows[newId].facts.source == HOOK
    requires !f.search && !ScanFails(near, f) && forall n :: !f.peek(n) && !f.supersede(n)
    requires x in near && IsDuplicate(s, newId, x)
    ensures var (t, kept) := Suppressed(s, namespace, newId, Found(s, namespace, newId, near, f), f, 0);
            Settled(t, kept, x)
  {
    var dups := Found(s, namespace, newId, near, f);
    DuplicatesMembers(s, newId, near, x);
    var i :| 0 <= i < |dups| && dups[i] == x;
    SuppressionIsComplete(s, namespace, newId, dups, f, 0, i);
  }
}
