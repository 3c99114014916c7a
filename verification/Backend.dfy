/**
 The store contract of the engine and its executable in-memory reference
 (crates/rb-engine/src/backend.rs): superseding writes, archive, edits and the
 compare-and-set replacement of a vector.
 */
module Backend {
  import opened Common
  import opened EmbedInput

  type MemoryId = nat
  type Time = nat
  type Vector = seq<real>

  datatype Note = Note(id: MemoryId, namespace: string, fields: Fields, summary: string, curated: bool,
                       createdAt: Time, updatedAt: Time, archivedAt: Option<Time>,
                       supersededBy: Option<MemoryId>, model: string, inputVersion: string)

  datatype Store = Store(notes: map<MemoryId, Note>, embeddings: map<MemoryId, Vector>)

  datatype Error = NotFound(id: MemoryId) | StalePlan

  datatype Command =
    | Insert(note: Note, vector: Option<Vector>)
    | Supersede(note: Note, vector: Option<Vector>, target: MemoryId, allowCurated: bool, now: Time)
    | Archive(namespace: string, id: MemoryId, now: Time)
    | Edit(namespace: string, id: MemoryId, content: Option<string>, summary: Option<string>)
    | SetVector(id: MemoryId, value: Vector, model: string, inputVersion: string, expected: Digest)

  // ------------------------------------------------------------- specification

  predicate Owns(s: Store, namespace: string, id: MemoryId) {
    id in s.notes && s.notes[id].namespace == namespace
  }

  predicate Live(s: Store, id: MemoryId) {
    id in s.notes && s.notes[id].archivedAt.None?
  }

  function Put(s: Store, note: Note, vector: Option<Vector>): Store {
    Store(s.notes[note.id := note],
          if vector.Some? then s.embeddings[note.id := vector.value] else s.embeddings)
  }

  function Retired(note: Note, successor: MemoryId, now: Time): Note {
    note.(archivedAt := Some(now), updatedAt := now, supersededBy := Some(successor))
  }

  function Edited(note: Note, content: Option<string>, summary: Option<string>): Note {
    var fields := if content.Some? then note.fields.(content := content.value) else note.fields;
    note.(fields := fields, summary := if summary.Some? then summary.value else note.summary)
  }

  /** The refusal a command meets, if any. */
  function Refusal(s: Store, digest: Fields -> Digest, cmd: Command): Option<Error> {
    match cmd
    case Insert(_, _) => None
    case Supersede(note, _, target, allowCurated, _) =>
      if !Owns(s, note.namespace, target) then Some(NotFound(target))
      else if s.notes[target].curated && !allowCurated then Some(StalePlan)
      else None
    case Archive(namespace, id, _) => if Owns(s, namespace, id) then None else Some(NotFound(id))
    case Edit(namespace, id, _, _) => if Owns(s, namespace, id) then None else Some(NotFound(id))
    case SetVector(id, _, _, _, expected) =>
      if !Live(s, id) then Some(NotFound(id))
      else if digest(s.notes[id].fields) != expected then Some(StalePlan)
      else None
  }

  /** The store after one command: unchanged when refused. */
  function Apply(s: Store, digest: Fields -> Digest, cmd: Command): Store {
    if Refusal(s, digest, cmd).Some? then s
    else match cmd
      case Insert(note, vector) => Put(s, note, vector)
      case Supersede(note, vector, target, _, now) =>
        Put(s.(notes := s.notes[target := Retired(s.notes[target], note.id, now)]), note, vector)
      case Archive(_, id, now) => s.(notes := s.notes[id := s.notes[id].(archivedAt := Some(now))])
      case Edit(_, id, content, summary) => s.(notes := s.notes[id := Edited(s.notes[id], content, summary)])
      case SetVector(id, value, model, inputVersion, _) =>
        Store(s.notes[id := s.notes[id].(model := model, inputVersion := inputVersion)],
              s.embeddings[id := value])
  }

  function Outcome(s: Store, digest: Fields -> Digest, cmd: Command): Result<(), Error> {
    match Refusal(s, digest, cmd)
    case None => Ok(())
    case Some(e) => Err(e)
  }

  /** All rows but one agree. */
  ghost predicate OthersKept(s: Store, t: Store, id: MemoryId) {
    && t.notes.Keys == s.notes.Keys + {id} && t.embeddings.Keys <= s.embeddings.Keys + {id}
    && s.embeddings.Keys <= t.embeddings.Keys
    && (forall x :: x in s.notes && x != id ==> t.notes[x] == s.notes[x])
    && (forall x :: x in s.embeddings && x != id ==> t.embeddings[x] == s.embeddings[x])
  }

  /** The row shows this content and summary, or what it showed before; nothing else of it changed. */
  ghost predicate Shows(before: Note, after: Note, content: Option<string>, summary: Option<string>) {
    && after.fields.content == (if content.Some? then content.value else before.fields.content)
    && after.summary == (if summary.Some? then summary.value else before.summary)
    && after == before.(fields := before.fields.(content := after.fields.content), summary := after.summary)
  }

  /** What an accepted command leaves behind. */
  lemma {:induction false} CommandShows(s: Store, digest: Fields -> Digest, cmd: Command)
    requires Refusal(s, digest, cmd).None?
    ensures var t := Apply(s, digest, cmd);
            match cmd {
              case Insert(note, vector) =>
                && OthersKept(s, t, note.id) && t.notes[note.id] == note
                && (vector.Some? ==> note.id in t.embeddings && t.embeddings[note.id] == vector.value)
                && (vector.None? ==> t.embeddings == s.embeddings)
              case Supersede(note, vector, target, _, now) =>
                && note.id in t.notes && t.notes[note.id] == note
                && (vector.Some? ==> note.id in t.embeddings && t.embeddings[note.id] == vector.value)
                && (target != note.id ==>
                      && target in t.notes && t.notes[target].archivedAt == Some(now)
                      && t.notes[target].supersededBy == Some(note.id) && t.notes[target].updatedAt == now
                      && t.notes[target].fields == s.notes[target].fields)
                && (forall x :: x in s.notes && x != note.id && x != target ==>
                      x in t.notes && t.notes[x] == s.notes[x])
              case Archive(_, id, now) =>
                && OthersKept(s, t, id) && t.embeddings == s.embeddings
                && t.notes[id] == s.notes[id].(archivedAt := Some(now)) && !Live(t, id)
              case Edit(_, id, content, summary) =>
                && OthersKept(s, t, id) && t.embeddings == s.embeddings
                && Shows(s.notes[id], t.notes[id], content, summary)
              case SetVector(id, value, model, inputVersion, _) =>
                && OthersKept(s, t, id) && id in t.embeddings && t.embeddings[id] == value
                && t.notes[id] == s.notes[id].(model := model, inputVersion := inputVersion)
            }
  {
  }

  /** A command is refused exactly when its row is missing or foreign, or, for a superseding write without
      intent, curated, or, for a vector, archived or changed since. */
  lemma {:induction false} RefusedExactlyWhen(s: Store, digest: Fields -> Digest, cmd: Command)
    ensures Refusal(s, digest, cmd).Some? <==>
            match cmd {
              case Insert(_, _) => false
              case Supersede(note, _, target, allow, _) =>
                || target !in s.notes || s.notes[target].namespace != note.namespace
                || (s.notes[target].curated && !allow)
              case Archive(namespace, id, _) => id !in s.notes || s.notes[id].namespace != namespace
              case Edit(namespace, id, _, _) => id !in s.notes || s.notes[id].namespace != namespace
              case SetVector(id, _, _, _, expected) =>
                id !in s.notes || s.notes[id].archivedAt.Some? || digest(s.notes[id].fields) != expected
            }
  {
  }

  // ---------------------------------------------------------- the re-embed scan

  /** Rows are filed under their own id. */
  ghost predicate Keyed(s: Store) {
    forall id :: id in s.notes ==> s.notes[id].id == id
  }

  /** An active row stamped with another embedding than the current one. */
  predicate Pending(s: Store, model: string, inputVersion: string, id: MemoryId) {
    Live(s, id) && (s.notes[id].model != model || s.notes[id].inputVersion != inputVersion)
  }

  function PendingIds(s: Store, model: string, inputVersion: string): set<MemoryId> {
    set id | id in s.notes && Pending(s, model, inputVersion, id)
  }

  function Ids(notes: seq<Note>): seq<MemoryId> {
    Mapped((n: Note) => n.id, notes)
  }

  function Rows(s: Store, ids: seq<MemoryId>): (r: seq<Note>)
    requires forall i :: 0 <= i < |ids| ==> ids[i] in s.notes
    ensures |r| == |ids|
    ensures forall i :: 0 <= i < |ids| ==> r[i] == s.notes[ids[i]]
  {
    seq(|ids|, i requires 0 <= i < |ids| => s.notes[ids[i]])
  }

  /** Distinct pending rows, newest first, with nothing newer left behind. */
  ghost predicate NewestFirst(ids: seq<MemoryId>, s: Store, pending: set<MemoryId>)
    requires pending <= s.notes.Keys
  {
    && NoDuplicates(ids)
    && (forall i :: 0 <= i < |ids| ==> ids[i] in pending)
    && (forall i, j :: 0 <= i < j < |ids| ==> s.notes[ids[j]].createdAt <= s.notes[ids[i]].createdAt)
    && (forall i, x :: 0 <= i < |ids| && x in pending && x !in ids ==>
          s.notes[x].createdAt <= s.notes[ids[i]].createdAt)
  }

  lemma NewestFirstExtend(ids: seq<MemoryId>, s: Store, pending: set<MemoryId>, x: MemoryId)
    requires pending <= s.notes.Keys && NewestFirst(ids, s, pending)
    requires x in pending && x !in ids
    requires forall y :: y in pending && y !in ids ==> s.notes[y].createdAt <= s.notes[x].createdAt
    ensures NewestFirst(ids + [x], s, pending)
  {
  }

  /** The newest pending rows, at most `limit`. */
  ghost predicate IsScan(r: seq<Note>, s: Store, pending: set<MemoryId>, limit: nat)
    requires pending <= s.notes.Keys
  {
    && |r| == Min(limit, |pending|)
    && NewestFirst(Ids(r), s, pending)
    && (forall i :: 0 <= i < |r| ==> s.notes[r[i].id] == r[i])
  }

  lemma {:induction false} NewestExists(s: Store, ids: set<MemoryId>)
    requires ids != {} && ids <= s.notes.Keys
    ensures exists x :: x in ids && forall y :: y in ids ==> s.notes[y].createdAt <= s.notes[x].createdAt
    decreases ids
  {
    var z :| z in ids;
    if ids != {z} {
      NewestExists(s, ids - {z});
      var x :| x in ids - {z} && forall y :: y in ids - {z} ==> s.notes[y].createdAt <= s.notes[x].createdAt;
      var best := if s.notes[z].createdAt <= s.notes[x].createdAt then x else z;
      assert best in ids && forall y :: y in ids ==> s.notes[y].createdAt <= s.notes[best].createdAt;
    } else {
      assert z in ids && forall y :: y in ids ==> s.notes[y].createdAt <= s.notes[z].createdAt;
    }
  }

  /** Sort newest first and truncate. */
  method Newest(s: Store, pending: set<MemoryId>, limit: nat) returns (ids: seq<MemoryId>)
    requires pending <= s.notes.Keys
    ensures |ids| == Min(limit, |pending|) && NewestFirst(ids, s, pending)
  {
    var rest := pending;
    ids := [];
    while rest != {} && |ids| < limit
      invariant rest <= pending && forall x :: x in pending ==> (x in rest <==> x !in ids)
      invariant NewestFirst(ids, s, pending)
      invariant |ids| <= limit && |ids| + |rest| == |pending|
      decreases rest
    {
      NewestExists(s, rest);
      var id :| id in rest && forall y :: y in rest ==> s.notes[y].createdAt <= s.notes[id].createdAt;
      NewestFirstExtend(ids, s, pending, id);
      ids, rest := ids + [id], rest - {id};
    }
  }

  // ------------------------------------------------------------ implementation

  class MockBackend {
    var notes: map<MemoryId, Note>
    var embeddings: map<MemoryId, Vector>
    const digest: Fields -> Digest

    function Contents(): Store
      reads this
    {
      Store(notes, embeddings)
    }

    constructor (digest: Fields -> Digest)
      ensures Contents() == Store(map[], map[]) && this.digest == digest
    {
      this.digest := digest;
      notes, embeddings := map[], map[];
    }

    method Write(note: Note, vector: Option<Vector>) returns (r: Result<(), Error>)
      modifies this
      ensures r == Ok(()) && Contents() == Apply(old(Contents()), digest, Insert(note, vector))
    {
      if vector.Some? { embeddings := embeddings[note.id := vector.value]; }
      notes := notes[note.id := note];
      r := Ok(());
    }

    method WriteSuperseding(note: Note, vector: Option<Vector>, target: MemoryId, allowCurated: bool, now: Time)
      returns (r: Result<(), Error>)
      modifies this
      ensures var cmd := Supersede(note, vector, target, allowCurated, now);
              r == old(Outcome(Contents(), digest, cmd)) && Contents() == Apply(old(Contents()), digest, cmd)
    {
      if target !in notes || notes[target].namespace != note.namespace {
        return Err(NotFound(target));
      }
      var oldNote := notes[target];
      if oldNote.curated && !allowCurated {
        return Err(StalePlan);
      }
      oldNote := oldNote.(archivedAt := Some(now));
      oldNote := oldNote.(updatedAt := now);
      oldNote := oldNote.(supersededBy := Some(note.id));
      notes := notes[target := oldNote];
      if vector.Some? { embeddings := embeddings[note.id := vector.value]; }
      notes := notes[note.id := note];
      r := Ok(());
    }

    method Update(namespace: string, id: MemoryId, content: Option<string>, summary: Option<string>)
      returns (r: Result<(), Error>)
      modifies this
      ensures var cmd := Edit(namespace, id, content, summary);
              r == old(Outcome(Contents(), digest, cmd)) && Contents() == Apply(old(Contents()), digest, cmd)
    {
      if id !in notes || notes[id].namespace != namespace {
        return Err(NotFound(id));
      }
      var note := notes[id];
      if content.Some? { note := note.(fields := note.fields.(content := content.value)); }
      if summary.Some? { note := note.(summary := summary.value); }
      notes := notes[id := note];
      r := Ok(());
    }

    method ArchiveNote(namespace: string, id: MemoryId, now: Time) returns (r: Result<(), Error>)
      modifies this
      ensures var cmd := Archive(namespace, id, now);
              r == old(Outcome(Contents(), digest, cmd)) && Contents() == Apply(old(Contents()), digest, cmd)
    {
      if id !in notes || notes[id].namespace != namespace {
        return Err(NotFound(id));
      }
      notes := notes[id := notes[id].(archivedAt := Some(now))];
      r := Ok(());
    }

    method MemoriesForReembed(model: string, inputVersion: string, limit: nat) returns (r: seq<Note>)
      requires Keyed(Contents())
      ensures IsScan(r, Contents(), PendingIds(Contents(), model, inputVersion), limit)
    {
      var s := Contents();
      var ids := Newest(s, PendingIds(s, model, inputVersion), limit);
      r := Rows(s, ids);
      assert Ids(r) == ids;
    }

    method UpdateVector(id: MemoryId, value: Vector, model: string, inputVersion: string, expected: Digest)
      returns (r: Result<(), Error>)
      modifies this
      ensures var cmd := SetVector(id, value, model, inputVersion, expected);
              r == old(Outcome(Contents(), digest, cmd)) && Contents() == Apply(old(Contents()), digest, cmd)
    {
      if id !in notes || notes[id].archivedAt.Some? {
        return Err(NotFound(id));
      }
      if digest(notes[id].fields) != expected {
        return Err(StalePlan);
      }
      embeddings := embeddings[id := value];
      notes := notes[id := notes[id].(model := model, inputVersion := inputVersion)];
      r := Ok(());
    }
  }

  // ---------------------------------------------------------------- every run

  function Run(s: Store, digest: Fields -> Digest, cmds: seq<Command>): Store
    decreases |cmds|
  {
    if cmds == [] then s else Run(Apply(s, digest, cmds[0]), digest, cmds[1..])
  }

  lemma {:induction false} RunKeepsKeyed(s: Store, digest: Fields -> Digest, cmds: seq<Command>)
    requires Keyed(s)
    ensures Keyed(Run(s, digest, cmds))
    decreases |cmds|
  {
    if cmds != [] { RunKeepsKeyed(Apply(s, digest, cmds[0]), digest, cmds[1..]); }
  }

  /** What callers write: a note that supersedes nothing yet, under an id of its own; an id that is
      already known is only written again inside its namespace. */
  ghost predicate WritesPlainNote(s: Store, cmd: Command) {
    cmd.Insert? || cmd.Supersede? ==>
      cmd.note.supersededBy.None? && (cmd.note.id in s.notes ==> Owns(s, cmd.note.namespace, cmd.note.id))
  }

  ghost predicate PlainNotesAlong(s: Store, digest: Fields -> Digest, cmds: seq<Command>)
    decreases |cmds|
  {
    cmds == [] || (WritesPlainNote(s, cmds[0]) && PlainNotesAlong(Apply(s, digest, cmds[0]), digest, cmds[1..]))
  }

  /** One pointer: it leaves an archived note for a known note of the same namespace, and downwards. */
  ghost predicate PointerSound(s: Store, rank: MemoryId -> nat, id: MemoryId)
    requires id in s.notes
  {
    s.notes[id].supersededBy.Some? ==>
      var next := s.notes[id].supersededBy.value;
      s.notes[id].archivedAt.Some? && Owns(s, s.notes[id].namespace, next) && rank(next) < rank(id)
  }

  ghost predicate Ranked(s: Store, rank: MemoryId -> nat) {
    forall id :: id in s.notes ==> PointerSound(s, rank, id)
  }

  /** The newest replacement goes below everything that is already there. */
  ghost function Lowered(rank: MemoryId -> nat, id: MemoryId): MemoryId -> nat {
    (x: MemoryId) => if x == id then 0 else rank(x) + 1
  }

  ghost function NextRank(s: Store, digest: Fields -> Digest, rank: MemoryId -> nat, cmd: Command): MemoryId -> nat {
    if cmd.Supersede? && Refusal(s, digest, cmd).None? then Lowered(rank, cmd.note.id) else rank
  }

  lemma {:induction false} StepKeepsRank(s: Store, digest: Fields -> Digest, rank: MemoryId -> nat, cmd: Command)
    requires Ranked(s, rank) && WritesPlainNote(s, cmd)
    ensures Ranked(Apply(s, digest, cmd), NextRank(s, digest, rank, cmd))
  {
  }

  lemma {:induction false} RunKeepsRank(s: Store, digest: Fields -> Digest, rank: MemoryId -> nat, cmds: seq<Command>)
    returns (final: MemoryId -> nat)
    requires Ranked(s, rank) && PlainNotesAlong(s, digest, cmds)
    ensures Ranked(Run(s, digest, cmds), final)
    decreases |cmds|
  {
    if cmds == [] {
      final := rank;
    } else {
      StepKeepsRank(s, digest, rank, cmds[0]);
      final := RunKeepsRank(Apply(s, digest, cmds[0]), digest, NextRank(s, digest, rank, cmds[0]), cmds[1..]);
    }
  }

  // --------------------------------------------------------- following pointers

  /** A walk along `superseded_by`. */
  ghost predicate IsChain(s: Store, chain: seq<MemoryId>) {
    && (forall i :: 0 <= i < |chain| ==> chain[i] in s.notes)
    && (forall i :: 0 <= i < |chain| - 1 ==> s.notes[chain[i]].supersededBy == Some(chain[i + 1]))
  }

  lemma {:induction false} ChainDescends(s: Store, rank: MemoryId -> nat, chain: seq<MemoryId>, i: nat, j: nat)
    requires Ranked(s, rank) && IsChain(s, chain) && i < j < |chain|
    ensures rank(chain[j]) < rank(chain[i])
    ensures s.notes[chain[i]].archivedAt.Some? && s.notes[chain[i]].namespace == s.notes[chain[j]].namespace
    decreases j - i
  {
    assert PointerSound(s, rank, chain[i]);
    if i + 1 < j { ChainDescends(s, rank, chain, i + 1, j); }
  }

  lemma {:induction false} FollowToHead(s: Store, rank: MemoryId -> nat, id: MemoryId) returns (chain: seq<MemoryId>)
    requires Ranked(s, rank) && id in s.notes
    ensures IsChain(s, chain) && chain != [] && chain[0] == id
    ensures s.notes[chain[|chain| - 1]].supersededBy.None?
    decreases rank(id)
  {
    if s.notes[id].supersededBy.None? {
      chain := [id];
    } else {
      assert PointerSound(s, rank, id);
      var rest := FollowToHead(s, rank, s.notes[id].supersededBy.value);
      chain := [id] + rest;
    }
  }

  const EMPTY: Store := Store(map[], map[])

  /** A supersede history that is sound: every walk is free of repetition, stays in one namespace
      and visits only archived notes before its last, and from every note some walk ends. */
  ghost predicate HistorySound(s: Store) {
    && (forall chain :: IsChain(s, chain) ==> ChainSound(s, chain))
    && (forall id :: id in s.notes ==> exists chain :: EndsFrom(s, chain, id))
  }

  ghost predicate ChainSound(s: Store, chain: seq<MemoryId>)
    requires IsChain(s, chain)
  {
    && NoDuplicates(chain)
    && (forall i :: 0 <= i < |chain| - 1 ==> s.notes[chain[i]].archivedAt.Some?)
    && (forall i :: 0 <= i < |chain| ==> s.notes[chain[i]].namespace == s.notes[chain[0]].namespace)
  }

  ghost predicate EndsFrom(s: Store, chain: seq<MemoryId>, id: MemoryId) {
    IsChain(s, chain) && chain != [] && chain[0] == id && s.notes[chain[|chain| - 1]].supersededBy.None?
  }

  lemma {:induction false} RankedChainSound(s: Store, rank: MemoryId -> nat, chain: seq<MemoryId>)
    requires Ranked(s, rank) && IsChain(s, chain)
    ensures ChainSound(s, chain)
  {
    forall i, j | 0 <= i < j < |chain| ensures chain[i] != chain[j] {
      ChainDescends(s, rank, chain, i, j);
    }
    forall i | 0 <= i < |chain| - 1 ensures s.notes[chain[i]].archivedAt.Some? {
      ChainDescends(s, rank, chain, i, i + 1);
    }
    forall i | 0 <= i < |chain| ensures s.notes[chain[i]].namespace == s.notes[chain[0]].namespace {
      if i > 0 { ChainDescends(s, rank, chain, 0, i); }
    }
  }

  lemma {:induction false} RankedIsSound(s: Store, rank: MemoryId -> nat)
    requires Ranked(s, rank)
    ensures HistorySound(s)
  {
    forall chain | IsChain(s, chain) ensures ChainSound(s, chain) {
      RankedChainSound(s, rank, chain);
    }
    forall id | id in s.notes ensures exists chain :: EndsFrom(s, chain, id) {
      var chain := FollowToHead(s, rank, id);
      assert EndsFrom(s, chain, id);
    }
  }

  /** In every run the supersede history is sound, and a note with a pointer is archived. */
  lemma {:induction false} SupersedeHistoryIsSound(digest: Fields -> Digest, cmds: seq<Command>)
    requires PlainNotesAlong(EMPTY, digest, cmds)
    ensures HistorySound(Run(EMPTY, digest, cmds))
    ensures var end := Run(EMPTY, digest, cmds);
            forall id :: id in end.notes && end.notes[id].supersededBy.Some? ==> end.notes[id].archivedAt.Some?
  {
    var end := Run(EMPTY, digest, cmds);
    var rank := RunKeepsRank(EMPTY, digest, (_: MemoryId) => 0, cmds);
    RankedIsSound(end, rank);
    forall id | id in end.notes && end.notes[id].supersededBy.Some? ensures end.notes[id].archivedAt.Some? {
      assert PointerSound(end, rank, id);
    }
  }

  /** A pointer appears on a note, curated or not, exactly through an accepted superseding write of
      that note by another; on a curated one that write carried explicit intent. */
  lemma {:induction false} PointerStep(s: Store, digest: Fields -> Digest, cmd: Command, id: MemoryId)
    requires WritesPlainNote(s, cmd) && id in s.notes && s.notes[id].supersededBy.None?
    ensures id in Apply(s, digest, cmd).notes
    ensures Apply(s, digest, cmd).notes[id].supersededBy.Some? <==>
              && cmd.Supersede? && cmd.target == id && cmd.note.id != id
              && s.notes[id].namespace == cmd.note.namespace
              && (s.notes[id].curated ==> cmd.allowCurated)
  {
  }

  /** Along any run, a note that gained a pointer was superseded by one of the run's commands, and
      had it been curated then, by one with explicit intent. */
  lemma {:induction false} PointerNeedsIntent(s: Store, digest: Fields -> Digest, cmds: seq<Command>, id: MemoryId)
    returns (k: nat)
    requires PlainNotesAlong(s, digest, cmds) && id in s.notes && s.notes[id].supersededBy.None?
    requires var end := Run(s, digest, cmds); id in end.notes && end.notes[id].supersededBy.Some?
    ensures k < |cmds| && cmds[k].Supersede? && cmds[k].target == id
    ensures var at := Run(s, digest, cmds[..k]);
            Owns(at, cmds[k].note.namespace, id) && (at.notes[id].curated ==> cmds[k].allowCurated)
    decreases |cmds|
  {
    var next := Apply(s, digest, cmds[0]);
    PointerStep(s, digest, cmds[0], id);
    if next.notes[id].supersededBy.Some? {
      k := 0;
    } else {
      var rest := PointerNeedsIntent(next, digest, cmds[1..], id);
      k := rest + 1;
      assert cmds[..k][0] == cmds[0] && cmds[..k][1..] == cmds[1..][..rest];
    }
  }
}
