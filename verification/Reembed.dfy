/**
 Re-embedding as an optimistic protocol: a candidate is read, its text is embedded outside any
 lock, and the vector is written only if the embedded fields are still the same
 (crates/rb-engine/src/engine.rs:1063-1116; crates/rb-engine/src/backend.rs:118-141, 411-458).
 */
module Reembed {
  import opened Common
  import opened EmbedInput
  import opened Backend

  /** The current embedding: its stamp, its vectors, and which of a pass's calls fail. `others(k)`
      is what other writers do between the k-th candidate's embedding and its vector write. */
  datatype Pass = Pass(digest: Fields -> Digest, model: string, inputVersion: string,
                       vectorFor: Fields -> Vector, fails: nat -> bool, others: nat -> seq<Command>)

  function Attempt(p: Pass, seen: Note): Command {
    SetVector(seen.id, p.vectorFor(seen.fields), p.model, p.inputVersion, p.digest(seen.fields))
  }

  function Turn(p: Pass, seen: Note, s: Store, k: nat): Store {
    var at := Run(s, p.digest, p.others(k));
    if p.fails(k) then at else Apply(at, p.digest, Attempt(p, seen))
  }

  /** Whether the k-th candidate is counted as changed. */
  predicate Changes(p: Pass, seen: Note, s: Store, k: nat) {
    !p.fails(k) && Refusal(Run(s, p.digest, p.others(k)), p.digest, Attempt(p, seen)).None?
  }

  ghost predicate TurnAt(p: Pass, candidates: seq<Note>, trace: seq<Store>, k: nat)
    requires k < |candidates| && k + 1 < |trace|
  {
    trace[k + 1] == Turn(p, candidates[k], trace[k], k)
  }

  /** The stores between the candidates of one pass. */
  ghost predicate IsPass(p: Pass, candidates: seq<Note>, trace: seq<Store>) {
    && |trace| == |candidates| + 1
    && (forall k: nat :: k < |candidates| ==> TurnAt(p, candidates, trace, k))
  }

  /** How many of the first `n` candidates changed. */
  function Changed(p: Pass, candidates: seq<Note>, trace: seq<Store>, n: nat): (r: nat)
    requires n <= |candidates| && n <= |trace|
    ensures r <= n
  {
    if n == 0 then 0
    else Changed(p, candidates, trace, n - 1)
         + (if Changes(p, candidates[n - 1], trace[n - 1], n - 1) then 1 else 0)
  }

  // ------------------------------------------------------------ implementation

  /** Another writer's command, by its kind. */
  method Perform(b: MockBackend, cmd: Command)
    modifies b
    ensures b.Contents() == Apply(old(b.Contents()), b.digest, cmd)
  {
    match cmd {
      case Insert(note, vector) => var _ := b.Write(note, vector);
      case Supersede(note, vector, target, allow, now) =>
        var _ := b.WriteSuperseding(note, vector, target, allow, now);
      case Archive(namespace, id, now) => var _ := b.ArchiveNote(namespace, id, now);
      case Edit(namespace, id, content, summary) => var _ := b.Update(namespace, id, content, summary);
      case SetVector(id, value, model, inputVersion, expected) =>
        var _ := b.UpdateVector(id, value, model, inputVersion, expected);
    }
  }

  method PerformAll(b: MockBackend, cmds: seq<Command>)
    modifies b
    ensures b.Contents() == Run(old(b.Contents()), b.digest, cmds)
  {
    var i := 0;
    while i < |cmds|
      invariant 0 <= i <= |cmds|
      invariant Run(b.Contents(), b.digest, cmds[i..]) == Run(old(b.Contents()), b.digest, cmds)
    {
      assert cmds[i..][0] == cmds[i] && cmds[i..][1..] == cmds[i + 1..];
      Perform(b, cmds[i]);
      i := i + 1;
    }
  }

  /** One candidate: embed it, let the others run, try to write its vector. */
  method ProcessOne(b: MockBackend, p: Pass, note: Note, k: nat) returns (changed: bool)
    requires b.digest == p.digest
    modifies b
    ensures b.Contents() == Turn(p, note, old(b.Contents()), k)
    ensures changed == Changes(p, note, old(b.Contents()), k)
  {
    var expected := p.digest(note.fields);
    PerformAll(b, p.others(k));
    if p.fails(k) {
      return false;
    }
    var r := b.UpdateVector(note.id, p.vectorFor(note.fields), p.model, p.inputVersion, expected);
    changed := r.Ok?;
  }

  /** One pass over at most `limit` candidates, other writers running in between. */
  method ReembedPass(b: MockBackend, p: Pass, limit: nat)
    returns (scanned: nat, changed: nat, skipped: nat, candidates: seq<Note>, ghost trace: seq<Store>)
    requires b.digest == p.digest && Keyed(b.Contents())
    modifies b
    ensures IsScan(candidates, old(b.Contents()), PendingIds(old(b.Contents()), p.model, p.inputVersion), limit)
    ensures IsPass(p, candidates, trace) && trace[0] == old(b.Contents()) && trace[|candidates|] == b.Contents()
    ensures scanned == |candidates| == changed + skipped
    ensures changed == Changed(p, candidates, trace, |candidates|)
    ensures Keyed(b.Contents())
  {
    candidates := b.MemoriesForReembed(p.model, p.inputVersion, limit);
    scanned, changed, skipped, trace := ProcessAll(b, p, candidates);
    PassKeepsKeyed(p, candidates, trace, |candidates|);
  }

  /** Whatever the others write, the store can be scanned again after the pass. */
  lemma {:induction false} PassKeepsKeyed(p: Pass, candidates: seq<Note>, trace: seq<Store>, n: nat)
    requires IsPass(p, candidates, trace) && n <= |candidates| && Keyed(trace[0])
    ensures Keyed(trace[n])
  {
    if n > 0 {
      PassKeepsKeyed(p, candidates, trace, n - 1);
      assert TurnAt(p, candidates, trace, n - 1);
      RunKeepsKeyed(trace[n - 1], p.digest, p.others(n - 1));
    }
  }

  method ProcessAll(b: MockBackend, p: Pass, candidates: seq<Note>)
    returns (scanned: nat, changed: nat, skipped: nat, ghost trace: seq<Store>)
    requires b.digest == p.digest
    modifies b
    ensures IsPass(p, candidates, trace) && trace[0] == old(b.Contents()) && trace[|candidates|] == b.Contents()
    ensures scanned == |candidates| == changed + skipped
    ensures changed == Changed(p, candidates, trace, |candidates|)
  {
    scanned, changed, skipped := 0, 0, 0;
    trace := [b.Contents()];
    for k := 0 to |candidates|
      invariant scanned == k == changed + skipped && |trace| == k + 1
      invariant trace[0] == old(b.Contents()) && trace[k] == b.Contents()
      invariant forall j: nat :: j < k ==> TurnAt(p, candidates, trace, j)
      invariant changed == Changed(p, candidates, trace, k)
    {
      scanned := scanned + 1;
      var ok := ProcessOne(b, p, candidates[k], k);
      if ok { changed := changed + 1; } else { skipped := skipped + 1; }
      ghost var longer := trace + [b.Contents()];
      ChangedPrefix(p, candidates, trace, longer, k);
      forall j: nat | j <= k ensures TurnAt(p, candidates, longer, j) {
        if j < k { assert TurnAt(p, candidates, trace, j); }
      }
      trace := longer;
    }
  }

  lemma {:induction false} ChangedPrefix(p: Pass, candidates: seq<Note>, a: seq<Store>, b: seq<Store>, n: nat)
    requires n <= |candidates| && n <= |a| <= |b| && forall i :: 0 <= i < n ==> a[i] == b[i]
    ensures Changed(p, candidates, a, n) == Changed(p, candidates, b, n)
  {
    if n > 0 { ChangedPrefix(p, candidates, a, b, n - 1); }
  }

  // ---------------------------------------------------- one write, any interference

  /** All but one row agree. */
  ghost predicate SameBut(s: Store, t: Store, id: MemoryId) {
    && (forall x :: x != id ==> (x in s.notes <==> x in t.notes) && (x in s.embeddings <==> x in t.embeddings))
    && (forall x :: x != id && x in s.notes ==> x in t.notes && t.notes[x] == s.notes[x])
    && (forall x :: x != id && x in s.embeddings ==> x in t.embeddings && t.embeddings[x] == s.embeddings[x])
  }

  /** The row carries the current stamp and the vector of its own current text. */
  ghost predicate UpToDate(p: Pass, s: Store, id: MemoryId) {
    && id in s.notes && id in s.embeddings
    && s.notes[id].model == p.model && s.notes[id].inputVersion == p.inputVersion
    && s.embeddings[id] == p.vectorFor(s.notes[id].fields)
  }

  /** Whatever happened since `seen` was read: the write is accepted exactly when the row is still
      active with the very same input fields; then it carries the vector of its own current text
      and the new stamp, and nothing else moved. A refused write changes nothing. */
  lemma {:induction false} CompareAndSet(p: Pass, seen: Note, s: Store)
    requires Live(s, seen.id) && p.digest(seen.fields) == p.digest(s.notes[seen.id].fields) ==>
               seen.fields == s.notes[seen.id].fields
    ensures var accepted, t := Refusal(s, p.digest, Attempt(p, seen)).None?, Apply(s, p.digest, Attempt(p, seen));
            && (accepted <==> Live(s, seen.id) && s.notes[seen.id].fields == seen.fields)
            && (accepted ==> UpToDate(p, t, seen.id) && SameBut(s, t, seen.id))
            && (accepted ==> t.notes[seen.id]
                             == s.notes[seen.id].(model := p.model, inputVersion := p.inputVersion))
            && (!accepted ==> t == s)
  {
  }

  /** The same for the real digest and text: a hash of the framed fields, and the vector of the
      composed text. Only a collision of the hash itself could break it. */
  lemma {:induction false} HashedCompareAndSet(p: Pass, hash: seq<Byte> -> Digest, vectorOf: string -> Vector, w: nat,
                                               seen: Note, s: Store)
    requires forall f :: p.digest(f) == Fingerprint(hash, f, w)
    requires forall f :: p.vectorFor(f) == vectorOf(Composed(f))
    requires Live(s, seen.id) && Refusal(s, p.digest, Attempt(p, seen)).None?
    requires Addressable(seen.fields, w) && Addressable(s.notes[seen.id].fields, w)
    requires var a, b := Frame(seen.fields, w), Frame(s.notes[seen.id].fields, w); hash(a) == hash(b) ==> a == b
    ensures var t := Apply(s, p.digest, Attempt(p, seen));
            t.embeddings[seen.id] == vectorOf(Composed(t.notes[seen.id].fields))
  {
    FingerprintSeparates(hash, seen.fields, s.notes[seen.id].fields, w);
    CompareAndSet(p, seen, s);
  }

  // ------------------------------------------------------------ edit-free passes

  /** Store `t` is `s` with exactly the rows of `done` re-embedded. */
  ghost predicate Reembedded(p: Pass, s: Store, t: Store, done: set<MemoryId>) {
    && t.notes.Keys == s.notes.Keys
    && (forall x :: x in s.notes ==>
          t.notes[x] == if x in done then s.notes[x].(model := p.model, inputVersion := p.inputVersion) else s.notes[x])
    && (forall x :: x in done && x in s.notes ==> UpToDate(p, t, x))
    && (forall x :: x !in done ==> (x in t.embeddings <==> x in s.embeddings))
    && (forall x :: x !in done && x in s.embeddings ==> t.embeddings[x] == s.embeddings[x])
  }

  /** What an accepted attempt does. */
  function Stamp(p: Pass, t: Store, seen: Note): Store
    requires seen.id in t.notes
  {
    Store(t.notes[seen.id := t.notes[seen.id].(model := p.model, inputVersion := p.inputVersion)],
          t.embeddings[seen.id := p.vectorFor(seen.fields)])
  }

  /** Without other writers a candidate whose row is as read is stamped unless embedding fails. */
  lemma {:induction false} EditFreeTurn(p: Pass, seen: Note, t: Store, k: nat)
    requires p.others(k) == [] && Live(t, seen.id) && t.notes[seen.id].fields == seen.fields
    ensures Changes(p, seen, t, k) <==> !p.fails(k)
    ensures Turn(p, seen, t, k) == if p.fails(k) then t else Stamp(p, t, seen)
  {
  }

  lemma {:induction false} StampReembeds(p: Pass, s: Store, t: Store, done: set<MemoryId>, seen: Note)
    requires Reembedded(p, s, t, done) && seen.id !in done && seen.id in s.notes && s.notes[seen.id] == seen
    ensures Reembedded(p, s, Stamp(p, t, seen), done + {seen.id})
  {
    var u := Stamp(p, t, seen);
    forall x | x in done + {seen.id} && x in s.notes ensures UpToDate(p, u, x) {
      if x != seen.id { assert UpToDate(p, t, x); }
    }
  }

  lemma {:induction false} StillAsRead(p: Pass, s: Store, t: Store, done: set<MemoryId>, seen: Note)
    requires Reembedded(p, s, t, done) && seen.id !in done && Live(s, seen.id) && s.notes[seen.id] == seen
    ensures Live(t, seen.id) && t.notes[seen.id] == seen
  {
  }

  lemma {:induction false} TurnReembeds(p: Pass, s: Store, t: Store, done: set<MemoryId>, seen: Note, k: nat)
    requires Reembedded(p, s, t, done) && seen.id !in done && Live(s, seen.id) && s.notes[seen.id] == seen
    requires p.others(k) == []
    ensures Reembedded(p, s, Turn(p, seen, t, k), if p.fails(k) then done else done + {seen.id})
  {
    StillAsRead(p, s, t, done, seen);
    EditFreeTurn(p, seen, t, k);
    StampReembeds(p, s, t, done, seen);
  }

  /** Distinct active rows, as they are in the store. */
  ghost predicate Picked(s: Store, candidates: seq<Note>) {
    && (forall i :: 0 <= i < |candidates| ==> Live(s, candidates[i].id) && s.notes[candidates[i].id] == candidates[i])
    && (forall i, j :: 0 <= i < j < |candidates| ==> candidates[i].id != candidates[j].id)
  }

  lemma {:induction false} ScanIsPicked(s: Store, candidates: seq<Note>, model: string, inputVersion: string,
                                        limit: nat)
    requires IsScan(candidates, s, PendingIds(s, model, inputVersion), limit)
    ensures Picked(s, candidates)
    ensures forall i :: 0 <= i < |candidates| ==> candidates[i].id in PendingIds(s, model, inputVersion)
  {
  }

  /** The first `n` candidates whose embedding worked. */
  ghost function Done(p: Pass, candidates: seq<Note>, n: nat): set<MemoryId>
    requires n <= |candidates|
  {
    if n == 0 then {}
    else if p.fails(n - 1) then Done(p, candidates, n - 1)
    else Done(p, candidates, n - 1) + {candidates[n - 1].id}
  }

  lemma {:induction false} DoneMembers(p: Pass, candidates: seq<Note>, n: nat, id: MemoryId)
    requires n <= |candidates|
    ensures id in Done(p, candidates, n) <==> exists k :: 0 <= k < n && !p.fails(k) && candidates[k].id == id
  {
    if n > 0 { DoneMembers(p, candidates, n - 1, id); }
  }

  lemma {:induction false} NotYetDone(p: Pass, s: Store, candidates: seq<Note>, k: nat)
    requires k < |candidates| && Picked(s, candidates)
    ensures candidates[k].id !in Done(p, candidates, k)
    ensures Live(s, candidates[k].id) && s.notes[candidates[k].id] == candidates[k]
  {
    DoneMembers(p, candidates, k, candidates[k].id);
  }

  /** Without other writers, the first `n` turns re-embed the candidates whose embedding worked. */
  lemma {:induction false} PassReembeds(p: Pass, candidates: seq<Note>, trace: seq<Store>, n: nat)
    requires IsPass(p, candidates, trace) && n <= |candidates| && forall k :: p.others(k) == []
    requires Picked(trace[0], candidates)
    ensures Reembedded(p, trace[0], trace[n], Done(p, candidates, n))
  {
    if n == 0 {
      NothingReembedded(p, trace[0]);
    } else {
      PassReembeds(p, candidates, trace, n - 1);
      assert TurnAt(p, candidates, trace, n - 1);
      NextReembeds(p, trace[0], trace[n - 1], trace[n], candidates, n - 1);
    }
  }

  lemma {:induction false} NothingReembedded(p: Pass, s: Store)
    ensures Reembedded(p, s, s, {})
  {
  }

  lemma {:induction false} NextReembeds(p: Pass, s: Store, t: Store, u: Store, candidates: seq<Note>, k: nat)
    requires k < |candidates| && p.others(k) == [] && Picked(s, candidates)
    requires Reembedded(p, s, t, Done(p, candidates, k)) && u == Turn(p, candidates[k], t, k)
    ensures Reembedded(p, s, u, Done(p, candidates, k + 1))
  {
    NotYetDone(p, s, candidates, k);
    TurnReembeds(p, s, t, Done(p, candidates, k), candidates[k], k);
  }

  lemma {:induction false} ChangesUnlessFails(p: Pass, candidates: seq<Note>, trace: seq<Store>, k: nat)
    requires IsPass(p, candidates, trace) && k < |candidates| && forall k :: p.others(k) == []
    requires Picked(trace[0], candidates)
    ensures Changes(p, candidates[k], trace[k], k) <==> !p.fails(k)
  {
    PassReembeds(p, candidates, trace, k);
    NotYetDone(p, trace[0], candidates, k);
    StillAsRead(p, trace[0], trace[k], Done(p, candidates, k), candidates[k]);
    EditFreeTurn(p, candidates[k], trace[k], k);
  }

  /** How many of the first `n` embeddings work. */
  ghost function Working(p: Pass, n: nat): nat {
    if n == 0 then 0 else Working(p, n - 1) + (if p.fails(n - 1) then 0 else 1)
  }

  lemma {:induction false} DoneIsWorking(p: Pass, candidates: seq<Note>, n: nat)
    requires n <= |candidates|
    requires forall i, j :: 0 <= i < j < |candidates| ==> candidates[i].id != candidates[j].id
    ensures |Done(p, candidates, n)| == Working(p, n)
  {
    if n > 0 {
      DoneIsWorking(p, candidates, n - 1);
      DoneMembers(p, candidates, n - 1, candidates[n - 1].id);
    }
  }

  lemma {:induction false} ChangedIsWorking(p: Pass, candidates: seq<Note>, trace: seq<Store>, n: nat)
    requires n <= |candidates| && n <= |trace|
    requires forall k: nat :: k < n ==> (Changes(p, candidates[k], trace[k], k) <==> !p.fails(k))
    ensures Changed(p, candidates, trace, n) == Working(p, n)
  {
    if n > 0 { ChangedIsWorking(p, candidates, trace, n - 1); }
  }

  lemma {:induction false} PassCounts(p: Pass, candidates: seq<Note>, trace: seq<Store>, n: nat)
    requires IsPass(p, candidates, trace) && n <= |candidates| && forall k :: p.others(k) == []
    requires Picked(trace[0], candidates)
    ensures Changed(p, candidates, trace, n) == |Done(p, candidates, n)|
  {
    forall k: nat | k < n ensures Changes(p, candidates[k], trace[k], k) <==> !p.fails(k) {
      ChangesUnlessFails(p, candidates, trace, k);
    }
    ChangedIsWorking(p, candidates, trace, n);
    DoneIsWorking(p, candidates, n);
  }

  lemma {:induction false} PendingAfter(p: Pass, s: Store, t: Store, done: set<MemoryId>)
    requires Reembedded(p, s, t, done) && done <= PendingIds(s, p.model, p.inputVersion)
    ensures PendingIds(t, p.model, p.inputVersion) == PendingIds(s, p.model, p.inputVersion) - done
  {
  }

  /** An edit-free pass takes exactly its successfully embedded candidates off the pending set, and
      leaves each of them up to date. */
  lemma {:induction false} PassTakesDone(p: Pass, candidates: seq<Note>, trace: seq<Store>, limit: nat)
    requires IsPass(p, candidates, trace) && forall k :: p.others(k) == []
    requires IsScan(candidates, trace[0], PendingIds(trace[0], p.model, p.inputVersion), limit)
    ensures var n, done := |candidates|, Done(p, candidates, |candidates|);
            && done <= PendingIds(trace[0], p.model, p.inputVersion)
            && PendingIds(trace[n], p.model, p.inputVersion) == PendingIds(trace[0], p.model, p.inputVersion) - done
            && forall id :: id in done ==> UpToDate(p, trace[n], id)
  {
    var n, done := |candidates|, Done(p, candidates, |candidates|);
    ScanIsPicked(trace[0], candidates, p.model, p.inputVersion, limit);
    PassReembeds(p, candidates, trace, n);
    forall id | id in done ensures id in PendingIds(trace[0], p.model, p.inputVersion) {
      DoneMembers(p, candidates, n, id);
    }
    PendingAfter(p, trace[0], trace[n], done);
  }

  /** So it shrinks the pending set by the number it reports, and strictly if and only if one of the
      newest pending rows embeds. */
  lemma {:induction false} PassShrinksPending(p: Pass, candidates: seq<Note>, trace: seq<Store>, limit: nat)
    requires IsPass(p, candidates, trace) && forall k :: p.others(k) == []
    requires IsScan(candidates, trace[0], PendingIds(trace[0], p.model, p.inputVersion), limit)
    ensures var n := |candidates|;
            var pending, left := PendingIds(trace[0], p.model, p.inputVersion),
              PendingIds(trace[n], p.model, p.inputVersion);
            && |left| == |pending| - Changed(p, candidates, trace, n)
            && (left < pending <==> exists k :: 0 <= k < n && !p.fails(k))
  {
    var n, done := |candidates|, Done(p, candidates, |candidates|);
    PassTakesDone(p, candidates, trace, limit);
    ScanIsPicked(trace[0], candidates, p.model, p.inputVersion, limit);
    PassCounts(p, candidates, trace, n);
    Removed(PendingIds(trace[0], p.model, p.inputVersion), done);
    if k :| 0 <= k < n && !p.fails(k) {
      DoneMembers(p, candidates, n, candidates[k].id);
    }
    if done != {} {
      var id :| id in done;
      DoneMembers(p, candidates, n, id);
    }
  }

  lemma Removed(all: set<MemoryId>, part: set<MemoryId>)
    requires part <= all
    ensures |all - part| == |all| - |part| && (all - part < all <==> part != {})
  {
  }

  // ---------------------------------------------------------------- convergence

  /** `t` is `s` after a pass of at most `limit` candidates. */
  ghost predicate PassFrom(p: Pass, limit: nat, s: Store, t: Store, candidates: seq<Note>, trace: seq<Store>) {
    && IsPass(p, candidates, trace) && trace[0] == s && trace[|candidates|] == t
    && IsScan(candidates, s, PendingIds(s, p.model, p.inputVersion), limit)
  }

  ghost predicate CleanPass(p: Pass, limit: nat, s: Store, t: Store) {
    exists candidates, trace :: PassFrom(p, limit, s, t, candidates, trace)
  }

  ghost function Backlog(p: Pass, s: Store): nat {
    |PendingIds(s, p.model, p.inputVersion)|
  }

  lemma {:induction false} CleanPassProgress(p: Pass, limit: nat, s: Store, t: Store)
    requires (forall k :: p.others(k) == []) && (forall k :: !p.fails(k)) && CleanPass(p, limit, s, t)
    ensures Backlog(p, t) == Backlog(p, s) - Min(limit, Backlog(p, s))
  {
    var candidates, trace :| PassFrom(p, limit, s, t, candidates, trace);
    PassShrinksPending(p, candidates, trace, limit);
    ScanIsPicked(s, candidates, p.model, p.inputVersion, limit);
    PassCounts(p, candidates, trace, |candidates|);
    DoneIsWorking(p, candidates, |candidates|);
    AllWork(p, |candidates|);
  }

  lemma {:induction false} AllWork(p: Pass, n: nat)
    requires forall k :: !p.fails(k)
    ensures Working(p, n) == n
  {
    if n > 0 { AllWork(p, n - 1); }
  }

  lemma {:induction false} Countdown(counts: seq<nat>, step: nat)
    requires counts != []
    requires forall i :: 0 <= i < |counts| - 1 ==> counts[i + 1] == counts[i] - Min(step, counts[i])
    ensures counts[|counts| - 1] == Max(0, counts[0] - (|counts| - 1) * step)
  {
    if |counts| > 1 {
      var front := counts[..|counts| - 1];
      Countdown(front, step);
      assert (|counts| - 1) * step == (|front| - 1) * step + step;
    }
  }

  /** Repeated edit-free passes with a working embedder end with nothing left to scan: each takes
      `limit` rows off the pending set until it is empty. */
  lemma {:induction false} PassesConverge(p: Pass, limit: nat, stores: seq<Store>)
    requires stores != [] && (forall k :: p.others(k) == []) && (forall k :: !p.fails(k))
    requires forall i :: 0 <= i < |stores| - 1 ==> CleanPass(p, limit, stores[i], stores[i + 1])
    ensures Backlog(p, stores[|stores| - 1]) == Max(0, Backlog(p, stores[0]) - (|stores| - 1) * limit)
  {
    var counts: seq<nat> := seq(|stores|, i requires 0 <= i < |stores| => Backlog(p, stores[i]));
    forall i | 0 <= i < |stores| - 1 ensures counts[i + 1] == counts[i] - Min(limit, counts[i]) {
      CleanPassProgress(p, limit, stores[i], stores[i + 1]);
    }
    Countdown(counts, limit);
  }

  /** Then every active row carries the current stamp, model and input version both. */
  lemma {:induction false} NothingLeftMeans(p: Pass, s: Store)
    ensures Backlog(p, s) == 0 <==>
              forall id :: id in s.notes && s.notes[id].archivedAt.None? ==>
                s.notes[id].model == p.model && s.notes[id].inputVersion == p.inputVersion
  {
    var pending := PendingIds(s, p.model, p.inputVersion);
    if pending != {} {
      var id :| id in pending;
    } else {
      assert forall id :: id in s.notes ==> id !in pending;
    }
  }
}
