/**
 What each review action does to the rows, told by what its calls met and left, and when it succeeds
 (crates/rb-daemon/src/server.rs:1451-1700).
 */
module ReviewEffects {
  import opened Common
  import opened ReviewMerge
  import opened ReviewActions

  // ------------------------------------------------------------------- one call

  /** Nothing but this row changed. */
  ghost predicate OnlyRow(a: Act, id: MemoryId) {
    && id in a.met.rows && a.left.audit == a.met.audit && a.left.rows.Keys == a.met.rows.Keys
    && (forall x :: x in a.met.rows && x != id ==> a.left.rows[x] == a.met.rows[x])
  }

  /** The call archived this row, which was of the namespace, and nothing else. */
  ghost predicate Archives(a: Act, namespace: string, id: MemoryId) {
    && OnlyRow(a, id) && a.met.rows[id].namespace == namespace
    && var row := a.met.rows[id];
       a.left.rows[id] == Row(namespace, row.memory, row.curated, true, row.supersededBy)
  }

  /** The call set this row's confidence to `x`, or to the end of [0, 1] beyond which `x` lies, and changed
      nothing else. */
  ghost predicate SetsConfidence(a: Act, namespace: string, id: MemoryId, x: real) {
    && OnlyRow(a, id) && a.met.rows[id].namespace == namespace
    && var row, c := a.met.rows[id], a.left.rows[id].memory.confidence;
       && a.left.rows[id] == row.(memory := a.left.rows[id].memory)
       && a.left.rows[id].memory == row.memory.(confidence := c) && InUnit(c, x)
  }

  ghost predicate InUnit(c: real, x: real) {
    0.0 <= c <= 1.0 && (0.0 <= x <= 1.0 ==> c == x) && (x < 0.0 ==> c == 0.0) && (x > 1.0 ==> c == 1.0)
  }

  /** The call wrote this audit row, and nothing else. */
  ghost predicate Audits(a: Act, ids: seq<MemoryId>, action: Action) {
    a.left.rows == a.met.rows && a.left.audit == a.met.audit + [Resolved(ids, action)]
  }

  /** The call replaced two live members by one new row, and wrote the audit row. */
  ghost predicate Merges(a: Act, namespace: string, ids: seq<MemoryId>, newId: MemoryId, combined: Memory,
                         explicit: bool)
    requires |ids| == 2
  {
    && ids[0] != ids[1] && newId !in a.met.rows && a.left.rows.Keys == a.met.rows.Keys + {newId}
    && Retires(a, namespace, ids[0], newId, explicit) && Retires(a, namespace, ids[1], newId, explicit)
    && a.left.rows[newId] == Row(namespace, combined, false, false, None)
    && (forall x :: x in a.met.rows && x !in ids ==> a.left.rows[x] == a.met.rows[x])
    && a.left.audit == a.met.audit + [Resolved(ids, Merge)]
  }

  ghost predicate Retires(a: Act, namespace: string, id: MemoryId, newId: MemoryId, explicit: bool) {
    && id in a.met.rows && id in a.left.rows
    && var row := a.met.rows[id];
       && row.namespace == namespace && !row.archived && row.supersededBy.None? && (row.curated ==> explicit)
       && a.left.rows[id] == Row(namespace, row.memory, row.curated, true, Some(newId))
  }

  // ----------------------------------------------------------------- the reads

  /** Calls before the members are read. */
  function Checks(reason: Reason, ids: seq<MemoryId>): nat {
    if Rechecks(reason, ids) then 1 else 0
  }

  /** The members were read one after the other, each as the call met it, and nothing was changed. */
  ghost predicate ReadAll(acts: seq<Act>, first: nat, namespace: string, ids: seq<MemoryId>, rows: seq<Row>) {
    && |rows| == |ids| && first + |ids| <= |acts| && Untouched(acts[..first + |ids|])
    && (forall i :: 0 <= i < |ids| ==>
          && ids[i] in acts[first + i].met.rows && acts[first + i].met.rows[ids[i]] == rows[i]
          && rows[i].namespace == namespace)
  }

  lemma {:induction false} ReadsAre(o: Occasion, s: Store, first: seq<Act>, acts: seq<Act>, namespace: string,
                                    ids: seq<MemoryId>, rows: seq<Row>)
    requires |rows| <= |ids| && |acts| == |first| + |rows| && ReadAll(acts, |first|, namespace, ids[..|rows|], rows)
    ensures var (more, r) := ReadRest(o, s, acts, namespace, ids, rows);
            r.Ok? ==> ReadAll(more, |first|, namespace, ids, r.value) && |more| == |first| + |ids|
    decreases |ids| - |rows|
  {
    if |rows| == |ids| {
      assert ids[..|rows|] == ids;
    } else {
      var n := |rows|;
      var (more, row) := Read(o, s, acts, namespace, ids[n]);
      if row.Ok? {
        OneMoreRead(acts, more, |first|, namespace, ids, rows, row.value);
        ReadsAre(o, s, first, more, namespace, ids, rows + [row.value]);
      }
    }
  }

  lemma {:induction false} OneMoreRead(acts: seq<Act>, more: seq<Act>, first: nat, namespace: string,
                                       ids: seq<MemoryId>, rows: seq<Row>, row: Row)
    requires |rows| < |ids| && |acts| == first + |rows| && ReadAll(acts, first, namespace, ids[..|rows|], rows)
    requires |more| == |acts| + 1 && more[..|acts|] == acts && more[|acts|].left == more[|acts|].met
    requires ids[|rows|] in more[|acts|].met.rows && more[|acts|].met.rows[ids[|rows|]] == row
    requires row.namespace == namespace
    ensures ReadAll(more, first, namespace, ids[..|rows| + 1], rows + [row])
  {
    var n := |rows|;
    assert acts[..first + n] == acts && more[..first + n + 1] == more;
    assert forall i :: 0 <= i < |acts| ==> more[i] == acts[i];
  }

  /** Everything up to the last member read. */
  lemma {:induction false} ActionReads(s: Store, o: Occasion, namespace: string, reason: Reason, ids: seq<MemoryId>)
    ensures var (acts, still) := Checked(o, s, reason, ids);
            var (more, rows) := ReadRest(o, s, acts, namespace, ids, []);
            still.Ok? && rows.Ok? ==>
              ReadAll(more, Checks(reason, ids), namespace, ids, rows.value) && |more| == Checks(reason, ids) + |ids|
  {
    var (acts, still) := Checked(o, s, reason, ids);
    assert ids[..0] == [] && acts[..|acts|] == acts;
    ReadsAre(o, s, acts, acts, namespace, ids, []);
  }

  // --------------------------------------------------------------- what an action did

  /** The last call wrote the audit row and the one before it made the change; nothing else was touched. */
  ghost predicate ChangedThenAudited(acts: seq<Act>, ids: seq<MemoryId>, action: Action) {
    && |acts| >= 2 && Untouched(acts[..|acts| - 2]) && Audits(acts[|acts| - 1], ids, action)
  }

  /** What a successful action did, by its kind. */
  ghost predicate Did(o: Occasion, namespace: string, acts: seq<Act>, first: nat, ids: seq<MemoryId>, rows: seq<Row>,
                      action: Action, threshold: real, explicit: bool)
    requires |rows| == |ids|
  {
    match action
    case Archive(id) => DidArchive(namespace, acts, ids, id, explicit)
    case Demote(id) => DidDemote(namespace, acts, ids, rows, id, explicit)
    case Keep(bump) =>
      if bump then DidRaise(namespace, acts, first, ids, rows)
      else |acts| == first + 1 && Untouched(acts[..first]) && Audits(acts[first], ids, action)
    case Snooze(_) => |acts| == first + 1 && Untouched(acts[..first]) && Audits(acts[first], ids, action)
    case Merge => |ids| == 2 && DidMerge(o, namespace, acts, ids, rows, threshold, explicit)
  }

  ghost predicate DidArchive(namespace: string, acts: seq<Act>, ids: seq<MemoryId>, id: MemoryId, explicit: bool) {
    && ChangedThenAudited(acts, ids, Archive(id)) && Archives(acts[|acts| - 2], namespace, id)
    && (!explicit ==> !acts[|acts| - 2].met.rows[id].archived && !acts[|acts| - 2].met.rows[id].curated)
  }

  /** From what was first read of the member. */
  ghost predicate DidDemote(namespace: string, acts: seq<Act>, ids: seq<MemoryId>, rows: seq<Row>, id: MemoryId,
                            explicit: bool)
    requires |rows| == |ids|
  {
    && ChangedThenAudited(acts, ids, Demote(id))
    && (exists i :: 0 <= i < |ids| && ids[i] == id && id !in ids[..i]
                    && SetsConfidence(acts[|acts| - 2], namespace, id, rows[i].memory.confidence - 0.15))
    && (!explicit ==> !acts[|acts| - 2].met.rows[id].curated)
  }

  /** Each member in turn was looked for and then raised, from what was read of it. */
  ghost predicate DidRaise(namespace: string, acts: seq<Act>, first: nat, ids: seq<MemoryId>, rows: seq<Row>)
    requires |rows| == |ids|
  {
    && |acts| == first + 2 * |ids| + 1 && Untouched(acts[..first])
    && RaisedUpTo(namespace, acts, first, ids, rows, |ids|) && Audits(acts[|acts| - 1], ids, Keep(true))
  }

  ghost predicate RaisedUpTo(namespace: string, acts: seq<Act>, first: nat, ids: seq<MemoryId>, rows: seq<Row>, n: nat)
    requires |rows| == |ids| && n <= |ids| && first + 2 * n <= |acts|
  {
    forall k :: 0 <= k < n ==> RaisedAt(namespace, acts, first + 2 * k, ids[k], rows[k])
  }

  ghost predicate RaisedAt(namespace: string, acts: seq<Act>, at: nat, id: MemoryId, read: Row)
    requires at + 1 < |acts|
  {
    && acts[at].left == acts[at].met
    && SetsConfidence(acts[at + 1], namespace, id, read.memory.confidence + 0.05)
  }

  /** Applied whole by the last call, at the similarity asked for, with the note composed of what was read. */
  ghost predicate DidMerge(o: Occasion, namespace: string, acts: seq<Act>, ids: seq<MemoryId>, rows: seq<Row>,
                           threshold: real, explicit: bool)
    requires |rows| == |ids| == 2
  {
    && acts != [] && Untouched(acts[..|acts| - 1])
    && o.similarity.Some? && o.similarity.value >= threshold
    && Merged(rows[0].memory, rows[1].memory, o.composer).Some?
    && Merges(acts[|acts| - 1], namespace, ids, o.newId, Merged(rows[0].memory, rows[1].memory, o.composer).value,
              explicit)
  }

  // ------------------------------------------------------------------- one command

  /** What a command that was carried out did. */
  lemma {:induction false} CommandDid(o: Occasion, namespace: string, a: Act, c: WriteCommand)
    requires (a.left, Ok(true)) == Commit(a.met, o, namespace, c)
    ensures c.ArchiveRow? || c.ArchiveUnattended? ==> Archives(a, namespace, c.id)
    ensures c.UpdateConfidence? || c.LowerUnattended? ==>
              forall x :: c.confidence == Clamp(x) ==> SetsConfidence(a, namespace, c.id, x)
    ensures c.ArchiveUnattended? ==> !a.met.rows[c.id].archived && !a.met.rows[c.id].curated
    ensures c.LowerUnattended? ==> !a.met.rows[c.id].curated
    ensures c.Record? ==> Audits(a, c.ids, c.action)
    ensures c.MergePair? ==> Merges(a, namespace, [c.a, c.b], o.newId, c.combined, c.explicit)
    ensures c.MergePair? ==> o.similarity.Some? && o.similarity.value >= c.threshold
  {
  }

  /** The last of the calls carried out a command. */
  lemma {:induction false} SendDid(o: Occasion, s: Store, acts: seq<Act>, namespace: string, c: WriteCommand)
    ensures var (more, r) := Send(o, s, acts, namespace, c);
            && |more| == |acts| + 1 && more[..|acts|] == acts
            && (r == Ok(true) ==> (more[|acts|].left, Ok(true)) == Commit(more[|acts|].met, o, namespace, c))
  {
  }

  lemma {:induction false} LookAndSendDid(o: Occasion, s: Store, acts: seq<Act>, namespace: string, id: MemoryId,
                                          c: WriteCommand)
    ensures var (more, r) := LookAndSend(o, s, acts, namespace, id, c);
            r == Ok(true) ==>
              && |more| == |acts| + 2 && more[..|acts|] == acts && more[|acts|].left == more[|acts|].met
              && (more[|acts| + 1].left, Ok(true)) == Commit(more[|acts| + 1].met, o, namespace, c)
  {
    SendDid(o, s, Look(o, s, acts), namespace, c);
    assert Look(o, s, acts)[..|acts|] == acts;
  }

  // ----------------------------------------------------------------- each action

  lemma {:induction false} UntouchedMore(acts: seq<Act>, more: seq<Act>, n: nat)
    requires Untouched(acts) && |acts| <= n <= |more| && more[..|acts|] == acts
    requires forall i :: |acts| <= i < n ==> more[i].left == more[i].met
    ensures Untouched(more[..n])
  {
    assert forall i :: 0 <= i < |acts| ==> more[i] == more[..|acts|][i];
  }

  /** The audit row at the end. */
  lemma {:induction false} RecordDid(o: Occasion, s: Store, acts: seq<Act>, namespace: string, ids: seq<MemoryId>,
                                     action: Action)
    ensures var (more, r) := RecordAction(o, s, acts, namespace, ids, action);
            r.Ok? ==> |more| == |acts| + 1 && more[..|acts|] == acts && Audits(more[|acts|], ids, action)
  {
    SendDid(o, s, acts, namespace, Record(ids, action));
    var (more, r) := Send(o, s, acts, namespace, Record(ids, action));
    if r == Ok(true) { CommandDid(o, namespace, more[|acts|], Record(ids, action)); }
  }

  lemma {:induction false} ArchiveDid(o: Occasion, s: Store, acts: seq<Act>, namespace: string, ids: seq<MemoryId>,
                                      rows: seq<Row>, id: MemoryId, threshold: real, explicit: bool)
    requires |rows| == |ids| && id in ids && Untouched(acts)
    ensures var (more, r) := Perform(o, s, acts, namespace, ids, rows, Archive(id), threshold, explicit);
            r.Ok? ==> DidArchive(namespace, more, ids, id, explicit)
  {
    var (mid, r) := Change(o, s, acts, namespace, ids, rows, Archive(id), explicit);
    var c := if explicit then ArchiveRow(id) else ArchiveUnattended(id);
    LookAndSendDid(o, s, acts, namespace, id, c);
    SendDid(o, s, acts, namespace, c);
    if r == Ok(true) {
      var n := |mid|;
      CommandDid(o, namespace, mid[n - 1], c);
      RecordDid(o, s, mid, namespace, ids, Archive(id));
      var more := RecordAction(o, s, mid, namespace, ids, Archive(id)).0;
      if RecordAction(o, s, mid, namespace, ids, Archive(id)).1.Ok? {
        Prefixes(acts, mid, more);
        UntouchedMore(acts, more, n - 1);
      }
    }
  }

  lemma {:induction false} Prefixes(acts: seq<Act>, mid: seq<Act>, more: seq<Act>)
    requires |acts| <= |mid| <= |more| && mid[..|acts|] == acts && more[..|mid|] == mid
    ensures more[..|acts|] == acts && forall i :: 0 <= i < |mid| ==> more[i] == mid[i]
  {
    assert forall i :: 0 <= i < |mid| ==> more[i] == more[..|mid|][i];
    assert more[..|acts|] == more[..|mid|][..|acts|];
  }

  lemma {:induction false} DemoteDid(o: Occasion, s: Store, acts: seq<Act>, namespace: string, ids: seq<MemoryId>,
                                     rows: seq<Row>, id: MemoryId, threshold: real, explicit: bool)
    requires |rows| == |ids| && id in ids && Untouched(acts)
    ensures var (more, r) := Perform(o, s, acts, namespace, ids, rows, Demote(id), threshold, explicit);
            r.Ok? ==> DidDemote(namespace, more, ids, rows, id, explicit)
  {
    var (mid, r) := Change(o, s, acts, namespace, ids, rows, Demote(id), explicit);
    var confidence := Lowered(ids, rows, id);
    var c := if explicit then UpdateConfidence(id, confidence) else LowerUnattended(id, confidence);
    LookAndSendDid(o, s, acts, namespace, id, c);
    SendDid(o, s, acts, namespace, c);
    if r == Ok(true) {
      var n := |mid|;
      CommandDid(o, namespace, mid[n - 1], c);
      RecordDid(o, s, mid, namespace, ids, Demote(id));
      var more := RecordAction(o, s, mid, namespace, ids, Demote(id)).0;
      if RecordAction(o, s, mid, namespace, ids, Demote(id)).1.Ok? {
        Prefixes(acts, mid, more);
        UntouchedMore(acts, more, n - 1);
        assert SetsConfidence(more[n - 1], namespace, id, rows[IndexOf(ids, id)].memory.confidence - 0.15);
      }
    }
  }

  lemma {:induction false} RaisesDid(o: Occasion, s: Store, start: seq<Act>, acts: seq<Act>, namespace: string,
                                     ids: seq<MemoryId>, rows: seq<Row>, k: nat)
    requires k <= |ids| == |rows| && |acts| == |start| + 2 * k && acts[..|start|] == start
    requires RaisedUpTo(namespace, acts, |start|, ids, rows, k)
    ensures var (more, r) := RaiseFrom(o, s, acts, namespace, ids, rows, k);
            r.Ok? ==>
              && r.value && |more| == |start| + 2 * |ids| && more[..|start|] == start
              && RaisedUpTo(namespace, more, |start|, ids, rows, |ids|)
    decreases |ids| - k
  {
    if k < |ids| {
      var c := Raised(ids, rows, k);
      var (more, r) := LookAndSend(o, s, acts, namespace, ids[k], c);
      LookAndSendDid(o, s, acts, namespace, ids[k], c);
      NeverFalse(o, s, acts, namespace, ids[k], c);
      if r.Ok? {
        NextRaised(o, start, acts, more, namespace, ids, rows, k);
        RaisesDid(o, s, start, more, namespace, ids, rows, k + 1);
      }
    }
  }

  lemma {:induction false} NeverFalse(o: Occasion, s: Store, acts: seq<Act>, namespace: string, id: MemoryId,
                                      c: WriteCommand)
    requires c.UpdateConfidence?
    ensures LookAndSend(o, s, acts, namespace, id, c).1 != Ok(false)
  {
  }

  lemma {:induction false} NextRaised(o: Occasion, start: seq<Act>, acts: seq<Act>, more: seq<Act>, namespace: string,
                                      ids: seq<MemoryId>, rows: seq<Row>, k: nat)
    requires k < |ids| == |rows| && |acts| == |start| + 2 * k && acts[..|start|] == start
    requires RaisedUpTo(namespace, acts, |start|, ids, rows, k)
    requires |more| == |acts| + 2 && more[..|acts|] == acts && more[|acts|].left == more[|acts|].met
    requires (more[|acts| + 1].left, Ok(true)) == Commit(more[|acts| + 1].met, o, namespace, Raised(ids, rows, k))
    ensures more[..|start|] == start && RaisedUpTo(namespace, more, |start|, ids, rows, k + 1)
  {
    var c := Raised(ids, rows, k);
    Prefixes(start, acts, more);
    CommandDid(o, namespace, more[|acts| + 1], c);
    assert SetsConfidence(more[|acts| + 1], namespace, ids[k], rows[k].memory.confidence + 0.05);
    forall j | 0 <= j < k + 1 ensures RaisedAt(namespace, more, |start| + 2 * j, ids[j], rows[j]) {
      if j < k {
        assert RaisedAt(namespace, acts, |start| + 2 * j, ids[j], rows[j]);
        assert more[|start| + 2 * j] == acts[|start| + 2 * j] && more[|start| + 2 * j + 1] == acts[|start| + 2 * j + 1];
      }
    }
  }

  lemma {:induction false} KeepDid(o: Occasion, s: Store, acts: seq<Act>, namespace: string, ids: seq<MemoryId>,
                                   rows: seq<Row>, threshold: real, explicit: bool)
    requires |rows| == |ids| && Untouched(acts)
    ensures var (more, r) := Perform(o, s, acts, namespace, ids, rows, Keep(true), threshold, explicit);
            r.Ok? ==> DidRaise(namespace, more, |acts|, ids, rows)
  {
    RaisesDid(o, s, acts, acts, namespace, ids, rows, 0);
    var (mid, r) := RaiseFrom(o, s, acts, namespace, ids, rows, 0);
    if r.Ok? {
      RecordDid(o, s, mid, namespace, ids, Keep(true));
      var (more, last) := RecordAction(o, s, mid, namespace, ids, Keep(true));
      if last.Ok? {
        Prefixes(acts, mid, more);
        forall k | 0 <= k < |ids| ensures RaisedAt(namespace, more, |acts| + 2 * k, ids[k], rows[k]) {
          assert RaisedAt(namespace, mid, |acts| + 2 * k, ids[k], rows[k]);
          assert more[|acts| + 2 * k] == mid[|acts| + 2 * k] && more[|acts| + 2 * k + 1] == mid[|acts| + 2 * k + 1];
        }
      }
    }
  }

  lemma {:induction false} MergeDid(o: Occasion, s: Store, acts: seq<Act>, namespace: string, ids: seq<MemoryId>,
                                    rows: seq<Row>, threshold: real, explicit: bool)
    requires |rows| == |ids| == 2 && Untouched(acts)
    ensures var (more, r) := MergeMembers(o, s, acts, namespace, ids, rows, threshold, explicit);
            r.Ok? ==> DidMerge(o, namespace, more, ids, rows, threshold, explicit)
  {
    var combined := Merged(rows[0].memory, rows[1].memory, o.composer);
    if combined.Some? && !o.embedFails {
      var c := MergePair(ids[0], ids[1], threshold, combined.value, explicit);
      SendDid(o, s, acts, namespace, c);
      var (more, r) := Send(o, s, acts, namespace, c);
      assert ids == [ids[0], ids[1]];
      if r == Ok(true) { CommandDid(o, namespace, more[|acts|], c); }
    }
  }

  lemma {:induction false} PerformDid(o: Occasion, s: Store, acts: seq<Act>, namespace: string, ids: seq<MemoryId>,
                                      rows: seq<Row>, action: Action, threshold: real, explicit: bool)
    requires |rows| == |ids| && (action.Merge? ==> |ids| == 2) && Untouched(acts)
    requires action.Archive? || action.Demote? ==> action.id in ids
    ensures var (more, r) := Perform(o, s, acts, namespace, ids, rows, action, threshold, explicit);
            r.Ok? ==> Did(o, namespace, more, |acts|, ids, rows, action, threshold, explicit)
  {
    match action {
      case Archive(id) => ArchiveDid(o, s, acts, namespace, ids, rows, id, threshold, explicit);
      case Demote(id) => DemoteDid(o, s, acts, namespace, ids, rows, id, threshold, explicit);
      case Keep(bump) =>
        if bump { KeepDid(o, s, acts, namespace, ids, rows, threshold, explicit); }
        else { RecordDid(o, s, acts, namespace, ids, action); }
      case Snooze(_) => RecordDid(o, s, acts, namespace, ids, action);
      case Merge => MergeDid(o, s, acts, namespace, ids, rows, threshold, explicit);
    }
  }

  /** A successful action, whoever interferes: its members were read one after the other, and then it did
      exactly what it is called for to the row or rows as its calls met them, and wrote its audit row. */
  lemma {:induction false} SuccessMeans(s: Store, o: Occasion, namespace: string, reason: Reason, ids: seq<MemoryId>,
                                        action: Action, threshold: real, explicit: bool) returns (rows: seq<Row>)
    requires ApplyAction(s, o, namespace, reason, ids, action, threshold, explicit).1.Ok?
    ensures var acts := ApplyAction(s, o, namespace, reason, ids, action, threshold, explicit).0;
            var first := Checks(reason, ids);
            && ReadAll(acts, first, namespace, ids, rows)
            && Did(o, namespace, acts, first + |ids|, ids, rows, action, threshold, explicit)
  {
    var (acts, still) := Checked(o, s, reason, ids);
    var (more, read) := ReadRest(o, s, acts, namespace, ids, []);
    rows := read.value;
    ActionReads(s, o, namespace, reason, ids);
    ReadsThenDid(o, s, more, Checks(reason, ids), namespace, ids, rows, action, threshold, explicit);
  }

  lemma {:induction false} ReadsThenDid(o: Occasion, s: Store, acts: seq<Act>, first: nat, namespace: string,
                                        ids: seq<MemoryId>, rows: seq<Row>, action: Action, threshold: real,
                                        explicit: bool)
    requires ReadAll(acts, first, namespace, ids, rows) && |acts| == first + |ids|
    requires action.Merge? ==> |ids| == 2
    requires action.Archive? || action.Demote? ==> action.id in ids
    ensures var (more, r) := Perform(o, s, acts, namespace, ids, rows, action, threshold, explicit);
            && ReadAll(more, first, namespace, ids, rows)
            && (r.Ok? ==> Did(o, namespace, more, |acts|, ids, rows, action, threshold, explicit))
  {
    assert acts[..|acts|] == acts;
    PerformDid(o, s, acts, namespace, ids, rows, action, threshold, explicit);
    PerformKeepsReads(o, s, acts, namespace, ids, rows, action, threshold, explicit);
    StillRead(acts, Perform(o, s, acts, namespace, ids, rows, action, threshold, explicit).0, first, namespace, ids,
              rows);
  }

  lemma {:induction false} StillRead(acts: seq<Act>, more: seq<Act>, first: nat, namespace: string, ids: seq<MemoryId>,
                                     rows: seq<Row>)
    requires ReadAll(acts, first, namespace, ids, rows) && acts <= more
    ensures ReadAll(more, first, namespace, ids, rows)
  {
    assert more[..first + |ids|] == acts[..first + |ids|];
    assert forall i :: 0 <= i < |acts| ==> more[i] == acts[i];
  }

  lemma {:induction false} PerformKeepsReads(o: Occasion, s: Store, acts: seq<Act>, namespace: string,
                                             ids: seq<MemoryId>, rows: seq<Row>, action: Action, threshold: real,
                                             explicit: bool)
    requires |rows| == |ids| && (action.Merge? ==> |ids| == 2)
    requires action.Archive? || action.Demote? ==> action.id in ids
    ensures acts <= Perform(o, s, acts, namespace, ids, rows, action, threshold, explicit).0
  {
    if action == Keep(true) { RaisesExtend(o, s, acts, namespace, ids, rows, 0); }
  }

  lemma {:induction false} RaisesExtend(o: Occasion, s: Store, acts: seq<Act>, namespace: string, ids: seq<MemoryId>,
                                        rows: seq<Row>, k: nat)
    requires k <= |ids| == |rows|
    ensures acts <= RaiseFrom(o, s, acts, namespace, ids, rows, k).0
    decreases |ids| - k
  {
    if k < |ids| {
      var (more, r) := LookAndSend(o, s, acts, namespace, ids[k], Raised(ids, rows, k));
      if r.Ok? { RaisesExtend(o, s, more, namespace, ids, rows, k + 1); }
    }
  }

  // ------------------------------------------------------------- left to itself

  /** Nobody interferes and no call fails. */
  ghost predicate Quiet(o: Occasion) {
    (forall n: nat, s :: o.others(n, s) == s) && (forall n: nat :: !o.fails(n))
  }

  /** The action makes sense for the item: one or two members, of the namespace, the contradiction still
      there, and the member or members it names. */
  ghost predicate Sensible(s: Store, o: Occasion, namespace: string, reason: Reason, ids: seq<MemoryId>,
                           action: Action)
  {
    && Addressed(reason, ids, action)
    && (reason.Contradiction? && |ids| == 2 ==> o.contradiction)
    && AllOwned(s, namespace, ids)
  }

  ghost predicate Addressed(reason: Reason, ids: seq<MemoryId>, action: Action) {
    && 1 <= |ids| <= 2
    && (action.Merge? ==> reason.NearDuplicate? && |ids| == 2 && ids[0] != ids[1])
    && (action.Archive? || action.Demote? ==> action.id in ids)
    && (action.Snooze? ==> 1 <= action.days <= 365)
  }

  ghost predicate AllOwned(s: Store, namespace: string, ids: seq<MemoryId>) {
    forall i :: 0 <= i < |ids| ==> ids[i] in s.rows && s.rows[ids[i]].namespace == namespace
  }

  /** Two memories can be composed and embedded, under an id that is new. */
  ghost predicate Composes(s: Store, o: Occasion, ids: seq<MemoryId>)
    requires |ids| == 2 && ids[0] in s.rows && ids[1] in s.rows
  {
    && !s.rows[ids[0]].memory.quarantined && !s.rows[ids[1]].memory.quarantined && o.composer.accepts
    && !o.embedFails && o.newId !in ids
  }

  ghost predicate Mergeable(row: Row, explicit: bool) {
    !row.archived && row.supersededBy.None? && (row.curated ==> explicit)
  }

  /** The store lets the action through: a policy changes no curated row and archives none twice. */
  ghost predicate Permits(s: Store, o: Occasion, ids: seq<MemoryId>, action: Action, threshold: real, explicit: bool)
    requires forall i :: 0 <= i < |ids| ==> ids[i] in s.rows
    requires action.Merge? ==> |ids| == 2
    requires action.Archive? || action.Demote? ==> action.id in ids
  {
    match action
    case Archive(id) => explicit || (!s.rows[id].archived && !s.rows[id].curated)
    case Demote(id) => explicit || !s.rows[id].curated
    case Merge =>
      && Mergeable(s.rows[ids[0]], explicit) && Mergeable(s.rows[ids[1]], explicit)
      && o.similarity.Some? && o.similarity.value >= threshold
    case _ => true
  }

  lemma {:induction false} QuietReads(o: Occasion, s: Store, acts: seq<Act>, namespace: string, ids: seq<MemoryId>,
                                      rows: seq<Row>)
    requires Quiet(o) && Latest(s, acts) == s && |rows| <= |ids|
    requires forall i :: 0 <= i < |rows| ==> ids[i] in s.rows && rows[i] == s.rows[ids[i]]
    ensures var (more, r) := ReadRest(o, s, acts, namespace, ids, rows);
            && Latest(s, more) == s
            && (r.Ok? <==> forall i :: |rows| <= i < |ids| ==> Owns(s, namespace, ids[i]))
            && (r.Ok? ==> forall i :: 0 <= i < |ids| ==> ids[i] in s.rows && r.value[i] == s.rows[ids[i]])
            && r != Err(StalePlan)
    decreases |ids| - |rows|
  {
    if |rows| < |ids| {
      assert Now(o, s, acts) == s;
      var (more, row) := Read(o, s, acts, namespace, ids[|rows|]);
      if row.Ok? { QuietReads(o, s, more, namespace, ids, rows + [row.value]); }
    }
  }

  lemma {:induction false} QuietSend(o: Occasion, s: Store, acts: seq<Act>, namespace: string, c: WriteCommand)
    requires Quiet(o)
    ensures var (more, r) := Send(o, s, acts, namespace, c);
            (Latest(s, more), r) == Commit(Latest(s, acts), o, namespace, c)
  {
    assert Now(o, s, acts) == Latest(s, acts);
  }

  lemma {:induction false} QuietLookAndSend(o: Occasion, s: Store, acts: seq<Act>, namespace: string, id: MemoryId,
                                            c: WriteCommand)
    requires Quiet(o) && Owns(Latest(s, acts), namespace, id)
    ensures var (more, r) := LookAndSend(o, s, acts, namespace, id, c);
            (Latest(s, more), r) == Commit(Latest(s, acts), o, namespace, c)
  {
    assert Now(o, s, acts) == Latest(s, acts);
    QuietSend(o, s, Look(o, s, acts), namespace, c);
  }

  lemma {:induction false} QuietRaises(o: Occasion, s: Store, acts: seq<Act>, namespace: string, ids: seq<MemoryId>,
                                       rows: seq<Row>, k: nat)
    requires Quiet(o) && k <= |ids| == |rows| && AllOwned(Latest(s, acts), namespace, ids)
    ensures RaiseFrom(o, s, acts, namespace, ids, rows, k).1 == Ok(true)
    decreases |ids| - k
  {
    if k < |ids| {
      var c := Raised(ids, rows, k);
      assert Owns(Latest(s, acts), namespace, ids[k]);
      QuietLookAndSend(o, s, acts, namespace, ids[k], c);
      var (more, r) := LookAndSend(o, s, acts, namespace, ids[k], c);
      QuietRaises(o, s, more, namespace, ids, rows, k + 1);
    }
  }

  lemma {:induction false} QuietChange(o: Occasion, s: Store, acts: seq<Act>, namespace: string, ids: seq<MemoryId>,
                                       rows: seq<Row>, action: Action, threshold: real, explicit: bool)
    requires Quiet(o) && Latest(s, acts) == s && |rows| == |ids| && AllOwned(s, namespace, ids)
    requires action.Keep? || action.Archive? || action.Demote?
    requires action.Archive? || action.Demote? ==> action.id in ids
    ensures Change(o, s, acts, namespace, ids, rows, action, explicit).1
         == Ok(Permits(s, o, ids, action, threshold, explicit))
  {
    match action {
      case Keep(bump) => QuietRaises(o, s, acts, namespace, ids, rows, 0);
      case Archive(id) =>
        QuietLookAndSend(o, s, acts, namespace, id, ArchiveRow(id));
        QuietSend(o, s, acts, namespace, ArchiveUnattended(id));
      case Demote(id) =>
        QuietLookAndSend(o, s, acts, namespace, id, UpdateConfidence(id, Lowered(ids, rows, id)));
        QuietSend(o, s, acts, namespace, LowerUnattended(id, Lowered(ids, rows, id)));
    }
  }

  lemma {:induction false} QuietRecord(o: Occasion, s: Store, acts: seq<Act>, namespace: string, ids: seq<MemoryId>,
                                       action: Action)
    requires Quiet(o)
    ensures RecordAction(o, s, acts, namespace, ids, action).1 == Ok(())
  {
    QuietSend(o, s, acts, namespace, Record(ids, action));
  }

  lemma {:induction false} QuietMerge(o: Occasion, s: Store, acts: seq<Act>, namespace: string, ids: seq<MemoryId>,
                                      rows: seq<Row>, threshold: real, explicit: bool)
    requires Quiet(o) && Latest(s, acts) == s && |rows| == |ids| == 2 && ids[0] != ids[1] && AllOwned(s, namespace, ids)
    requires rows[0] == s.rows[ids[0]] && rows[1] == s.rows[ids[1]]
    ensures var r := MergeMembers(o, s, acts, namespace, ids, rows, threshold, explicit).1;
            && (r.Ok? <==> Composes(s, o, ids) && Permits(s, o, ids, Merge, threshold, explicit) && o.newId !in s.rows)
            && (r == Err(StalePlan) <==> Composes(s, o, ids) && !Permits(s, o, ids, Merge, threshold, explicit))
  {
    var combined := Merged(rows[0].memory, rows[1].memory, o.composer);
    if combined.Some? && !o.embedFails {
      QuietSend(o, s, acts, namespace, MergePair(ids[0], ids[1], threshold, combined.value, explicit));
    }
  }

  /** Left to itself an action succeeds exactly when it makes sense and the store permits it, and goes stale
      exactly when the contradiction is gone or the store does not permit it. */
  lemma {:induction false} QuietOutcome(s: Store, o: Occasion, namespace: string, reason: Reason, ids: seq<MemoryId>,
                                        action: Action, threshold: real, explicit: bool)
    requires Quiet(o)
    ensures var r := ApplyAction(s, o, namespace, reason, ids, action, threshold, explicit).1;
            && (r.Ok? <==>
                  && Sensible(s, o, namespace, reason, ids, action)
                  && (action.Merge? ==> Composes(s, o, ids) && o.newId !in s.rows)
                  && Permits(s, o, ids, action, threshold, explicit))
            && (r == Err(StalePlan) <==>
                  && Addressed(reason, ids, action)
                  && (|| (reason.Contradiction? && |ids| == 2 && !o.contradiction)
                      || (&& Sensible(s, o, namespace, reason, ids, action) && (action.Merge? ==> Composes(s, o, ids))
                          && !Permits(s, o, ids, action, threshold, explicit))))
  {
    assert ValidAction(reason, ids, action) <==> Addressed(reason, ids, action);
    var (acts, still) := Checked(o, s, reason, ids);
    assert Now(o, s, []) == s;
    QuietReads(o, s, acts, namespace, ids, []);
    if ValidAction(reason, ids, action) && still.Ok? {
      var (more, rows) := ReadRest(o, s, acts, namespace, ids, []);
      if rows.Ok? { QuietPerform(o, s, more, namespace, ids, rows.value, reason, action, threshold, explicit); }
    }
  }

  lemma {:induction false} QuietPerform(o: Occasion, s: Store, acts: seq<Act>, namespace: string, ids: seq<MemoryId>,
                                        rows: seq<Row>, reason: Reason, action: Action, threshold: real, explicit: bool)
    requires Quiet(o) && Latest(s, acts) == s && |rows| == |ids| && Sensible(s, o, namespace, reason, ids, action)
    requires forall i :: 0 <= i < |ids| ==> rows[i] == s.rows[ids[i]]
    ensures var r := Perform(o, s, acts, namespace, ids, rows, action, threshold, explicit).1;
            && (r.Ok? <==>
                  && (action.Merge? ==> Composes(s, o, ids) && o.newId !in s.rows)
                  && Permits(s, o, ids, action, threshold, explicit))
            && (r == Err(StalePlan) <==>
                  (action.Merge? ==> Composes(s, o, ids)) && !Permits(s, o, ids, action, threshold, explicit))
  {
    if action.Merge? {
      QuietMerge(o, s, acts, namespace, ids, rows, threshold, explicit);
    } else if action.Snooze? {
      QuietRecord(o, s, acts, namespace, ids, action);
    } else {
      QuietChange(o, s, acts, namespace, ids, rows, action, threshold, explicit);
      QuietRecord(o, s, Change(o, s, acts, namespace, ids, rows, action, explicit).0, namespace, ids, action);
    }
  }
}
