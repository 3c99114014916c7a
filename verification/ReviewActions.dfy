/**
 Resolving one review item while other writers go on, for a user or for a policy
 (crates/rb-daemon/src/server.rs:1451-1700, 2295-2316; crates/rb-types/src/review.rs:195-278;
 crates/rb-store/src/store/review.rs:424-640; core.rs:77-92; internal.rs:78-112;
 crates/rb-engine/src/engine.rs:1137-1222, 1318-1323).
 */
module ReviewActions {
  import opened Common
  import opened ReviewMerge

  type MemoryId = nat

  datatype Row = Row(namespace: string, memory: Memory, curated: bool, archived: bool,
                     supersededBy: Option<MemoryId>)

  datatype Reason = Contradiction | NearDuplicate | LowConfidence | StaleNeverRecalled

  datatype Action = Keep(bump: bool) | Merge | Archive(id: MemoryId) | Demote(id: MemoryId) | Snooze(days: nat)

  /** An audit row: one resolution, or the run itself. */
  datatype Audit = Resolved(ids: seq<MemoryId>, action: Action) | SweepRun

  datatype Store = Store(rows: map<MemoryId, Row>, audit: seq<Audit>)

  datatype Error = NotFound(id: MemoryId) | StalePlan | InvalidArgument | Storage

  /** What one action meets. Its calls to the store are numbered; before each of them other writers do
      whatever they do, and each can fail. Further: whether embedding fails, whether the contradiction
      is still there, the pair's stored similarity, the composer and a new id. */
  datatype Occasion = Occasion(others: (nat, Store) -> Store, fails: nat -> bool, embedFails: bool, contradiction: bool,
                               similarity: Option<real>, composer: Composer, newId: MemoryId)

  /** What is sent to the writer. The unattended commands respect curation. */
  datatype WriteCommand =
    | UpdateConfidence(id: MemoryId, confidence: real)
    | LowerUnattended(id: MemoryId, confidence: real)
    | ArchiveRow(id: MemoryId)
    | ArchiveUnattended(id: MemoryId)
    | MergePair(a: MemoryId, b: MemoryId, threshold: real, combined: Memory, explicit: bool)
    | Record(ids: seq<MemoryId>, action: Action)

  const KEEP_BUMP: real := 0.05
  const DEMOTE_STEP: real := 0.15
  const MAX_SNOOZE_DAYS: nat := 365

  predicate ValidAction(reason: Reason, ids: seq<MemoryId>, action: Action) {
    && 1 <= |ids| <= 2
    && match action {
         case Keep(_) => true
         case Merge => reason.NearDuplicate? && |ids| == 2 && ids[0] != ids[1]
         case Archive(id) => id in ids
         case Demote(id) => id in ids
         case Snooze(days) => 0 < days <= MAX_SNOOZE_DAYS
       }
  }

  predicate Owns(s: Store, namespace: string, id: MemoryId) {
    id in s.rows && s.rows[id].namespace == namespace
  }

  function Clamp(c: real): real {
    if c < 0.0 then 0.0 else if c > 1.0 then 1.0 else c
  }

  // ----------------------------------------------------------- one transaction

  /** Why one member cannot be merged now. */
  function MemberRefusal(s: Store, namespace: string, id: MemoryId, explicit: bool): Option<Error> {
    if !Owns(s, namespace, id) then Some(NotFound(id))
    else if s.rows[id].archived || s.rows[id].supersededBy.Some? then Some(StalePlan)
    else if s.rows[id].curated && !explicit then Some(StalePlan)
    else None
  }

  /** Why the transaction refuses to merge `a` and `b` into a note composed for namespace `composed`. */
  function MergeRefusal(s: Store, o: Occasion, namespace: string, composed: string, a: MemoryId, b: MemoryId,
                        threshold: real, explicit: bool): Option<Error>
  {
    if a == b || o.newId == a || o.newId == b then Some(InvalidArgument)
    else if composed != namespace then Some(InvalidArgument)
    else if MemberRefusal(s, namespace, a, explicit).Some? then MemberRefusal(s, namespace, a, explicit)
    else if MemberRefusal(s, namespace, b, explicit).Some? then MemberRefusal(s, namespace, b, explicit)
    else if o.similarity.None? || o.similarity.value < threshold then Some(StalePlan)
    else if o.newId in s.rows then Some(Storage)
    else None
  }

  function Superseded(row: Row, successor: MemoryId): Row {
    row.(archived := true, supersededBy := Some(successor))
  }

  /** Insert the combined row, retire both originals, write the audit row. */
  function MergeCommit(s: Store, namespace: string, a: MemoryId, b: MemoryId, combined: Memory, newId: MemoryId): Store
    requires a in s.rows && b in s.rows
  {
    Store(s.rows[newId := Row(namespace, combined, false, false, None)]
            [a := Superseded(s.rows[a], newId)][b := Superseded(s.rows[b], newId)],
          s.audit + [Resolved([a, b], Merge)])
  }

  function WithConfidence(s: Store, id: MemoryId, confidence: real): Store
    requires id in s.rows
  {
    s.(rows := s.rows[id := s.rows[id].(memory := s.rows[id].memory.(confidence := confidence))])
  }

  function WithArchived(s: Store, id: MemoryId): Store
    requires id in s.rows
  {
    s.(rows := s.rows[id := s.rows[id].(archived := true)])
  }

  function WithAudit(s: Store, entry: Audit): Store {
    s.(audit := s.audit + [entry])
  }

  /** What the writer does with a command on the store it meets; an unattended command that finds its
      row protected answers false. */
  function Commit(s: Store, o: Occasion, namespace: string, c: WriteCommand): (Store, Result<bool, Error>) {
    match c
    case UpdateConfidence(id, confidence) =>
      if !Owns(s, namespace, id) then (s, Err(NotFound(id))) else (WithConfidence(s, id, confidence), Ok(true))
    case LowerUnattended(id, confidence) =>
      if !Owns(s, namespace, id) then (s, Err(NotFound(id)))
      else if s.rows[id].curated then (s, Ok(false))
      else (WithConfidence(s, id, confidence), Ok(true))
    case ArchiveRow(id) =>
      if !Owns(s, namespace, id) then (s, Err(NotFound(id))) else (WithArchived(s, id), Ok(true))
    case ArchiveUnattended(id) =>
      if !Owns(s, namespace, id) || s.rows[id].archived || s.rows[id].curated then (s, Ok(false))
      else (WithArchived(s, id), Ok(true))
    case MergePair(a, b, threshold, combined, explicit) =>
      var refusal := MergeRefusal(s, o, namespace, namespace, a, b, threshold, explicit);
      if refusal.Some? then (s, Err(refusal.value))
      else (MergeCommit(s, namespace, a, b, combined, o.newId), Ok(true))
    case Record(ids, action) => (WithAudit(s, Resolved(ids, action)), Ok(true))
  }

  // ----------------------------------------------------------------- one action

  /** One call of an action: the store as others left it, the store after it, and the command if it
      was one. */
  datatype Act = Act(met: Store, left: Store, command: Option<WriteCommand>)

  function Latest(s: Store, acts: seq<Act>): Store {
    if acts == [] then s else acts[|acts| - 1].left
  }

  /** The store as the next call meets it. */
  function Now(o: Occasion, s: Store, acts: seq<Act>): Store {
    o.others(|acts|, Latest(s, acts))
  }

  function Look(o: Occasion, s: Store, acts: seq<Act>): seq<Act> {
    acts + [Act(Now(o, s, acts), Now(o, s, acts), None)]
  }

  /** Read one row through the namespace. */
  function Read(o: Occasion, s: Store, acts: seq<Act>, namespace: string, id: MemoryId): (seq<Act>, Result<Row, Error>)
  {
    var now := Now(o, s, acts);
    (Look(o, s, acts),
     if o.fails(|acts|) then Err(Storage)
     else if !Owns(now, namespace, id) then Err(NotFound(id))
     else Ok(now.rows[id]))
  }

  /** Read the members after those in `rows`, in order, up to the first error. */
  function ReadRest(o: Occasion, s: Store, acts: seq<Act>, namespace: string, ids: seq<MemoryId>, rows: seq<Row>)
    : (r: (seq<Act>, Result<seq<Row>, Error>))
    requires |rows| <= |ids|
    ensures r.1.Ok? ==> |r.1.value| == |ids|
    decreases |ids| - |rows|
  {
    if |rows| == |ids| then (acts, Ok(rows))
    else
      var (more, row) := Read(o, s, acts, namespace, ids[|rows|]);
      if row.Err? then (more, Err(row.error)) else ReadRest(o, s, more, namespace, ids, rows + [row.value])
  }

  function Send(o: Occasion, s: Store, acts: seq<Act>, namespace: string, c: WriteCommand)
    : (seq<Act>, Result<bool, Error>)
  {
    var now := Now(o, s, acts);
    if o.fails(|acts|) then (acts + [Act(now, now, Some(c))], Err(Storage))
    else
      var (t, r) := Commit(now, o, namespace, c);
      (acts + [Act(now, t, Some(c))], r)
  }

  /** What the engine does for a user: look for the row, then send the command. */
  function LookAndSend(o: Occasion, s: Store, acts: seq<Act>, namespace: string, id: MemoryId, c: WriteCommand)
    : (seq<Act>, Result<bool, Error>)
  {
    var (more, row) := Read(o, s, acts, namespace, id);
    if row.Err? then (more, Err(row.error)) else Send(o, s, more, namespace, c)
  }

  function Raised(ids: seq<MemoryId>, rows: seq<Row>, k: nat): WriteCommand
    requires k < |ids| && k < |rows|
  {
    UpdateConfidence(ids[k], Clamp(rows[k].memory.confidence + KEEP_BUMP))
  }

  /** Raise the confidence of the members from the `k`th on, from what was read, up to the first error. */
  function RaiseFrom(o: Occasion, s: Store, acts: seq<Act>, namespace: string, ids: seq<MemoryId>, rows: seq<Row>,
                     k: nat)
    : (seq<Act>, Result<bool, Error>)
    requires k <= |ids| == |rows|
    decreases |ids| - k
  {
    if k == |ids| then (acts, Ok(true))
    else
      var (more, r) := LookAndSend(o, s, acts, namespace, ids[k], Raised(ids, rows, k));
      if r.Err? then (more, r) else RaiseFrom(o, s, more, namespace, ids, rows, k + 1)
  }

  /** The first member with this id. */
  function IndexOf(ids: seq<MemoryId>, id: MemoryId): (i: nat)
    requires id in ids
    ensures i < |ids| && ids[i] == id && id !in ids[..i]
  {
    if ids[0] == id then 0
    else
      var i := 1 + IndexOf(ids[1..], id);
      assert ids[..i] == [ids[0]] + ids[1..][..i - 1];
      i
  }

  function Lowered(ids: seq<MemoryId>, rows: seq<Row>, id: MemoryId): real
    requires id in ids && |rows| == |ids|
  {
    Clamp(rows[IndexOf(ids, id)].memory.confidence - DEMOTE_STEP)
  }

  /** The change itself, for the actions that are recorded separately. */
  function Change(o: Occasion, s: Store, acts: seq<Act>, namespace: string, ids: seq<MemoryId>, rows: seq<Row>,
                  action: Action, explicit: bool): (seq<Act>, Result<bool, Error>)
    requires |rows| == |ids| && (action.Keep? || action.Archive? || action.Demote?)
    requires action.Archive? || action.Demote? ==> action.id in ids
  {
    match action
    case Keep(bump) => if bump then RaiseFrom(o, s, acts, namespace, ids, rows, 0) else (acts, Ok(true))
    case Archive(id) =>
      if explicit then LookAndSend(o, s, acts, namespace, id, ArchiveRow(id))
      else Send(o, s, acts, namespace, ArchiveUnattended(id))
    case Demote(id) =>
      var confidence := Lowered(ids, rows, id);
      if explicit then LookAndSend(o, s, acts, namespace, id, UpdateConfidence(id, confidence))
      else Send(o, s, acts, namespace, LowerUnattended(id, confidence))
  }

  /** Nothing was done: the row was protected. */
  function Settle(r: Result<bool, Error>): Result<(), Error> {
    if r.Err? then Err(r.error) else if r.value then Ok(()) else Err(StalePlan)
  }

  function MergeMembers(o: Occasion, s: Store, acts: seq<Act>, namespace: string, ids: seq<MemoryId>, rows: seq<Row>,
                        threshold: real, explicit: bool): (seq<Act>, Result<(), Error>)
    requires |rows| == |ids| == 2
  {
    var combined := Merged(rows[0].memory, rows[1].memory, o.composer);
    if combined.None? then (acts, Err(InvalidArgument))
    else if o.embedFails then (acts, Err(Storage))
    else
      var (more, r) := Send(o, s, acts, namespace, MergePair(ids[0], ids[1], threshold, combined.value, explicit));
      (more, Settle(r))
  }

  function RecordAction(o: Occasion, s: Store, acts: seq<Act>, namespace: string, ids: seq<MemoryId>, action: Action)
    : (seq<Act>, Result<(), Error>)
  {
    var (more, r) := Send(o, s, acts, namespace, Record(ids, action));
    (more, Settle(r))
  }

  function Perform(o: Occasion, s: Store, acts: seq<Act>, namespace: string, ids: seq<MemoryId>, rows: seq<Row>,
                   action: Action, threshold: real, explicit: bool): (seq<Act>, Result<(), Error>)
    requires |rows| == |ids| && (action.Merge? ==> |ids| == 2)
    requires action.Archive? || action.Demote? ==> action.id in ids
  {
    if action.Merge? then MergeMembers(o, s, acts, namespace, ids, rows, threshold, explicit)
    else if action.Snooze? then RecordAction(o, s, acts, namespace, ids, action)
    else
      var (more, r) := Change(o, s, acts, namespace, ids, rows, action, explicit);
      if Settle(r).Err? then (more, Settle(r)) else RecordAction(o, s, more, namespace, ids, action)
  }

  /** Whether the claimed contradiction has to be looked up again. */
  predicate Rechecks(reason: Reason, ids: seq<MemoryId>) {
    reason.Contradiction? && |ids| == 2
  }

  function Checked(o: Occasion, s: Store, reason: Reason, ids: seq<MemoryId>): (seq<Act>, Result<(), Error>) {
    if !Rechecks(reason, ids) then ([], Ok(()))
    else (Look(o, s, []), if o.fails(0) then Err(Storage) else if !o.contradiction then Err(StalePlan) else Ok(()))
  }

  /** Apply one action; `explicit` when a user asked for it. */
  function ApplyAction(s: Store, o: Occasion, namespace: string, reason: Reason, ids: seq<MemoryId>, action: Action,
                       threshold: real, explicit: bool): (seq<Act>, Result<(), Error>)
  {
    if !ValidAction(reason, ids, action) then ([], Err(InvalidArgument))
    else
      var (acts, still) := Checked(o, s, reason, ids);
      if still.Err? then (acts, still)
      else
        var (more, rows) := ReadRest(o, s, acts, namespace, ids, []);
        if rows.Err? then (more, Err(rows.error))
        else Perform(o, s, more, namespace, ids, rows.value, action, threshold, explicit)
  }

  // ------------------------------------------------------------- what its calls are

  /** A call either leaves the store as it met it or commits its command to it. */
  ghost predicate Effect(o: Occasion, namespace: string, act: Act) {
    act.left != act.met ==> act.command.Some? && act.left == Commit(act.met, o, namespace, act.command.value).0
  }

  ghost predicate ActAt(o: Occasion, namespace: string, s: Store, acts: seq<Act>, i: nat)
    requires i < |acts|
  {
    && acts[i].met == o.others(i, if i == 0 then s else acts[i - 1].left)
    && Effect(o, namespace, acts[i])
  }

  /** Nothing happens to the store but what others do before each call and what the calls commit. */
  ghost predicate IsTrail(o: Occasion, namespace: string, s: Store, acts: seq<Act>) {
    forall i: nat :: i < |acts| ==> ActAt(o, namespace, s, acts, i)
  }

  /** Commands that leave curated rows alone. */
  predicate Unattended(c: WriteCommand) {
    c.LowerUnattended? || c.ArchiveUnattended? || c.Record? || (c.MergePair? && !c.explicit)
  }

  ghost predicate AllUnattended(acts: seq<Act>) {
    forall i :: 0 <= i < |acts| && acts[i].command.Some? ==> Unattended(acts[i].command.value)
  }

  /** All of this of the calls, and none touches curated rows unless a user asked for it. */
  ghost predicate Proper(o: Occasion, namespace: string, s: Store, acts: seq<Act>, free: bool) {
    IsTrail(o, namespace, s, acts) && (free || AllUnattended(acts))
  }

  lemma {:induction false} OneMore(o: Occasion, namespace: string, s: Store, acts: seq<Act>, act: Act, free: bool)
    requires Proper(o, namespace, s, acts, free) && act.met == Now(o, s, acts) && Effect(o, namespace, act)
    requires free || act.command.None? || Unattended(act.command.value)
    ensures Proper(o, namespace, s, acts + [act], free)
  {
    var longer := acts + [act];
    forall i: nat | i < |longer| ensures ActAt(o, namespace, s, longer, i) {
      if i < |acts| { assert ActAt(o, namespace, s, acts, i); }
    }
  }

  lemma {:induction false} LookIsProper(o: Occasion, namespace: string, s: Store, acts: seq<Act>, free: bool)
    requires Proper(o, namespace, s, acts, free)
    ensures Proper(o, namespace, s, Look(o, s, acts), free)
  {
    OneMore(o, namespace, s, acts, Act(Now(o, s, acts), Now(o, s, acts), None), free);
  }

  lemma {:induction false} SendIsProper(o: Occasion, namespace: string, s: Store, acts: seq<Act>, c: WriteCommand,
                                        free: bool)
    requires Proper(o, namespace, s, acts, free) && (free || Unattended(c))
    ensures Proper(o, namespace, s, Send(o, s, acts, namespace, c).0, free)
  {
    var now := Now(o, s, acts);
    OneMore(o, namespace, s, acts, Act(now, if o.fails(|acts|) then now else Commit(now, o, namespace, c).0, Some(c)),
            free);
  }

  lemma {:induction false} LookAndSendIsProper(o: Occasion, namespace: string, s: Store, acts: seq<Act>, id: MemoryId,
                                               c: WriteCommand)
    requires Proper(o, namespace, s, acts, true)
    ensures Proper(o, namespace, s, LookAndSend(o, s, acts, namespace, id, c).0, true)
  {
    LookIsProper(o, namespace, s, acts, true);
    SendIsProper(o, namespace, s, Look(o, s, acts), c, true);
  }

  lemma {:induction false} ReadsAreProper(o: Occasion, namespace: string, s: Store, acts: seq<Act>, ids: seq<MemoryId>,
                                          rows: seq<Row>, free: bool)
    requires Proper(o, namespace, s, acts, free) && |rows| <= |ids|
    ensures Proper(o, namespace, s, ReadRest(o, s, acts, namespace, ids, rows).0, free)
    decreases |ids| - |rows|
  {
    if |rows| < |ids| {
      LookIsProper(o, namespace, s, acts, free);
      var (more, row) := Read(o, s, acts, namespace, ids[|rows|]);
      if row.Ok? { ReadsAreProper(o, namespace, s, more, ids, rows + [row.value], free); }
    }
  }

  lemma {:induction false} RaisesAreProper(o: Occasion, namespace: string, s: Store, acts: seq<Act>, ids: seq<MemoryId>,
                                           rows: seq<Row>, k: nat)
    requires Proper(o, namespace, s, acts, true) && k <= |ids| == |rows|
    ensures Proper(o, namespace, s, RaiseFrom(o, s, acts, namespace, ids, rows, k).0, true)
    decreases |ids| - k
  {
    if k < |ids| {
      LookAndSendIsProper(o, namespace, s, acts, ids[k], Raised(ids, rows, k));
      var (more, r) := LookAndSend(o, s, acts, namespace, ids[k], Raised(ids, rows, k));
      if r.Ok? { RaisesAreProper(o, namespace, s, more, ids, rows, k + 1); }
    }
  }

  /** Whether an action may touch curated rows: a user asked for it, or it confirms them. */
  predicate IsFree(action: Action, explicit: bool) {
    explicit || action.Keep?
  }

  lemma {:induction false} ChangeIsProper(o: Occasion, namespace: string, s: Store, acts: seq<Act>, ids: seq<MemoryId>,
                                          rows: seq<Row>, action: Action, explicit: bool)
    requires |rows| == |ids| && (action.Keep? || action.Archive? || action.Demote?)
    requires action.Archive? || action.Demote? ==> action.id in ids
    requires Proper(o, namespace, s, acts, IsFree(action, explicit))
    ensures Proper(o, namespace, s, Change(o, s, acts, namespace, ids, rows, action, explicit).0,
                   IsFree(action, explicit))
  {
    match action {
      case Keep(bump) =>
        if bump { RaisesAreProper(o, namespace, s, acts, ids, rows, 0); }
      case Archive(id) =>
        if explicit { LookAndSendIsProper(o, namespace, s, acts, id, ArchiveRow(id)); }
        else { SendIsProper(o, namespace, s, acts, ArchiveUnattended(id), false); }
      case Demote(id) =>
        var confidence := Lowered(ids, rows, id);
        if explicit { LookAndSendIsProper(o, namespace, s, acts, id, UpdateConfidence(id, confidence)); }
        else { SendIsProper(o, namespace, s, acts, LowerUnattended(id, confidence), false); }
    }
  }

  lemma {:induction false} PerformIsProper(o: Occasion, namespace: string, s: Store, acts: seq<Act>, ids: seq<MemoryId>,
                                           rows: seq<Row>, action: Action, threshold: real, explicit: bool)
    requires |rows| == |ids| && (action.Merge? ==> |ids| == 2)
    requires action.Archive? || action.Demote? ==> action.id in ids
    requires Proper(o, namespace, s, acts, IsFree(action, explicit))
    ensures Proper(o, namespace, s, Perform(o, s, acts, namespace, ids, rows, action, threshold, explicit).0,
                   IsFree(action, explicit))
  {
    var free := IsFree(action, explicit);
    if action.Merge? {
      var combined := Merged(rows[0].memory, rows[1].memory, o.composer);
      if combined.Some? {
        SendIsProper(o, namespace, s, acts, MergePair(ids[0], ids[1], threshold, combined.value, explicit), free);
      }
    } else if action.Snooze? {
      SendIsProper(o, namespace, s, acts, Record(ids, action), free);
    } else {
      ChangeIsProper(o, namespace, s, acts, ids, rows, action, explicit);
      var more := Change(o, s, acts, namespace, ids, rows, action, explicit).0;
      SendIsProper(o, namespace, s, more, Record(ids, action), free);
    }
  }

  /** Whatever an action does: between its calls the store is as others leave it, each call commits at
      most its own command, and without a user's request no command touches curated rows, unless the
      action confirms them. */
  lemma {:induction false} ActionIsProper(s: Store, o: Occasion, namespace: string, reason: Reason, ids: seq<MemoryId>,
                                          action: Action, threshold: real, explicit: bool)
    ensures Proper(o, namespace, s, ApplyAction(s, o, namespace, reason, ids, action, threshold, explicit).0,
                   IsFree(action, explicit))
  {
    var free := IsFree(action, explicit);
    LookIsProper(o, namespace, s, [], free);
    var (acts, still) := Checked(o, s, reason, ids);
    ReadsAreProper(o, namespace, s, acts, ids, [], free);
    if ValidAction(reason, ids, action) && still.Ok? {
      var (more, rows) := ReadRest(o, s, acts, namespace, ids, []);
      if rows.Ok? { PerformIsProper(o, namespace, s, more, ids, rows.value, action, threshold, explicit); }
    }
  }

  // ------------------------------------------------------- what an action keeps

  /** No call changed anything. */
  ghost predicate Untouched(acts: seq<Act>) {
    forall i :: 0 <= i < |acts| ==> acts[i].left == acts[i].met
  }

  /** No call wrote an audit row. */
  ghost predicate Unrecorded(acts: seq<Act>) {
    forall i :: 0 <= i < |acts| ==> acts[i].left.audit == acts[i].met.audit
  }

  lemma {:induction false} ReadsTouchNothing(o: Occasion, s: Store, acts: seq<Act>, namespace: string,
                                             ids: seq<MemoryId>, rows: seq<Row>)
    requires Untouched(acts) && |rows| <= |ids|
    ensures var (more, r) := ReadRest(o, s, acts, namespace, ids, rows); Untouched(more) && r != Err(StalePlan)
    decreases |ids| - |rows|
  {
    if |rows| < |ids| {
      var (more, row) := Read(o, s, acts, namespace, ids[|rows|]);
      if row.Ok? { ReadsTouchNothing(o, s, more, namespace, ids, rows + [row.value]); }
    }
  }

  /** A single command that fails or finds its row protected changes nothing. */
  lemma {:induction false} RefusedSend(o: Occasion, s: Store, acts: seq<Act>, namespace: string, c: WriteCommand)
    requires Untouched(acts)
    ensures var (more, r) := Send(o, s, acts, namespace, c); Settle(r).Err? ==> Untouched(more)
  {
    CommitAllOrNothing(Now(o, s, acts), o, namespace, c);
  }

  lemma {:induction false} CommitAllOrNothing(s: Store, o: Occasion, namespace: string, c: WriteCommand)
    ensures var (t, r) := Commit(s, o, namespace, c); Settle(r).Err? ==> t == s
    ensures !c.MergePair? && !c.LowerUnattended? && !c.ArchiveUnattended? ==>
              Settle(Commit(s, o, namespace, c).1) != Err(StalePlan)
  {
  }

  lemma {:induction false} RaiseNeverStale(o: Occasion, s: Store, acts: seq<Act>, namespace: string, ids: seq<MemoryId>,
                                           rows: seq<Row>, k: nat)
    requires k <= |ids| == |rows|
    ensures Settle(RaiseFrom(o, s, acts, namespace, ids, rows, k).1) != Err(StalePlan)
    decreases |ids| - k
  {
    if k < |ids| {
      var (more, r) := LookAndSend(o, s, acts, namespace, ids[k], Raised(ids, rows, k));
      if r.Ok? { RaiseNeverStale(o, s, more, namespace, ids, rows, k + 1); }
    }
  }

  lemma {:induction false} StaleChange(o: Occasion, s: Store, acts: seq<Act>, namespace: string, ids: seq<MemoryId>,
                                       rows: seq<Row>, action: Action, explicit: bool)
    requires |rows| == |ids| && (action.Keep? || action.Archive? || action.Demote?)
    requires action.Archive? || action.Demote? ==> action.id in ids
    requires Untouched(acts)
    ensures var (more, r) := Change(o, s, acts, namespace, ids, rows, action, explicit);
            Settle(r) == Err(StalePlan) ==> Untouched(more)
  {
    match action {
      case Keep(bump) => RaiseNeverStale(o, s, acts, namespace, ids, rows, 0);
      case Archive(id) => RefusedSend(o, s, acts, namespace, ArchiveUnattended(id));
      case Demote(id) => RefusedSend(o, s, acts, namespace, LowerUnattended(id, Lowered(ids, rows, id)));
    }
  }

  lemma {:induction false} StalePerform(o: Occasion, s: Store, acts: seq<Act>, namespace: string, ids: seq<MemoryId>,
                                        rows: seq<Row>, action: Action, threshold: real, explicit: bool)
    requires |rows| == |ids| && (action.Merge? ==> |ids| == 2)
    requires action.Archive? || action.Demote? ==> action.id in ids
    requires Untouched(acts)
    ensures var (more, r) := Perform(o, s, acts, namespace, ids, rows, action, threshold, explicit);
            r == Err(StalePlan) ==> Untouched(more)
  {
    if action.Merge? {
      FailedMerge(o, s, acts, namespace, ids, rows, threshold, explicit);
    } else if !action.Snooze? {
      StaleChange(o, s, acts, namespace, ids, rows, action, explicit);
    }
  }

  lemma {:induction false} FailedMerge(o: Occasion, s: Store, acts: seq<Act>, namespace: string, ids: seq<MemoryId>,
                                       rows: seq<Row>, threshold: real, explicit: bool)
    requires |rows| == |ids| == 2 && Untouched(acts)
    ensures var (more, r) := MergeMembers(o, s, acts, namespace, ids, rows, threshold, explicit);
            r.Err? ==> Untouched(more)
  {
    var combined := Merged(rows[0].memory, rows[1].memory, o.composer);
    if combined.Some? {
      RefusedSend(o, s, acts, namespace, MergePair(ids[0], ids[1], threshold, combined.value, explicit));
    }
  }

  /** An action that ends as stale has changed nothing: the store is as the others left it. */
  lemma {:induction false} StaleChangesNothing(s: Store, o: Occasion, namespace: string, reason: Reason,
                                               ids: seq<MemoryId>, action: Action, threshold: real, explicit: bool)
    ensures var (acts, r) := ApplyAction(s, o, namespace, reason, ids, action, threshold, explicit);
            r == Err(StalePlan) ==> Untouched(acts)
  {
    var (acts, still) := Checked(o, s, reason, ids);
    ReadsTouchNothing(o, s, acts, namespace, ids, []);
    if ValidAction(reason, ids, action) && still.Ok? {
      var (more, rows) := ReadRest(o, s, acts, namespace, ids, []);
      if rows.Ok? { StalePerform(o, s, more, namespace, ids, rows.value, action, threshold, explicit); }
    }
  }

  /** The last call merged both members, which were then live, unclaimed and, unless a user asked,
      not curated; nothing was changed before. */
  ghost predicate MergedLast(o: Occasion, namespace: string, acts: seq<Act>, ids: seq<MemoryId>, explicit: bool)
    requires |ids| == 2
  {
    && acts != [] && Untouched(acts[..|acts| - 1]) && acts[|acts| - 1].command.Some?
    && var last := acts[|acts| - 1];
       && last.command.value.MergePair? && ids[0] != ids[1] && o.newId !in last.met.rows
       && MemberRefusal(last.met, namespace, ids[0], explicit).None?
       && MemberRefusal(last.met, namespace, ids[1], explicit).None?
       && last.left == MergeCommit(last.met, namespace, ids[0], ids[1], last.command.value.combined, o.newId)
  }

  /** A merge is all or nothing, whatever fails and whoever interferes: applied in one last call, or no
      call changed anything. */
  lemma {:induction false} MergeIsAtomic(s: Store, o: Occasion, namespace: string, reason: Reason, ids: seq<MemoryId>,
                                         threshold: real, explicit: bool)
    requires |ids| == 2
    ensures var (acts, r) := ApplyAction(s, o, namespace, reason, ids, Merge, threshold, explicit);
            if r.Ok? then MergedLast(o, namespace, acts, ids, explicit) else Untouched(acts)
  {
    var (acts, still) := Checked(o, s, reason, ids);
    ReadsTouchNothing(o, s, acts, namespace, ids, []);
    if ValidAction(reason, ids, Merge) && still.Ok? {
      var (more, rows) := ReadRest(o, s, acts, namespace, ids, []);
      if rows.Ok? {
        FailedMerge(o, s, more, namespace, ids, rows.value, threshold, explicit);
        AppliedMerge(o, s, more, namespace, ids, rows.value, threshold, explicit);
      }
    }
  }

  lemma {:induction false} AppliedMerge(o: Occasion, s: Store, acts: seq<Act>, namespace: string, ids: seq<MemoryId>,
                                        rows: seq<Row>, threshold: real, explicit: bool)
    requires |rows| == |ids| == 2 && Untouched(acts)
    ensures var (more, r) := MergeMembers(o, s, acts, namespace, ids, rows, threshold, explicit);
            r.Ok? ==> MergedLast(o, namespace, more, ids, explicit)
  {
    var (more, r) := MergeMembers(o, s, acts, namespace, ids, rows, threshold, explicit);
    if r.Ok? { assert more[..|more| - 1] == acts; }
  }

  /** The action's own audit row, and no other, was written by the last call. */
  ghost predicate RecordedLast(acts: seq<Act>, ids: seq<MemoryId>, action: Action) {
    && acts != [] && Unrecorded(acts[..|acts| - 1])
    && acts[|acts| - 1].left.audit == acts[|acts| - 1].met.audit + [Resolved(ids, action)]
  }

  ghost predicate AuditFits(acts: seq<Act>, r: Result<(), Error>, ids: seq<MemoryId>, action: Action) {
    if r.Ok? then RecordedLast(acts, ids, action) else Unrecorded(acts)
  }

  lemma {:induction false} RecordIsLast(o: Occasion, s: Store, acts: seq<Act>, namespace: string, ids: seq<MemoryId>,
                                        action: Action)
    requires Unrecorded(acts)
    ensures var (more, r) := RecordAction(o, s, acts, namespace, ids, action); AuditFits(more, r, ids, action)
  {
    var (more, r) := RecordAction(o, s, acts, namespace, ids, action);
    assert more[..|more| - 1] == acts;
  }

  lemma {:induction false} RaisesAreUnrecorded(o: Occasion, s: Store, acts: seq<Act>, namespace: string,
                                               ids: seq<MemoryId>, rows: seq<Row>, k: nat)
    requires Unrecorded(acts) && k <= |ids| == |rows|
    ensures Unrecorded(RaiseFrom(o, s, acts, namespace, ids, rows, k).0)
    decreases |ids| - k
  {
    if k < |ids| {
      var (more, r) := LookAndSend(o, s, acts, namespace, ids[k], Raised(ids, rows, k));
      if r.Ok? { RaisesAreUnrecorded(o, s, more, namespace, ids, rows, k + 1); }
    }
  }

  lemma {:induction false} ChangeIsUnrecorded(o: Occasion, s: Store, acts: seq<Act>, namespace: string,
                                              ids: seq<MemoryId>, rows: seq<Row>, action: Action, explicit: bool)
    requires |rows| == |ids| && (action.Keep? || action.Archive? || action.Demote?)
    requires action.Archive? || action.Demote? ==> action.id in ids
    requires Unrecorded(acts)
    ensures Unrecorded(Change(o, s, acts, namespace, ids, rows, action, explicit).0)
  {
    if action.Keep? { RaisesAreUnrecorded(o, s, acts, namespace, ids, rows, 0); }
  }

  lemma {:induction false} PerformIsRecorded(o: Occasion, s: Store, acts: seq<Act>, namespace: string,
                                             ids: seq<MemoryId>, rows: seq<Row>, action: Action, threshold: real,
                                             explicit: bool)
    requires |rows| == |ids| && (action.Merge? ==> |ids| == 2)
    requires action.Archive? || action.Demote? ==> action.id in ids
    requires Untouched(acts)
    ensures var (more, r) := Perform(o, s, acts, namespace, ids, rows, action, threshold, explicit);
            AuditFits(more, r, ids, action)
  {
    if action.Merge? {
      FailedMerge(o, s, acts, namespace, ids, rows, threshold, explicit);
      AppliedMerge(o, s, acts, namespace, ids, rows, threshold, explicit);
      assert ids == [ids[0], ids[1]];
    } else if action.Snooze? {
      RecordIsLast(o, s, acts, namespace, ids, action);
    } else {
      ChangeIsUnrecorded(o, s, acts, namespace, ids, rows, action, explicit);
      RecordIsLast(o, s, Change(o, s, acts, namespace, ids, rows, action, explicit).0, namespace, ids, action);
    }
  }

  /** Audited exactly when resolved: an action that succeeds has its one audit row written by its last
      call, one that fails has none, whatever it may have changed before. */
  lemma {:induction false} AuditedExactlyWhenResolved(s: Store, o: Occasion, namespace: string, reason: Reason,
                                                      ids: seq<MemoryId>, action: Action, threshold: real,
                                                      explicit: bool)
    ensures var (acts, r) := ApplyAction(s, o, namespace, reason, ids, action, threshold, explicit);
            AuditFits(acts, r, ids, action)
  {
    var (acts, still) := Checked(o, s, reason, ids);
    ReadsTouchNothing(o, s, acts, namespace, ids, []);
    if ValidAction(reason, ids, action) && still.Ok? {
      var (more, rows) := ReadRest(o, s, acts, namespace, ids, []);
      if rows.Ok? { PerformIsRecorded(o, s, more, namespace, ids, rows.value, action, threshold, explicit); }
    }
  }

  /** Rows already claimed stay claimed. */
  ghost predicate KeepsClaims(s: Store, t: Store) {
    forall id :: id in s.rows && s.rows[id].supersededBy.Some? ==> id in t.rows && t.rows[id].supersededBy.Some?
  }

  /** Curated rows are not touched. */
  ghost predicate KeepsCurated(s: Store, t: Store) {
    forall id :: id in s.rows && s.rows[id].curated ==> id in t.rows && t.rows[id] == s.rows[id]
  }

  lemma {:induction false} CommitKeeps(s: Store, o: Occasion, namespace: string, c: WriteCommand)
    ensures KeepsClaims(s, Commit(s, o, namespace, c).0)
    ensures Unattended(c) ==> KeepsCurated(s, Commit(s, o, namespace, c).0)
  {
  }

  // ------------------------------------------------------------ implementation

  /** The live store a pass works on. */
  class ReviewStore {
    var rows: map<MemoryId, Row>
    var audit: seq<Audit>

    function Contents(): Store
      reads this
    {
      Store(rows, audit)
    }

    constructor (s: Store)
      ensures Contents() == s
    {
      rows, audit := s.rows, s.audit;
    }

    /** Whatever other writers do before a call. */
    method Interfere(next: Store)
      modifies this
      ensures Contents() == next
    {
      rows, audit := next.rows, next.audit;
    }

    /** The merge transaction: revalidate both members, insert, retire both, write the audit row. */
    method ReviewMerge(namespace: string, ids: seq<MemoryId>, threshold: real, composed: string, combined: Memory,
                       explicit: bool, o: Occasion) returns (r: Result<bool, Error>)
      requires |ids| == 2
      modifies this
      ensures var refusal := old(MergeRefusal(Contents(), o, namespace, composed, ids[0], ids[1], threshold, explicit));
              && r == (if refusal.Some? then Err(refusal.value) else Ok(true))
              && Contents() == if refusal.Some? then old(Contents())
                               else old(MergeCommit(Contents(), namespace, ids[0], ids[1], combined, o.newId))
    {
      if ids[0] == ids[1] || o.newId == ids[0] || o.newId == ids[1] {
        return Err(InvalidArgument);
      }
      if composed != namespace {
        return Err(InvalidArgument);
      }
      for i := 0 to 2
        invariant unchanged(this)
        invariant forall j :: 0 <= j < i ==> MemberRefusal(Contents(), namespace, ids[j], explicit).None?
      {
        var id := ids[i];
        if id !in rows || rows[id].namespace != namespace {
          return Err(NotFound(id));
        }
        if rows[id].archived || rows[id].supersededBy.Some? {
          return Err(StalePlan);
        }
        if rows[id].curated && !explicit {
          return Err(StalePlan);
        }
      }
      if o.similarity.None? || o.similarity.value < threshold {
        return Err(StalePlan);
      }
      if o.newId in rows {
        return Err(Storage);
      }
      assert MemberRefusal(Contents(), namespace, ids[0], explicit).None?;
      assert MemberRefusal(Contents(), namespace, ids[1], explicit).None?;
      var a, b := rows[ids[0]], rows[ids[1]];
      rows := rows[o.newId := Row(namespace, combined, false, false, None)];
      rows := rows[ids[0] := Superseded(a, o.newId)];
      rows := rows[ids[1] := Superseded(b, o.newId)];
      audit := audit + [Resolved([ids[0], ids[1]], Merge)];
      r := Ok(true);
    }

    /** The writer's arm: a missing or foreign row is an error, a curated one is left alone. */
    method SetConfidence(namespace: string, id: MemoryId, confidence: real) returns (r: Result<bool, Error>)
      modifies this
      ensures r == old(if !Owns(Contents(), namespace, id) then Err(NotFound(id)) else Ok(!rows[id].curated))
      ensures Contents() == if r == Ok(true) then old(WithConfidence(Contents(), id, confidence)) else old(Contents())
    {
      if id !in rows || rows[id].namespace != namespace {
        return Err(NotFound(id));
      }
      if rows[id].curated {
        return Ok(false);
      }
      rows := rows[id := rows[id].(memory := rows[id].memory.(confidence := confidence))];
      r := Ok(true);
    }

    /** Set a confidence for a user, curated row or not. */
    method Update(namespace: string, id: MemoryId, confidence: real) returns (r: Result<bool, Error>)
      modifies this
      ensures r == old(if !Owns(Contents(), namespace, id) then Err(NotFound(id)) else Ok(true))
      ensures Contents() == if r.Ok? then old(WithConfidence(Contents(), id, confidence)) else old(Contents())
    {
      if id !in rows || rows[id].namespace != namespace {
        return Err(NotFound(id));
      }
      rows := rows[id := rows[id].(memory := rows[id].memory.(confidence := confidence))];
      r := Ok(true);
    }

    /** Archive a row for a user; it may be archived already. */
    method ArchiveFor(namespace: string, id: MemoryId) returns (r: Result<bool, Error>)
      modifies this
      ensures r == old(if !Owns(Contents(), namespace, id) then Err(NotFound(id)) else Ok(true))
      ensures Contents() == if r.Ok? then old(WithArchived(Contents(), id)) else old(Contents())
      ensures r.Ok? ==> id in rows && rows == old(rows)[id := rows[id]] && rows[id] == old(rows[id]).(archived := true)
    {
      if id !in rows || rows[id].namespace != namespace {
        return Err(NotFound(id));
      }
      if !rows[id].archived {
        rows := rows[id := rows[id].(archived := true)];
      } else {
        assert rows[id := rows[id].(archived := true)] == rows;
      }
      r := Ok(true);
    }

    /** Archive an active, uncurated row of the namespace, if that is what it is. */
    method ArchiveGuarded(namespace: string, id: MemoryId) returns (r: Result<bool, Error>)
      modifies this
      ensures r == Ok(old(Owns(Contents(), namespace, id) && !rows[id].archived && !rows[id].curated))
      ensures Contents() == if r.value then old(WithArchived(Contents(), id)) else old(Contents())
      ensures r.value ==>
                id in rows && rows == old(rows)[id := rows[id]] && rows[id] == old(rows[id]).(archived := true)
    {
      if id !in rows || rows[id].namespace != namespace || rows[id].archived || rows[id].curated {
        return Ok(false);
      }
      rows := rows[id := rows[id].(archived := true)];
      r := Ok(true);
    }
  }

  /** One read of an action that has made `calls` calls. */
  method Peek(b: ReviewStore, o: Occasion, namespace: string, id: MemoryId, calls: nat, ghost s: Store,
              ghost acts: seq<Act>) returns (r: Result<Row, Error>, ghost more: seq<Act>)
    requires calls == |acts| && b.Contents() == Latest(s, acts)
    modifies b
    ensures (more, r) == Read(o, s, acts, namespace, id) && b.Contents() == Latest(s, more)
  {
    more := Look(o, s, acts);
    b.Interfere(o.others(calls, b.Contents()));
    if o.fails(calls) {
      return Err(Storage), more;
    }
    if id !in b.rows || b.rows[id].namespace != namespace {
      return Err(NotFound(id)), more;
    }
    r := Ok(b.rows[id]);
  }

  /** One command to the writer. */
  method SendCommand(b: ReviewStore, o: Occasion, namespace: string, c: WriteCommand, calls: nat, ghost s: Store,
                     ghost acts: seq<Act>) returns (r: Result<bool, Error>, ghost more: seq<Act>)
    requires calls == |acts| && b.Contents() == Latest(s, acts)
    modifies b
    ensures (more, r) == Send(o, s, acts, namespace, c) && b.Contents() == Latest(s, more)
  {
    more := Send(o, s, acts, namespace, c).0;
    b.Interfere(o.others(calls, b.Contents()));
    if o.fails(calls) {
      return Err(Storage), more;
    }
    match c {
      case UpdateConfidence(id, confidence) => r := b.Update(namespace, id, confidence);
      case LowerUnattended(id, confidence) => r := b.SetConfidence(namespace, id, confidence);
      case ArchiveRow(id) => r := b.ArchiveFor(namespace, id);
      case ArchiveUnattended(id) => r := b.ArchiveGuarded(namespace, id);
      case MergePair(x, y, threshold, combined, explicit) =>
        r := b.ReviewMerge(namespace, [x, y], threshold, namespace, combined, explicit, o);
      case Record(ids, action) =>
        b.audit := b.audit + [Resolved(ids, action)];
        r := Ok(true);
    }
  }

  /** Read every member through the namespace. */
  method PeekAll(b: ReviewStore, o: Occasion, namespace: string, ids: seq<MemoryId>, calls: nat, ghost s: Store,
                 ghost acts: seq<Act>) returns (r: Result<seq<Row>, Error>, made: nat, ghost more: seq<Act>)
    requires calls == |acts| && b.Contents() == Latest(s, acts)
    modifies b
    ensures (more, r) == ReadRest(o, s, acts, namespace, ids, []) && made == |more| && b.Contents() == Latest(s, more)
  {
    var notes: seq<Row> := [];
    made, more := calls, acts;
    for i := 0 to |ids|
      invariant |notes| == i && made == |more| && b.Contents() == Latest(s, more)
      invariant ReadRest(o, s, more, namespace, ids, notes) == ReadRest(o, s, acts, namespace, ids, [])
    {
      var note;
      note, more := Peek(b, o, namespace, ids[i], made, s, more);
      made := made + 1;
      if note.Err? {
        return Err(note.error), made, more;
      }
      notes := notes + [note.value];
    }
    r := Ok(notes);
  }

  /** Look for a row, then send the command about it. */
  method EngineSend(b: ReviewStore, o: Occasion, namespace: string, id: MemoryId, c: WriteCommand, calls: nat,
                    ghost s: Store, ghost acts: seq<Act>)
    returns (r: Result<bool, Error>, made: nat, ghost more: seq<Act>)
    requires calls == |acts| && b.Contents() == Latest(s, acts)
    modifies b
    ensures (more, r) == LookAndSend(o, s, acts, namespace, id, c) && made == |more| && b.Contents() == Latest(s, more)
  {
    var row;
    row, more := Peek(b, o, namespace, id, calls, s, acts);
    if row.Err? {
      return Err(row.error), calls + 1, more;
    }
    r, more := SendCommand(b, o, namespace, c, calls + 1, s, more);
    made := calls + 2;
  }

  /** Raise every member's confidence, from what was read. */
  method BumpAll(b: ReviewStore, o: Occasion, namespace: string, ids: seq<MemoryId>, notes: seq<Row>, calls: nat,
                 ghost s: Store, ghost acts: seq<Act>)
    returns (r: Result<bool, Error>, made: nat, ghost more: seq<Act>)
    requires calls == |acts| && b.Contents() == Latest(s, acts) && |notes| == |ids|
    modifies b
    ensures (more, r) == RaiseFrom(o, s, acts, namespace, ids, notes, 0)
    ensures made == |more| && b.Contents() == Latest(s, more)
  {
    made, more := calls, acts;
    for k := 0 to |ids|
      invariant made == |more| && b.Contents() == Latest(s, more)
      invariant RaiseFrom(o, s, more, namespace, ids, notes, k) == RaiseFrom(o, s, acts, namespace, ids, notes, 0)
    {
      var confidence := Clamp(notes[k].memory.confidence + KEEP_BUMP);
      r, made, more := EngineSend(b, o, namespace, ids[k], UpdateConfidence(ids[k], confidence), made, s, more);
      if r.Err? {
        return;
      }
    }
    r := Ok(true);
  }

  /** The position of a member. */
  method Find(ids: seq<MemoryId>, id: MemoryId) returns (i: nat)
    requires id in ids
    ensures i == IndexOf(ids, id)
  {
    i := 0;
    while ids[i] != id
      invariant i < |ids| && id !in ids[..i]
      decreases |ids| - i
    {
      assert ids[..i + 1] == ids[..i] + [ids[i]];
      i := i + 1;
    }
    FirstIsUnique(ids, id, i, IndexOf(ids, id));
  }

  lemma FirstIsUnique(ids: seq<MemoryId>, id: MemoryId, i: nat, j: nat)
    requires i < |ids| && j < |ids| && ids[i] == ids[j] == id && id !in ids[..i] && id !in ids[..j]
    ensures i == j
  {
    assert forall k :: 0 <= k < i ==> ids[k] in ids[..i];
    assert forall k :: 0 <= k < j ==> ids[k] in ids[..j];
  }

  /** The change itself, for the actions that are recorded separately. */
  method ChangeMembers(b: ReviewStore, o: Occasion, namespace: string, ids: seq<MemoryId>, notes: seq<Row>,
                       action: Action, explicit: bool, calls: nat, ghost s: Store, ghost acts: seq<Act>)
    returns (r: Result<bool, Error>, made: nat, ghost more: seq<Act>)
    requires |notes| == |ids| && (action.Keep? || action.Archive? || action.Demote?)
    requires action.Archive? || action.Demote? ==> action.id in ids
    requires calls == |acts| && b.Contents() == Latest(s, acts)
    modifies b
    ensures (more, r) == Change(o, s, acts, namespace, ids, notes, action, explicit)
    ensures made == |more| && b.Contents() == Latest(s, more)
  {
    r, made, more := Ok(true), calls, acts;
    match action {
      case Keep(bump) =>
        if bump {
          r, made, more := BumpAll(b, o, namespace, ids, notes, calls, s, acts);
        }
      case Archive(id) =>
        if explicit {
          r, made, more := EngineSend(b, o, namespace, id, ArchiveRow(id), calls, s, acts);
        } else {
          r, more := SendCommand(b, o, namespace, ArchiveUnattended(id), calls, s, acts);
          made := calls + 1;
        }
      case Demote(id) =>
        var i := Find(ids, id);
        var confidence := Clamp(notes[i].memory.confidence - DEMOTE_STEP);
        if explicit {
          r, made, more := EngineSend(b, o, namespace, id, UpdateConfidence(id, confidence), calls, s, acts);
        } else {
          r, more := SendCommand(b, o, namespace, LowerUnattended(id, confidence), calls, s, acts);
          made := calls + 1;
        }
    }
  }

  /** Compose the combined note from what was read and merge. */
  method MergeNotes(b: ReviewStore, o: Occasion, namespace: string, ids: seq<MemoryId>, notes: seq<Row>,
                    threshold: real, explicit: bool, calls: nat, ghost s: Store, ghost acts: seq<Act>)
    returns (r: Result<(), Error>, ghost more: seq<Act>)
    requires |notes| == |ids| == 2 && calls == |acts| && b.Contents() == Latest(s, acts)
    modifies b
    ensures (more, r) == MergeMembers(o, s, acts, namespace, ids, notes, threshold, explicit)
    ensures b.Contents() == Latest(s, more)
  {
    more := acts;
    var combined := ReviewMerge.Merge(notes[0].memory, notes[1].memory, o.composer);
    if combined.None? {
      return Err(InvalidArgument), more;
    }
    if o.embedFails {
      return Err(Storage), more;
    }
    var done;
    done, more := SendCommand(b, o, namespace, MergePair(ids[0], ids[1], threshold, combined.value, explicit), calls, s,
                              acts);
    r := if done.Err? then Err(done.error) else if done.value then Ok(()) else Err(StalePlan);
  }

  /** Carry out an action whose members have been read. */
  method PerformAction(b: ReviewStore, o: Occasion, namespace: string, ids: seq<MemoryId>, notes: seq<Row>,
                       action: Action, threshold: real, explicit: bool, calls: nat, ghost s: Store,
                       ghost acts: seq<Act>)
    returns (r: Result<(), Error>, ghost more: seq<Act>)
    requires |notes| == |ids| && (action.Merge? ==> |ids| == 2)
    requires action.Archive? || action.Demote? ==> action.id in ids
    requires calls == |acts| && b.Contents() == Latest(s, acts)
    modifies b
    ensures (more, r) == Perform(o, s, acts, namespace, ids, notes, action, threshold, explicit)
    ensures b.Contents() == Latest(s, more)
  {
    if action.Merge? {
      r, more := MergeNotes(b, o, namespace, ids, notes, threshold, explicit, calls, s, acts);
      return;
    }
    var made := calls;
    more := acts;
    var done: Result<bool, Error>;
    if !action.Snooze? {
      done, made, more := ChangeMembers(b, o, namespace, ids, notes, action, explicit, calls, s, acts);
      if done.Err? {
        return Err(done.error), more;
      }
      if !done.value {
        return Err(StalePlan), more;
      }
    }
    done, more := SendCommand(b, o, namespace, Record(ids, action), made, s, more);
    r := if done.Err? then Err(done.error) else if done.value then Ok(()) else Err(StalePlan);
  }

  /** Apply one action, for a user or for a policy. */
  method ApplyReviewAction(b: ReviewStore, o: Occasion, namespace: string, reason: Reason, ids: seq<MemoryId>,
                           action: Action, threshold: real, explicit: bool)
    returns (r: Result<(), Error>, ghost acts: seq<Act>)
    modifies b
    ensures (acts, r) == ApplyAction(old(b.Contents()), o, namespace, reason, ids, action, threshold, explicit)
    ensures b.Contents() == Latest(old(b.Contents()), acts)
  {
    ghost var s := b.Contents();
    acts := [];
    if !ValidAction(reason, ids, action) {
      return Err(InvalidArgument), acts;
    }
    var calls := 0;
    if reason.Contradiction? && |ids| == 2 {
      acts := Look(o, s, acts);
      b.Interfere(o.others(0, b.Contents()));
      calls := 1;
      if o.fails(0) {
        return Err(Storage), acts;
      }
      if !o.contradiction {
        return Err(StalePlan), acts;
      }
    }
    var notes;
    notes, calls, acts := PeekAll(b, o, namespace, ids, calls, s, acts);
    if notes.Err? {
      return Err(notes.error), acts;
    }
    r, acts := PerformAction(b, o, namespace, ids, notes.value, action, threshold, explicit, calls, s, acts);
  }
}
