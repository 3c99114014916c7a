/**
 What opening a store and cutting over do to a database's recorded embedding space, against the
 stamps its rows carry, and how long an admission keeps others out
 (crates/rb-store/src/store/lifecycle.rs:567-672, reembed.rs:34-65; crates/rb-daemon/src/server.rs:585-660).
 */
module SpaceMarkers {
  import opened Common
  import opened Admission

  // ------------------------------------------------------------ opening a store

  /** Every row of the database carries this model's stamp. */
  ghost predicate AllRows(db: Database, model: string) {
    forall m :: m in db.rowModels ==> m == model
  }

  /** The recorded space admits this one: the dimension is recorded so or not at all, and so is the model,
      but a missing model is taken for this one only if every row carries it. */
  ghost predicate SpaceAdmits(db: Database, dim: nat, model: string) {
    && dim > 0 && (db.dim.None? || db.dim.value == dim)
    && (if db.model.Some? then db.model.value == model else AllRows(db, model))
  }

  /** A store opens exactly when the recorded space of the file its name means admits the configured one;
      both markers are then in place. A refused store can leave a missing dimension recorded, never a
      model. The rows, and all other databases, are as they were. */
  lemma {:induction false} OpensExactlyWhen(s: State, sid: SessionId, conn: ConnectionId, holder: Holder)
    requires Enabled(s, Open(sid, conn, holder)) && s.files[s.sessions[sid].path] in s.databases
    ensures var me, next := s.sessions[sid], Apply(s, Open(sid, conn, holder));
            var at := s.files[me.path];
            var db, after := s.databases[at], next.databases[at];
            && (conn in next.connections <==> SpaceAdmits(db, me.dim, me.model))
            && (conn in next.connections ==>
                  && next.connections == s.connections[conn := Connection(sid, holder, at, me.model, me.dim)]
                  && next.sessions == s.sessions[sid := me.(refs := me.refs + {holder})]
                  && MarkersOf(after) == (Some(me.dim), Some(me.model)))
            && (conn !in next.connections ==>
                  && next.connections == s.connections && next.sessions == s.sessions && after.model == db.model
                  && after.dim == if me.dim > 0 && db.dim.None? then Some(me.dim) else db.dim)
            && after.rowModels == db.rowModels && next.databases == s.databases[at := after]
  {
    var me := s.sessions[sid];
    var db := s.databases[s.files[me.path]];
    assert db.rowModels <= {me.model} <==> AllRows(db, me.model);
  }

  // --------------------------------------------------------- when markers change

  /** What one step may do to one database. */
  ghost predicate MarkerStep(s: State, step: Step, i: Inode, db: Database, after: Database) {
    if step.CutOver? then
      && after.rowModels == db.rowModels
      && (MarkersOf(after) == MarkersOf(db) || CutsOver(s, step, i, after))
    else
      && (after.dim != db.dim ==> db.dim.None?)
      && (after.model != db.model ==> db.model.None? && after.model.Some? && AllRows(db, after.model.value))
  }

  /** The cutover of the file this name means, by an admission that was asked to accept its space. */
  ghost predicate CutsOver(s: State, step: Step, i: Inode, after: Database) {
    && step.CutOver? && step.sid in s.sessions && var me := s.sessions[step.sid];
       && me.accept && me.existed && !me.ready && me.path in s.files && s.files[me.path] == i
       && MarkersOf(after) == (Some(me.dim), Some(me.model)) && me.dim > 0
  }

  /** Markers move by an explicitly accepted cutover, both at once, or by recording what was missing; and
      a missing model is recorded only as the one every row carries. New databases have neither. */
  lemma {:induction false} MarkersMoveOnly(s: State, step: Step, i: Inode)
    ensures var next := Apply(s, step);
            && (i in s.databases ==> i in next.databases && MarkerStep(s, step, i, s.databases[i], next.databases[i]))
            && (i !in s.databases && i in next.databases ==> next.databases[i] == Database(None, None, {}))
  {
    if Enabled(s, step) && step.Open? && s.files[s.sessions[step.sid].path] in s.databases {
      OpensExactlyWhen(s, step.sid, step.conn, step.holder);
    }
  }

  /** The same at every moment of every run, names re-pointed at will. */
  lemma {:induction false} MarkersMoveOnlyAlong(s: State, steps: seq<Step>, k: nat, i: Inode)
    requires k < |steps|
    ensures var at, next := Run(s, steps[..k]), Run(s, steps[..k + 1]);
            && (i in at.databases ==>
                  i in next.databases && MarkerStep(at, steps[k], i, at.databases[i], next.databases[i]))
            && (i !in at.databases && i in next.databases ==> next.databases[i] == Database(None, None, {}))
  {
    assert steps[..k + 1] == steps[..k] + [steps[k]];
    RunsOn(s, steps[..k], [steps[k]]);
    RunsOne(Run(s, steps[..k]), steps[k]);
    MarkersMoveOnly(Run(s, steps[..k]), steps[k], i);
  }

  lemma {:induction false} RunsOne(s: State, step: Step)
    ensures Run(s, [step]) == Apply(s, step)
  {
    assert [step][1..] == [];
    assert Run(Apply(s, step), []) == Apply(s, step);
  }

  /** An accepted cutover moves both markers at once and leaves the rows as they are, to be re-embedded. */
  lemma {:induction false} CutOverMoves(s: State, sid: SessionId)
    requires Enabled(s, CutOver(sid)) && s.files[s.sessions[sid].path] in s.databases
    ensures var me, next := s.sessions[sid], Apply(s, CutOver(sid));
            var at := s.files[me.path];
            && next.sessions == s.sessions[sid := me.(ready := true)] && next.connections == s.connections
            && next.databases == s.databases[at := next.databases[at]]
            && next.databases[at].rowModels == s.databases[at].rowModels
            && MarkersOf(next.databases[at])
               == if me.dim > 0 then (Some(me.dim), Some(me.model)) else MarkersOf(s.databases[at])
  {
  }

  // ------------------------------------------------------ rows and their marker

  /** Where a model is recorded, every row carries it. */
  ghost predicate Uniform(db: Database) {
    db.model.Some? ==> AllRows(db, db.model.value)
  }

  ghost predicate AllUniform(s: State) {
    forall i :: i in s.databases ==> Uniform(s.databases[i])
  }

  /** Not a cutover of a file with rows of another model than the accepted one. */
  ghost predicate KeepsRows(s: State, step: Step) {
    && step.CutOver? && Enabled(s, step) && s.sessions[step.sid].dim > 0
    && s.files[s.sessions[step.sid].path] in s.databases
    ==> AllRows(s.databases[s.files[s.sessions[step.sid].path]], s.sessions[step.sid].model)
  }

  /** A row is stamped with the model of the store that writes it. */
  lemma {:induction false} RowsAreStamped(s: State, conn: ConnectionId)
    requires Enabled(s, WriteRow(conn))
    ensures var c, next := s.connections[conn], Apply(s, WriteRow(conn));
            var db, after := s.databases[c.inode], next.databases[c.inode];
            && (forall m :: m in after.rowModels <==> m in db.rowModels || m == c.model)
            && MarkersOf(after) == MarkersOf(db) && next == s.(databases := s.databases[c.inode := after])
  {
  }

  /** While stores agree with their databases, a step leaves no database with rows of another model than
      the recorded one, exactly when it is not a cutover of such rows: neither the adoption of a missing
      model nor any store's writes ever do. */
  lemma {:induction false} UniformExactlyWhen(s: State, step: Step)
    requires StoresAgree(s) && AllUniform(s)
    ensures AllUniform(Apply(s, step)) <==> KeepsRows(s, step)
  {
    var next := Apply(s, step);
    if Enabled(s, step) && step.CutOver? && s.files[s.sessions[step.sid].path] in s.databases {
      CutOverMoves(s, step.sid);
    } else if Enabled(s, step) && step.WriteRow? {
      assert Agrees(s, s.connections[step.conn]);
      RowsAreStamped(s, step.conn);
    } else if Enabled(s, step) && step.Open? && s.files[s.sessions[step.sid].path] in s.databases {
      OpensExactlyWhen(s, step.sid, step.conn, step.holder);
    } else {
      OthersKeepUniform(s, step);
    }
  }

  lemma {:induction false} OthersKeepUniform(s: State, step: Step)
    requires AllUniform(s)
    requires !(Enabled(s, step) && step.CutOver? && s.files[s.sessions[step.sid].path] in s.databases)
    requires !(Enabled(s, step) && step.Open? && s.files[s.sessions[step.sid].path] in s.databases)
    requires !(Enabled(s, step) && step.WriteRow?)
    ensures AllUniform(Apply(s, step))
  {
  }

  ghost predicate UniformAlong(s: State, steps: seq<Step>)
    decreases |steps|
  {
    AllUniform(s) && (steps != [] ==> UniformAlong(Apply(s, steps[0]), steps[1..]))
  }

  ghost predicate KeepsRowsAlong(s: State, steps: seq<Step>)
    decreases |steps|
  {
    steps == [] || (KeepsRows(s, steps[0]) && KeepsRowsAlong(Apply(s, steps[0]), steps[1..]))
  }

  /** Over every run whose cutovers meet no store in another space: all rows carry the recorded model of
      their database throughout, exactly when every cutover finds only rows of the model it accepts. */
  lemma {:induction false} UniformAlongExactlyWhen(s: State, steps: seq<Step>)
    requires StoresAgree(s) && AllUniform(s) && HarmlessAlong(s, steps)
    ensures UniformAlong(s, steps) <==> KeepsRowsAlong(s, steps)
    decreases |steps|
  {
    if steps != [] {
      UniformExactlyWhen(s, steps[0]);
      AgreementExactlyWhen(s, steps[0]);
      if KeepsRows(s, steps[0]) { UniformAlongExactlyWhen(Apply(s, steps[0]), steps[1..]); }
    }
  }

  // ------------------------------------------------------- how long a lock lasts

  /** Another process waits for the file an admission holds. */
  ghost predicate Waits(s: State, sid: SessionId, b: SessionId) {
    && LocksMatch(s) && s.sidecar == SidecarName && sid in s.sessions
    && b in s.pending && b !in s.sessions && s.pending[b].inode == s.sessions[sid].inode
  }

  /** Until then it cannot be. */
  lemma {:induction false} HeldOff(s: State, sid: SessionId, b: SessionId)
    requires Waits(s, sid, b)
    ensures b !in Apply(s, Lock(b)).sessions
  {
    LocksExactlyWhenFree(s, b);
  }

  /** Without the one admission to its file, a waiting process finds it free. */
  lemma {:induction false} FreeWithout(s: State, sid: SessionId, b: SessionId, next: State)
    requires Waits(s, sid, b)
    requires LocksMatch(next) && next.sidecar == SidecarName && Enabled(next, Lock(b))
    requires next.sessions == s.sessions - {sid} && next.pending == s.pending
    ensures b in Apply(next, Lock(b)).sessions
  {
    LocksExactlyWhenFree(next, b);
    forall other | other in next.sessions ensures next.sessions[other].inode != next.pending[b].inode {
      if s.sessions[other].inode == s.sessions[sid].inode { OneSessionPerDatabase(s, other, sid); }
    }
  }

  /** When a process ends, however abruptly, whoever waits for its file can be admitted, and none of its
      stores stays open. */
  lemma {:induction false} CrashFrees(s: State, sid: SessionId, b: SessionId)
    requires Waits(s, sid, b)
    ensures b !in Apply(s, Lock(b)).sessions && b in Apply(Apply(s, Crash(sid)), Lock(b)).sessions
    ensures forall c :: c in Apply(s, Crash(sid)).connections <==> c in s.connections && s.connections[c].sid != sid
  {
    var next := Apply(s, Crash(sid));
    ReleaseLocks(Disconnect(s, sid), sid, {});
    HeldOff(s, sid, b);
    CrashDisconnects(s, sid);
    FreeWithout(s, sid, b, next);
  }

  lemma {:induction false} CrashDisconnects(s: State, sid: SessionId)
    requires sid in s.sessions
    ensures forall c :: c in Apply(s, Crash(sid)).connections <==> c in s.connections && s.connections[c].sid != sid
  {
  }

  /** Dropping a reference lets a waiting process in exactly when it was the last. */
  lemma {:induction false} LastDropFrees(s: State, sid: SessionId, holder: Holder, b: SessionId)
    requires Waits(s, sid, b) && Enabled(s, Drop(sid, holder))
    ensures b in Apply(Apply(s, Drop(sid, holder)), Lock(b)).sessions <==> s.sessions[sid].refs == {holder}
  {
    var refs := s.sessions[sid].refs - {holder};
    var next := Apply(s, Drop(sid, holder));
    assert refs == {} <==> s.sessions[sid].refs == {holder};
    ReleaseLocks(s, sid, refs);
    if refs == {} {
      FreeWithout(s, sid, b, next);
    } else {
      HeldOff(next, sid, b);
    }
  }

  // --------------------------------------------------- where admissions come from

  /** What an admission was opened with. */
  ghost predicate OpenedBy(x: Session, sid: SessionId, step: Step) {
    && step.OpenFile? && step.sid == sid && step.path == x.path && step.saw == x.existed && step.accept == x.accept
    && step.model == x.model && step.dim == x.dim
  }

  /** The session is there, opened with the same. */
  ghost predicate Known(s: State, sid: SessionId, x: Session) {
    || (sid in s.sessions && SameOrigin(s.sessions[sid], x))
    || (sid in s.pending && SameOrigin(s.pending[sid], x))
  }

  ghost predicate SameOrigin(x: Session, y: Session) {
    && x.path == y.path && x.inode == y.inode && x.existed == y.existed && x.accept == y.accept
    && x.model == y.model && x.dim == y.dim
  }

  ghost predicate OpenedAlong(s: State, steps: seq<Step>, sid: SessionId, x: Session)
    decreases |steps|
  {
    steps != [] && ((Enabled(s, steps[0]) && OpenedBy(x, sid, steps[0]))
                    || OpenedAlong(Apply(s, steps[0]), steps[1..], sid, x))
  }

  lemma {:induction false} OriginStep(s: State, step: Step, sid: SessionId, x: Session)
    requires Known(Apply(s, step), sid, x)
    ensures Known(s, sid, x) || (Enabled(s, step) && OpenedBy(x, sid, step))
  {
  }

  /** Every admission keeps its name, file, choice and space from the step that opened it. */
  lemma {:induction false} OriginsAre(s: State, steps: seq<Step>, sid: SessionId, x: Session)
    requires Known(Run(s, steps), sid, x)
    ensures Known(s, sid, x) || OpenedAlong(s, steps, sid, x)
    decreases |steps|
  {
    if steps != [] {
      OriginsAre(Apply(s, steps[0]), steps[1..], sid, x);
      if Known(Apply(s, steps[0]), sid, x) { OriginStep(s, steps[0], sid, x); }
    }
  }

  /** Along the run the process was asked to accept a new space for this name, when it had seen a file of
      that name. */
  ghost predicate AskedAlong(s: State, steps: seq<Step>, sid: SessionId, path: Path)
    decreases |steps|
  {
    steps != [] && ((steps[0].OpenFile? && steps[0].sid == sid && steps[0].path == path && steps[0].accept
                     && steps[0].saw && path in s.files)
                    || AskedAlong(Apply(s, steps[0]), steps[1..], sid, path))
  }

  lemma {:induction false} OpenedWasAsked(s: State, steps: seq<Step>, sid: SessionId, x: Session)
    requires OpenedAlong(s, steps, sid, x) && x.accept && x.existed
    ensures AskedAlong(s, steps, sid, x.path)
    decreases |steps|
  {
    if !(Enabled(s, steps[0]) && OpenedBy(x, sid, steps[0])) {
      OpenedWasAsked(Apply(s, steps[0]), steps[1..], sid, x);
    }
  }

  /** Over every run: no process cuts a database over unless it was started to, under a name that had a
      file before it opened one. */
  lemma {:induction false} CutOversWereAsked(s: State, steps: seq<Step>, sid: SessionId)
    requires sid !in s.sessions && sid !in s.pending && Enabled(Run(s, steps), CutOver(sid))
    ensures AskedAlong(s, steps, sid, Run(s, steps).sessions[sid].path)
  {
    var x := Run(s, steps).sessions[sid];
    OriginsAre(s, steps, sid, x);
    OpenedWasAsked(s, steps, sid, x);
  }
}
