/**
 Database admission: one advisory lock per database file, keyed by device and inode,
 held by reference until every store connection is closed, around embedding-space
 cutover and store opening
 (crates/rb-daemon/src/server.rs:221-302, 585-660, 792-824;
 crates/rb-daemon/src/store_handle.rs:428-575;
 crates/rb-store/src/store/lifecycle.rs:567-680, reembed.rs:34-65).
 */
module Admission {
  import opened Common

  type Path = string
  type SessionId = nat
  type ConnectionId = nat

  datatype Inode = Inode(dev: nat, ino: nat)

  /** A database's recorded embedding space, and the model stamps its rows carry. */
  datatype Database = Database(dim: Option<nat>, model: Option<string>, rowModels: set<string>)

  /** Who keeps the admission alive: the daemon object, the writer thread, the read pool. */
  datatype Holder = Daemon | Writer | Pool

  datatype Session = Session(path: Path, inode: Inode, existed: bool, accept: bool,
                             model: string, dim: nat, ready: bool, refs: set<Holder>)

  datatype Connection = Connection(sid: SessionId, holder: Holder, inode: Inode, model: string, dim: nat)

  /** `sidecar` names the lock file of a database; `locks` are the lock files held. A pending session
      has its database file open but no lock yet. */
  datatype State = State(sidecar: Inode -> string, files: map<Path, Inode>, databases: map<Inode, Database>,
                         locks: map<string, SessionId>, pending: map<SessionId, Session>,
                         sessions: map<SessionId, Session>, connections: map<ConnectionId, Connection>)

  // ---------------------------------------------------------------- naming

  /** File name of a database's admission sidecar. */
  function SidecarName(inode: Inode): string {
    "db-" + Decimal(inode.dev) + "-" + Decimal(inode.ino) + ".lock"
  }

  /** Two databases share a sidecar only when they are the same file. */
  lemma {:induction false} SidecarNameInjective(a: Inode, b: Inode)
    requires SidecarName(a) == SidecarName(b)
    ensures a == b
  {
    var x, y := Decimal(a.dev) + "-" + Decimal(a.ino), Decimal(b.dev) + "-" + Decimal(b.ino);
    assert SidecarName(a) == "db-" + x + ".lock" && SidecarName(b) == "db-" + y + ".lock";
    assert x == SidecarName(a)[3..|SidecarName(a)| - 5] == SidecarName(b)[3..|SidecarName(b)| - 5] == y;
    SplitAtDash(Decimal(a.dev), Decimal(a.ino), Decimal(b.dev), Decimal(b.ino));
    DecimalInjective(a.dev, b.dev);
    DecimalInjective(a.ino, b.ino);
  }

  lemma SplitAtDash(p: string, q: string, r: string, s: string)
    requires p + "-" + q == r + "-" + s
    requires '-' !in p && '-' !in r
    ensures p == r && q == s
  {
    var u, v := p + "-" + q, r + "-" + s;
    assert u[|p|] == '-' && v[|r|] == '-';
    assert forall i :: 0 <= i < |r| ==> v[i] == r[i] && r[i] in r;
    assert forall i :: 0 <= i < |p| ==> u[i] == p[i] && p[i] in p;
    assert |p| == |r|;
    assert p == u[..|p|] && r == v[..|r|] && q == u[|p| + 1..] && s == v[|r| + 1..];
  }

  // ----------------------------------------------------------- the store's part

  /** Opening a model-bound connection: seed missing markers, verify present ones. */
  function OpenStore(db: Database, dim: nat, model: string): (Database, bool) {
    if dim == 0 then (db, false)
    else if db.dim.Some? && db.dim.value != dim then (db, false)
    else
      var seeded := db.(dim := Some(dim));
      match db.model
      case Some(m) => (seeded, m == model)
      case None =>
        if db.rowModels <= {model} then (seeded.(model := Some(model)), true) else (seeded, false)
  }

  /** The explicit opt-in: both markers move together. */
  function AcceptSpaceChange(db: Database, dim: nat, model: string): Database {
    if dim == 0 then db else db.(dim := Some(dim), model := Some(model))
  }

  // -------------------------------------------------------------------- steps

  datatype Step =
    | OpenFile(sid: SessionId, path: Path, saw: bool, accept: bool, model: string, dim: nat, spare: Inode)
    | Lock(sid: SessionId)
    | GiveUp(sid: SessionId)
    | CutOver(sid: SessionId)
    | SkipCutOver(sid: SessionId)
    | Open(sid: SessionId, conn: ConnectionId, holder: Holder)
    | WriteRow(conn: ConnectionId)
    | Close(conn: ConnectionId)
    | Drop(sid: SessionId, holder: Holder)
    | Crash(sid: SessionId)
    | Link(path: Path, target: Inode)

  predicate Enabled(s: State, step: Step) {
    match step
    case OpenFile(sid, path, saw, _, _, _, spare) =>
      sid !in s.sessions && sid !in s.pending && spare !in s.databases && (saw ==> path in s.files)
    case Lock(sid) => sid in s.pending && sid !in s.sessions
    case GiveUp(sid) => sid in s.pending
    case CutOver(sid) =>
      sid in s.sessions && !s.sessions[sid].ready && s.sessions[sid].accept && s.sessions[sid].existed
      && s.sessions[sid].path in s.files
    case SkipCutOver(sid) =>
      sid in s.sessions && !s.sessions[sid].ready && !(s.sessions[sid].accept && s.sessions[sid].existed)
    case Open(sid, conn, holder) =>
      sid in s.sessions && s.sessions[sid].ready && s.sessions[sid].path in s.files
      && conn !in s.connections && holder != Daemon
      && (Daemon in s.sessions[sid].refs || holder in s.sessions[sid].refs)
    case WriteRow(conn) => conn in s.connections && s.connections[conn].inode in s.databases
    case Close(conn) => conn in s.connections
    case Drop(sid, holder) =>
      sid in s.sessions && holder in s.sessions[sid].refs
      && forall c :: c in s.connections ==> s.connections[c].sid != sid || s.connections[c].holder != holder
    case Crash(sid) => sid in s.sessions
    case Link(_, target) => target in s.databases
  }

  /** Opening a path creates its file when missing. */
  function Target(s: State, path: Path, spare: Inode): Inode {
    if path in s.files then s.files[path] else spare
  }

  function Apply(s: State, step: Step): State {
    if !Enabled(s, step) then s
    else match step
      case OpenFile(sid, path, saw, accept, model, dim, spare) =>
        var inode := Target(s, path, spare);
        Await(Touch(s, path, inode), sid, Session(path, inode, saw, accept, model, dim, false, {Daemon}))
      case Lock(sid) => Admit(Forget(s, sid), sid, s.pending[sid])
      case GiveUp(sid) => Forget(s, sid)
      case CutOver(sid) => DoCutOver(s, sid)
      case SkipCutOver(sid) => MarkReady(s, sid)
      case Open(sid, conn, holder) => DoOpen(s, sid, conn, holder)
      case WriteRow(conn) => DoWriteRow(s, s.connections[conn])
      case Close(conn) => s.(connections := s.connections - {conn})
      case Drop(sid, holder) => Release(s, sid, s.sessions[sid].refs - {holder})
      case Crash(sid) => Release(Disconnect(s, sid), sid, {})
      case Link(path, target) => s.(files := s.files[path := target])
  }

  /** The database file exists once opened. */
  function Touch(s: State, path: Path, inode: Inode): State {
    s.(files := s.files[path := inode],
       databases := if inode in s.databases then s.databases
                    else s.databases[inode := Database(None, None, {})])
  }

  function Await(s: State, sid: SessionId, session: Session): State {
    s.(pending := s.pending[sid := session])
  }

  function Forget(s: State, sid: SessionId): State {
    s.(pending := s.pending - {sid})
  }

  /** A row carries the model stamp of the connection that wrote it. */
  function DoWriteRow(s: State, c: Connection): State
    requires c.inode in s.databases
  {
    var db := s.databases[c.inode];
    s.(databases := s.databases[c.inode := db.(rowModels := db.rowModels + {c.model})])
  }

  /** Take the sidecar lock without waiting; a held lock refuses the admission. */
  function Admit(s: State, sid: SessionId, session: Session): State {
    var name := s.sidecar(session.inode);
    if name in s.locks then s
    else s.(locks := s.locks[name := sid], sessions := s.sessions[sid := session])
  }

  function MarkReady(s: State, sid: SessionId): State
    requires sid in s.sessions
  {
    s.(sessions := s.sessions[sid := s.sessions[sid].(ready := true)])
  }

  /** Accept the configured space on whatever file the name means now. */
  function DoCutOver(s: State, sid: SessionId): State
    requires sid in s.sessions && s.sessions[sid].path in s.files
  {
    var me := s.sessions[sid];
    var at := s.files[me.path];
    if at !in s.databases then MarkReady(s, sid)
    else MarkReady(s, sid).(databases := s.databases[at := AcceptSpaceChange(s.databases[at], me.dim, me.model)])
  }

  /** Open one connection on whatever file the name means now. */
  function DoOpen(s: State, sid: SessionId, conn: ConnectionId, holder: Holder): State
    requires sid in s.sessions && s.sessions[sid].path in s.files
  {
    var me := s.sessions[sid];
    var at := s.files[me.path];
    if at !in s.databases then s
    else
      var (db, ok) := OpenStore(s.databases[at], me.dim, me.model);
      var written := s.(databases := s.databases[at := db]);
      if ok then Connect(written, sid, conn, holder, at) else written
  }

  function Connect(s: State, sid: SessionId, conn: ConnectionId, holder: Holder, at: Inode): State
    requires sid in s.sessions
  {
    var me := s.sessions[sid];
    s.(connections := s.connections[conn := Connection(sid, holder, at, me.model, me.dim)],
       sessions := s.sessions[sid := me.(refs := me.refs + {holder})])
  }

  function Disconnect(s: State, sid: SessionId): State {
    s.(connections := map c | c in s.connections && s.connections[c].sid != sid :: s.connections[c])
  }

  /** Keep the admission while somebody refers to it, else unlock. */
  function Release(s: State, sid: SessionId, refs: set<Holder>): State
    requires sid in s.sessions
  {
    if refs != {} then s.(sessions := s.sessions[sid := s.sessions[sid].(refs := refs)])
    else s.(sessions := s.sessions - {sid},
            locks := map n | n in s.locks && s.locks[n] != sid :: s.locks[n])
  }

  function Run(s: State, steps: seq<Step>): State
    decreases |steps|
  {
    if steps == [] then s else Run(Apply(s, steps[0]), steps[1..])
  }

  /** Names used by a live or pending admission are not re-pointed at another file meanwhile. */
  ghost predicate NamesStable(s: State, step: Step) {
    step.Link? ==>
      && (forall sid :: sid in s.sessions && s.sessions[sid].path == step.path ==> s.sessions[sid].inode == step.target)
      && (forall sid :: sid in s.pending && s.pending[sid].path == step.path ==> s.pending[sid].inode == step.target)
  }

  ghost predicate NamesStableAlong(s: State, steps: seq<Step>)
    decreases |steps|
  {
    steps == [] || (NamesStable(s, steps[0]) && NamesStableAlong(Apply(s, steps[0]), steps[1..]))
  }

  // ---------------------------------------------------------------- invariant

  /** Locks and admissions match one to one. */
  ghost predicate LocksMatch(s: State) {
    && (forall sid :: sid in s.sessions ==>
          var name := s.sidecar(s.sessions[sid].inode); name in s.locks && s.locks[name] == sid)
    && (forall name :: name in s.locks ==>
          s.locks[name] in s.sessions && s.sidecar(s.sessions[s.locks[name]].inode) == name)
  }

  ghost predicate NamesResolve(s: State) {
    && (forall p :: p in s.files ==> s.files[p] in s.databases)
    && (forall sid :: sid in s.sessions ==> Named(s, s.sessions[sid]))
    && (forall sid :: sid in s.pending ==> Named(s, s.pending[sid]))
  }

  /** The session's name still means the file it opened. */
  predicate Named(s: State, session: Session) {
    session.path in s.files && s.files[session.path] == session.inode
  }

  /** An open connection belongs to an admission of the very file it is open on, whose holder
      keeps that admission alive, and agrees with the file's markers. */
  ghost predicate ConnectionSound(s: State, c: Connection) {
    && c.sid in s.sessions
    && s.sessions[c.sid].ready
    && c.inode == s.sessions[c.sid].inode
    && c.holder in s.sessions[c.sid].refs
    && Agrees(s, c)
  }

  predicate Agrees(s: State, c: Connection) {
    c.inode in s.databases && MarkersOf(s.databases[c.inode]) == (Some(c.dim), Some(c.model))
  }

  function MarkersOf(db: Database): (Option<nat>, Option<string>) {
    (db.dim, db.model)
  }

  ghost predicate ConnectionsSound(s: State) {
    forall c :: c in s.connections ==> ConnectionSound(s, s.connections[c])
  }

  ghost predicate Sound(s: State) {
    LocksMatch(s) && NamesResolve(s) && ConnectionsSound(s)
  }

  /** Any databases under any names, left behind by whatever ran before; nobody at work. */
  ghost predicate Idle(s: State) {
    && s.sidecar == SidecarName && s.locks == map[] && s.pending == map[] && s.sessions == map[]
    && s.connections == map[]
    && (forall p :: p in s.files ==> s.files[p] in s.databases)
  }

  ghost predicate InUse(s: State, inode: Inode) {
    exists c :: c in s.connections && s.connections[c].inode == inode
  }

  /** Markers of a database that stays are only rewritten while no connection is open on it. */
  ghost predicate MarkersGuarded(s: State, next: State) {
    forall i :: i in s.databases ==>
      i in next.databases && (InUse(s, i) ==> MarkersOf(next.databases[i]) == MarkersOf(s.databases[i]))
  }

  /** What every step keeps. */
  ghost predicate Keeps(s: State, next: State) {
    Sound(next) && MarkersGuarded(s, next)
  }

  lemma {:induction false} StepSound(s: State, step: Step)
    requires Sound(s) && NamesStable(s, step)
    ensures Keeps(s, Apply(s, step))
  {
    if Enabled(s, step) {
      if step.OpenFile? || step.Lock? || step.GiveUp? || step.Link? {
        AdmissionStepSound(s, step);
      } else if step.CutOver? || step.SkipCutOver? || step.Open? {
        StoreStepSound(s, step);
      } else if step.WriteRow? || step.Close? {
        ConnectionStepSound(s, step);
      } else {
        EndingStepSound(s, step);
      }
    }
  }

  lemma {:induction false} AdmissionStepSound(s: State, step: Step)
    requires Sound(s) && NamesStable(s, step) && Enabled(s, step)
    requires step.OpenFile? || step.Lock? || step.GiveUp? || step.Link?
    ensures Keeps(s, Apply(s, step))
  {
    match step {
      case OpenFile(sid, path, saw, accept, model, dim, spare) =>
        OpenFileSound(s, path, Target(s, path, spare), sid,
                      Session(path, Target(s, path, spare), saw, accept, model, dim, false, {Daemon}));
      case Lock(sid) => LockSound(s, sid);
      case GiveUp(sid) => ForgetSound(s, sid);
      case Link(path, target) => LinkSound(s, path, target);
    }
  }

  lemma {:induction false} StoreStepSound(s: State, step: Step)
    requires Sound(s) && Enabled(s, step)
    requires step.CutOver? || step.SkipCutOver? || step.Open?
    ensures Keeps(s, Apply(s, step))
  {
    match step {
      case CutOver(sid) => CutOverSound(s, sid);
      case SkipCutOver(sid) => ReadySound(s, sid);
      case Open(sid, conn, holder) => OpenSound(s, sid, conn, holder);
    }
  }

  lemma {:induction false} ConnectionStepSound(s: State, step: Step)
    requires Sound(s) && Enabled(s, step) && (step.WriteRow? || step.Close?)
    ensures Keeps(s, Apply(s, step))
  {
    match step {
      case WriteRow(conn) => WriteRowSound(s, s.connections[conn]);
      case Close(conn) => CloseSound(s, conn);
    }
  }

  lemma {:induction false} EndingStepSound(s: State, step: Step)
    requires Sound(s) && Enabled(s, step) && (step.Drop? || step.Crash?)
    ensures Keeps(s, Apply(s, step))
  {
    match step {
      case Drop(sid, holder) => ReleaseSound(s, sid, s.sessions[sid].refs - {holder});
      case Crash(sid) => CrashSound(s, sid);
    }
  }

  lemma {:induction false} OpenFileSound(s: State, path: Path, inode: Inode, sid: SessionId, session: Session)
    requires Sound(s) && (path in s.files ==> s.files[path] == inode)
    requires session.path == path && session.inode == inode
    ensures Keeps(s, Await(Touch(s, path, inode), sid, session))
  {
    TouchSound(s, path, inode);
    AwaitSound(Touch(s, path, inode), sid, session);
  }

  /** What a connection's soundness looks at. */
  ghost predicate SameFooting(s: State, next: State) {
    next.sessions == s.sessions && next.connections == s.connections && next.locks == s.locks
      && next.sidecar == s.sidecar
  }

  lemma {:induction false} FootingKeeps(s: State, next: State)
    requires SameFooting(s, next) && LocksMatch(s) && ConnectionsSound(s)
    requires forall i :: i in s.databases ==>
               i in next.databases && (InUse(s, i) ==> MarkersOf(next.databases[i]) == MarkersOf(s.databases[i]))
    ensures LocksMatch(next) && ConnectionsSound(next)
  {
    forall c | c in next.connections ensures ConnectionSound(next, next.connections[c]) {
      assert ConnectionSound(s, s.connections[c]);
    }
  }

  lemma {:induction false} AwaitSound(s: State, sid: SessionId, session: Session)
    requires Sound(s) && Named(s, session)
    ensures Sound(Await(s, sid, session))
  {
    FootingKeeps(s, Await(s, sid, session));
    AwaitNames(s, sid, session);
  }

  lemma {:induction false} AwaitNames(s: State, sid: SessionId, session: Session)
    requires NamesResolve(s) && Named(s, session)
    ensures NamesResolve(Await(s, sid, session))
  {
  }

  lemma {:induction false} ForgetSound(s: State, sid: SessionId)
    requires Sound(s)
    ensures Keeps(s, Forget(s, sid))
  {
    FootingKeeps(s, Forget(s, sid));
  }

  lemma {:induction false} LockSound(s: State, sid: SessionId)
    requires Sound(s) && sid in s.pending && sid !in s.sessions
    ensures Keeps(s, Admit(Forget(s, sid), sid, s.pending[sid]))
  {
    assert Named(s, s.pending[sid]);
    ForgetSound(s, sid);
    AdmitSound(Forget(s, sid), sid, s.pending[sid]);
  }

  lemma {:induction false} WriteRowSound(s: State, c: Connection)
    requires Sound(s) && c.inode in s.databases
    ensures Keeps(s, DoWriteRow(s, c))
  {
    FootingKeeps(s, DoWriteRow(s, c));
  }

  lemma {:induction false} CloseSound(s: State, conn: ConnectionId)
    requires Sound(s)
    ensures Keeps(s, s.(connections := s.connections - {conn}))
  {
  }

  lemma {:induction false} CrashSound(s: State, sid: SessionId)
    requires Sound(s) && sid in s.sessions
    ensures Keeps(s, Release(Disconnect(s, sid), sid, {}))
  {
    DisconnectSound(s, sid);
    ReleaseSound(Disconnect(s, sid), sid, {});
  }

  lemma {:induction false} DisconnectSound(s: State, sid: SessionId)
    requires Sound(s)
    ensures Keeps(s, Disconnect(s, sid))
  {
    var cut := Disconnect(s, sid);
    forall c | c in cut.connections ensures ConnectionSound(cut, cut.connections[c]) {
      assert ConnectionSound(s, s.connections[c]);
    }
  }

  lemma {:induction false} LinkSound(s: State, path: Path, target: Inode)
    requires Sound(s) && target in s.databases && NamesStable(s, Link(path, target))
    ensures Keeps(s, s.(files := s.files[path := target]))
  {
    FootingKeeps(s, s.(files := s.files[path := target]));
    LinkNames(s, path, target);
  }

  lemma {:induction false} LinkNames(s: State, path: Path, target: Inode)
    requires NamesResolve(s) && target in s.databases && NamesStable(s, Link(path, target))
    ensures NamesResolve(s.(files := s.files[path := target]))
  {
  }

  lemma {:induction false} TouchSound(s: State, path: Path, inode: Inode)
    requires Sound(s) && (path in s.files ==> s.files[path] == inode)
    ensures Keeps(s, Touch(s, path, inode))
    ensures Touch(s, path, inode).files[path] == inode && Touch(s, path, inode).sessions == s.sessions
  {
    FootingKeeps(s, Touch(s, path, inode));
    TouchNames(s, path, inode);
  }

  lemma {:induction false} TouchNames(s: State, path: Path, inode: Inode)
    requires NamesResolve(s) && (path in s.files ==> s.files[path] == inode)
    ensures NamesResolve(Touch(s, path, inode))
  {
  }

  lemma {:induction false} AdmitSound(s: State, sid: SessionId, session: Session)
    requires Sound(s) && sid !in s.sessions && Named(s, session)
    ensures Sound(Admit(s, sid, session)) && Admit(s, sid, session).databases == s.databases
  {
    AdmitLocks(s, sid, session);
    AdmitNames(s, sid, session);
    AdmitConnections(s, sid, session);
  }

  lemma {:induction false} AdmitLocks(s: State, sid: SessionId, session: Session)
    requires LocksMatch(s) && sid !in s.sessions
    ensures LocksMatch(Admit(s, sid, session))
  {
  }

  lemma {:induction false} AdmitNames(s: State, sid: SessionId, session: Session)
    requires NamesResolve(s) && Named(s, session)
    ensures NamesResolve(Admit(s, sid, session))
  {
  }

  lemma {:induction false} AdmitConnections(s: State, sid: SessionId, session: Session)
    requires ConnectionsSound(s) && sid !in s.sessions
    ensures ConnectionsSound(Admit(s, sid, session))
  {
  }

  lemma {:induction false} ReadySound(s: State, sid: SessionId)
    requires Sound(s) && sid in s.sessions
    ensures Keeps(s, MarkReady(s, sid))
  {
    ReadyNames(s, sid);
    var next := MarkReady(s, sid);
    forall c | c in next.connections ensures ConnectionSound(next, next.connections[c]) {
      assert ConnectionSound(s, s.connections[c]);
    }
  }

  lemma {:induction false} ReadyNames(s: State, sid: SessionId)
    requires sid in s.sessions
    ensures NamesResolve(s) ==> NamesResolve(MarkReady(s, sid))
    ensures LocksMatch(s) ==> LocksMatch(MarkReady(s, sid))
  {
  }

  /** Cutover runs before its own daemon opens any store, and no other holds the file. */
  lemma {:induction false} CutOverSound(s: State, sid: SessionId)
    requires Sound(s) && sid in s.sessions && !s.sessions[sid].ready && s.sessions[sid].path in s.files
    ensures Keeps(s, DoCutOver(s, sid))
  {
    NothingOpenYet(s, sid);
    ReadySound(s, sid);
    CutOverWrites(s, sid);
    FootingKeeps(MarkReady(s, sid), DoCutOver(s, sid));
  }

  /** Before its cutover a session's file has no store open on it at all. */
  lemma {:induction false} NothingOpenYet(s: State, sid: SessionId)
    requires Sound(s) && sid in s.sessions && !s.sessions[sid].ready
    ensures !InUse(s, s.sessions[sid].inode)
  {
    forall c | c in s.connections ensures s.connections[c].inode != s.sessions[sid].inode {
      assert ConnectionSound(s, s.connections[c]);
      assert s.locks[s.sidecar(s.connections[c].inode)] == s.connections[c].sid;
    }
  }

  /** The cutover writes its own file's markers and nothing else. */
  lemma {:induction false} CutOverWrites(s: State, sid: SessionId)
    requires NamesResolve(s) && sid in s.sessions && !InUse(s, s.sessions[sid].inode)
    ensures Named(s, s.sessions[sid])
    ensures var ready, next := MarkReady(s, sid), DoCutOver(s, sid);
            && SameFooting(ready, next) && NamesResolve(next) && MarkersGuarded(s, next) && MarkersGuarded(ready, next)
  {
    var me := s.sessions[sid];
    assert Named(s, me);
    ReadyNames(s, sid);
    var ready := MarkReady(s, sid);
    assert ready.connections == s.connections;
    RewriteUnused(ready, me.inode, AcceptSpaceChange(s.databases[me.inode], me.dim, me.model));
  }

  lemma {:induction false} RewriteUnused(s: State, at: Inode, db: Database)
    requires NamesResolve(s) && at in s.databases && !InUse(s, at)
    ensures var next := s.(databases := s.databases[at := db]); NamesResolve(next) && MarkersGuarded(s, next)
  {
  }

  lemma {:induction false} OpenSound(s: State, sid: SessionId, conn: ConnectionId, holder: Holder)
    requires Sound(s) && Enabled(s, Open(sid, conn, holder))
    ensures Keeps(s, DoOpen(s, sid, conn, holder))
  {
    var me := s.sessions[sid];
    assert Named(s, me) && me.inode in s.databases;
    var (db, ok) := OpenStore(s.databases[me.inode], me.dim, me.model);
    SeedSound(s, me.inode, me.dim, me.model);
    if ok { ConnectSound(s.(databases := s.databases[me.inode := db]), sid, conn, holder); }
  }

  /** Opening beside another connection finds its markers already in place. */
  lemma {:induction false} SeedSound(s: State, at: Inode, dim: nat, model: string)
    requires Sound(s) && at in s.databases
    ensures var written := s.(databases := s.databases[at := OpenStore(s.databases[at], dim, model).0]);
            Keeps(s, written)
  {
  }

  lemma {:induction false} ConnectSound(s: State, sid: SessionId, conn: ConnectionId, holder: Holder)
    requires Sound(s) && sid in s.sessions && conn !in s.connections
    requires var me := s.sessions[sid];
             && me.ready && me.inode in s.databases
             && MarkersOf(s.databases[me.inode]) == (Some(me.dim), Some(me.model))
    ensures Sound(Connect(s, sid, conn, holder, s.sessions[sid].inode))
  {
    var next := Connect(s, sid, conn, holder, s.sessions[sid].inode);
    ConnectNames(s, sid, conn, holder, s.sessions[sid].inode);
    forall c | c in next.connections ensures ConnectionSound(next, next.connections[c]) {
      if c in s.connections { assert ConnectionSound(s, s.connections[c]); }
    }
  }

  lemma {:induction false} ConnectNames(s: State, sid: SessionId, conn: ConnectionId, holder: Holder, at: Inode)
    requires sid in s.sessions
    ensures NamesResolve(s) ==> NamesResolve(Connect(s, sid, conn, holder, at))
    ensures LocksMatch(s) ==> LocksMatch(Connect(s, sid, conn, holder, at))
  {
  }

  lemma {:induction false} ReleaseSound(s: State, sid: SessionId, refs: set<Holder>)
    requires Sound(s) && sid in s.sessions
    requires forall c :: c in s.connections && s.connections[c].sid == sid ==> s.connections[c].holder in refs
    ensures Keeps(s, Release(s, sid, refs))
  {
    ReleaseLocks(s, sid, refs);
    ReleaseNames(s, sid, refs);
    ReleaseConnections(s, sid, refs);
  }

  lemma {:induction false} ReleaseNames(s: State, sid: SessionId, refs: set<Holder>)
    requires NamesResolve(s) && sid in s.sessions
    ensures NamesResolve(Release(s, sid, refs))
  {
  }

  lemma {:induction false} ReleaseConnections(s: State, sid: SessionId, refs: set<Holder>)
    requires ConnectionsSound(s) && sid in s.sessions
    requires forall c :: c in s.connections && s.connections[c].sid == sid ==> s.connections[c].holder in refs
    ensures ConnectionsSound(Release(s, sid, refs))
  {
    var next := Release(s, sid, refs);
    forall c | c in next.connections ensures ConnectionSound(next, next.connections[c]) {
      assert ConnectionSound(s, s.connections[c]);
    }
  }

  lemma {:induction false} ReleaseLocks(s: State, sid: SessionId, refs: set<Holder>)
    requires LocksMatch(s) && sid in s.sessions
    ensures LocksMatch(Release(s, sid, refs))
  {
    var next := Release(s, sid, refs);
    forall other | other in next.sessions
      ensures var name := next.sidecar(next.sessions[other].inode); name in next.locks && next.locks[name] == other
    {
      assert s.sidecar(s.sessions[other].inode) in s.locks;
    }
  }

  /** At most one admission is held per database file, whatever names reached it. */
  lemma {:induction false} OneSessionPerDatabase(s: State, a: SessionId, b: SessionId)
    requires LocksMatch(s) && a in s.sessions && b in s.sessions
    requires s.sessions[a].inode == s.sessions[b].inode
    ensures a == b
  {
  }

  /** Every step of the run respects the markers of databases in use. */
  ghost predicate GuardedAlong(s: State, steps: seq<Step>)
    decreases |steps|
  {
    steps == [] || (MarkersGuarded(s, Apply(s, steps[0])) && GuardedAlong(Apply(s, steps[0]), steps[1..]))
  }

  lemma {:induction false} RunSound(s: State, steps: seq<Step>)
    requires Sound(s) && NamesStableAlong(s, steps)
    ensures Sound(Run(s, steps)) && Run(s, steps).sidecar == s.sidecar
    decreases |steps|
  {
    if steps != [] {
      StepSound(s, steps[0]);
      StepKeepsNaming(s, steps[0]);
      RunSound(Apply(s, steps[0]), steps[1..]);
    }
  }

  lemma {:induction false} StepKeepsNaming(s: State, step: Step)
    ensures Apply(s, step).sidecar == s.sidecar
  {
  }

  /** The locks themselves need no such assumption: over every run, names re-pointed at will, each
      admission holds the lock of the file it opened and no two hold the same. */
  lemma {:induction false} LocksAlwaysMatch(s: State, steps: seq<Step>)
    requires LocksMatch(s)
    ensures LocksMatch(Run(s, steps))
    decreases |steps|
  {
    if steps != [] {
      StepKeepsLocks(s, steps[0]);
      LocksAlwaysMatch(Apply(s, steps[0]), steps[1..]);
    }
  }

  lemma {:induction false} StepKeepsLocks(s: State, step: Step)
    requires LocksMatch(s)
    ensures LocksMatch(Apply(s, step))
  {
    if Enabled(s, step) {
      match step {
        case Lock(sid) => AdmitLocks(Forget(s, sid), sid, s.pending[sid]);
        case CutOver(sid) => ReadyNames(s, sid);
        case SkipCutOver(sid) => ReadyNames(s, sid);
        case Open(sid, conn, holder) => OpenKeepsLocks(s, sid, conn, holder);
        case Drop(sid, holder) => ReleaseLocks(s, sid, s.sessions[sid].refs - {holder});
        case Crash(sid) => ReleaseLocks(Disconnect(s, sid), sid, {});
        case _ =>
      }
    }
  }

  lemma {:induction false} OpenKeepsLocks(s: State, sid: SessionId, conn: ConnectionId, holder: Holder)
    requires LocksMatch(s) && Enabled(s, Open(sid, conn, holder))
    ensures LocksMatch(DoOpen(s, sid, conn, holder))
  {
    var at := s.files[s.sessions[sid].path];
    if at in s.databases {
      var (db, ok) := OpenStore(s.databases[at], s.sessions[sid].dim, s.sessions[sid].model);
      ConnectNames(s.(databases := s.databases[at := db]), sid, conn, holder, at);
    }
  }

  /** Locking succeeds exactly when no admission of the same file is held: aliases never slip past
      the lock, and different files never block each other. */
  lemma {:induction false} LocksExactlyWhenFree(s: State, sid: SessionId)
    requires LocksMatch(s) && s.sidecar == SidecarName && Enabled(s, Lock(sid))
    ensures sid in Apply(s, Lock(sid)).sessions <==>
              forall other :: other in s.sessions ==> s.sessions[other].inode != s.pending[sid].inode
  {
    var inode := s.pending[sid].inode;
    if s.sidecar(inode) in s.locks {
      var other := s.locks[s.sidecar(inode)];
      SidecarNameInjective(s.sessions[other].inode, inode);
    }
  }

  // --------------------------------------------------- names re-pointed meanwhile

  /** Every open store agrees with its database's markers. */
  ghost predicate StoresAgree(s: State) {
    forall c :: c in s.connections ==> Agrees(s, s.connections[c])
  }

  /** Stores and cutovers reach their database by name, not through the admitted file. A cutover is
      harmless when every store open on the file its name means at that moment uses the very space
      being accepted. */
  ghost predicate Harmless(s: State, step: Step) {
    step.CutOver? && Enabled(s, step) && s.sessions[step.sid].dim > 0 ==>
      var me := s.sessions[step.sid];
      forall c :: c in s.connections && s.connections[c].inode == s.files[me.path] ==>
        s.connections[c].dim == me.dim && s.connections[c].model == me.model
  }

  /** Whatever names were re-pointed before: a step keeps every store in agreement exactly when it is
      not a harmful cutover. */
  lemma {:induction false} AgreementExactlyWhen(s: State, step: Step)
    requires StoresAgree(s)
    ensures StoresAgree(Apply(s, step)) <==> Harmless(s, step)
  {
    if Enabled(s, step) {
      if step.CutOver? {
        CutOverAgrees(s, step.sid);
      } else if step.Open? {
        OpenAgrees(s, step.sid, step.conn, step.holder);
      } else {
        OthersAgree(s, step);
      }
    }
  }

  lemma {:induction false} CutOverAgrees(s: State, sid: SessionId)
    requires StoresAgree(s) && Enabled(s, CutOver(sid))
    ensures StoresAgree(DoCutOver(s, sid)) <==> Harmless(s, CutOver(sid))
  {
    var next := DoCutOver(s, sid);
    if StoresAgree(next) {
      forall c | c in s.connections && s.connections[c].inode == s.files[s.sessions[sid].path]
        && s.sessions[sid].dim > 0
        ensures s.connections[c].dim == s.sessions[sid].dim && s.connections[c].model == s.sessions[sid].model
      {
        assert Agrees(next, next.connections[c]) && Agrees(s, s.connections[c]);
      }
    } else {
      var c :| c in next.connections && !Agrees(next, next.connections[c]);
      assert Agrees(s, s.connections[c]);
    }
  }

  lemma {:induction false} OpenAgrees(s: State, sid: SessionId, conn: ConnectionId, holder: Holder)
    requires StoresAgree(s) && Enabled(s, Open(sid, conn, holder))
    ensures StoresAgree(DoOpen(s, sid, conn, holder))
  {
    var next := DoOpen(s, sid, conn, holder);
    forall c | c in next.connections ensures Agrees(next, next.connections[c]) {
      if c != conn { assert Agrees(s, s.connections[c]); }
    }
  }

  lemma {:induction false} OthersAgree(s: State, step: Step)
    requires StoresAgree(s) && Enabled(s, step) && !step.CutOver? && !step.Open?
    ensures StoresAgree(Apply(s, step))
  {
    var next := Apply(s, step);
    forall c | c in next.connections ensures Agrees(next, next.connections[c]) {
      assert Agrees(s, s.connections[c]);
    }
  }

  ghost predicate AgreeAlong(s: State, steps: seq<Step>)
    decreases |steps|
  {
    StoresAgree(s) && (steps != [] ==> AgreeAlong(Apply(s, steps[0]), steps[1..]))
  }

  ghost predicate HarmlessAlong(s: State, steps: seq<Step>)
    decreases |steps|
  {
    steps == [] || (Harmless(s, steps[0]) && HarmlessAlong(Apply(s, steps[0]), steps[1..]))
  }

  /** Over every run, names re-pointed at will: all stores agree at every moment exactly when every
      cutover of the run is harmless when it comes. */
  lemma {:induction false} AgreeAlongExactlyWhen(s: State, steps: seq<Step>)
    requires StoresAgree(s)
    ensures AgreeAlong(s, steps) <==> HarmlessAlong(s, steps)
    decreases |steps|
  {
    if steps != [] {
      AgreementExactlyWhen(s, steps[0]);
      if Harmless(s, steps[0]) { AgreeAlongExactlyWhen(Apply(s, steps[0]), steps[1..]); }
    }
  }

  /** In such a state a step leaves the markers of all databases in use alone exactly then, too. */
  lemma {:induction false} GuardedExactlyWhen(s: State, step: Step)
    requires StoresAgree(s)
    ensures MarkersGuarded(s, Apply(s, step)) <==> Harmless(s, step)
  {
    if Enabled(s, step) {
      if step.CutOver? {
        CutOverGuarded(s, step.sid);
      } else if step.Open? {
        OpenGuarded(s, step.sid, step.conn, step.holder);
      }
    }
  }

  lemma {:induction false} CutOverGuarded(s: State, sid: SessionId)
    requires StoresAgree(s) && Enabled(s, CutOver(sid))
    ensures MarkersGuarded(s, DoCutOver(s, sid)) <==> Harmless(s, CutOver(sid))
  {
    var at := s.files[s.sessions[sid].path];
    if InUse(s, at) {
      forall c | c in s.connections && s.connections[c].inode == at
        ensures MarkersOf(s.databases[at]) == (Some(s.connections[c].dim), Some(s.connections[c].model))
      {
        assert Agrees(s, s.connections[c]);
      }
    }
  }

  lemma {:induction false} OpenGuarded(s: State, sid: SessionId, conn: ConnectionId, holder: Holder)
    requires StoresAgree(s) && Enabled(s, Open(sid, conn, holder))
    ensures MarkersGuarded(s, DoOpen(s, sid, conn, holder))
  {
    forall i | InUse(s, i) ensures i in s.databases && s.databases[i].dim.Some? && s.databases[i].model.Some? {
      var c :| c in s.connections && s.connections[c].inode == i;
      assert Agrees(s, s.connections[c]);
    }
  }

  lemma {:induction false} GuardedAlongExactlyWhen(s: State, steps: seq<Step>)
    requires StoresAgree(s)
    ensures GuardedAlong(s, steps) <==> HarmlessAlong(s, steps)
    decreases |steps|
  {
    if steps != [] {
      GuardedExactlyWhen(s, steps[0]);
      AgreementExactlyWhen(s, steps[0]);
      if Harmless(s, steps[0]) { GuardedAlongExactlyWhen(Apply(s, steps[0]), steps[1..]); }
    }
  }

  /** While the names of live admissions mean the files they opened, no cutover is harmful. */
  lemma {:induction false} SoundIsHarmless(s: State, step: Step)
    requires Sound(s)
    ensures Harmless(s, step)
  {
    if step.CutOver? && Enabled(s, step) {
      NothingOpenYet(s, step.sid);
      assert Named(s, s.sessions[step.sid]);
    }
  }

  lemma {:induction false} StableIsHarmless(s: State, steps: seq<Step>)
    requires Sound(s) && NamesStableAlong(s, steps)
    ensures HarmlessAlong(s, steps)
    decreases |steps|
  {
    if steps != [] {
      SoundIsHarmless(s, steps[0]);
      StepSound(s, steps[0]);
      StableIsHarmless(Apply(s, steps[0]), steps[1..]);
    }
  }

  /** Over every interleaving from any databases left behind, names re-pointed at will: two admissions
      of one file are one. All open stores agree with their database's markers throughout, and markers
      move only while no store is open on their database, exactly when every cutover is harmless when
      it comes; which is so if no name of a live or pending admission is re-pointed meanwhile, and then
      every store is open on the very file its admission holds. */
  lemma {:induction false} AlwaysSound(s: State, steps: seq<Step>)
    requires Idle(s)
    ensures OneEach(Run(s, steps))
    ensures AgreeAlong(s, steps) <==> HarmlessAlong(s, steps)
    ensures GuardedAlong(s, steps) <==> HarmlessAlong(s, steps)
    ensures NamesStableAlong(s, steps) ==> HarmlessAlong(s, steps) && Sound(Run(s, steps))
  {
    LocksAlwaysMatch(s, steps);
    var end := Run(s, steps);
    forall a, b | a in end.sessions && b in end.sessions && end.sessions[a].inode == end.sessions[b].inode
      ensures a == b
    {
      OneSessionPerDatabase(end, a, b);
    }
    AgreeAlongExactlyWhen(s, steps);
    GuardedAlongExactlyWhen(s, steps);
    if NamesStableAlong(s, steps) {
      StableIsHarmless(s, steps);
      RunSound(s, steps);
    }
  }

  ghost predicate OneEach(s: State) {
    forall a, b :: a in s.sessions && b in s.sessions && s.sessions[a].inode == s.sessions[b].inode ==> a == b
  }

  /** The name of an admission re-pointed before its own cutover. */
  lemma {:induction false} RepointedCutOver(s: State, sid: SessionId, target: Inode)
    requires Sound(s) && sid in s.sessions && target in s.databases
    requires var me := s.sessions[sid]; !me.ready && me.accept && me.existed && me.dim > 0
    ensures var me := s.sessions[sid];
            StoresAgree(Apply(Apply(s, Link(me.path, target)), CutOver(sid))) <==>
            forall c :: c in s.connections && s.connections[c].inode == target ==>
              s.connections[c].dim == me.dim && s.connections[c].model == me.model
  {
    var next := Apply(s, Link(s.sessions[sid].path, target));
    AgreementExactlyWhen(s, Link(s.sessions[sid].path, target));
    AgreementExactlyWhen(next, CutOver(sid));
  }

  /** The name of a serving admission re-pointed before it opens a store: the store opens on a file it
      has no lock on, so another process can be admitted there and cut over. All stores still agree
      exactly when the store was refused or both use the same space. */
  lemma {:induction false} RepointedOpen(s: State, a: SessionId, b: SessionId, conn: ConnectionId, target: Inode)
    requires Sound(s) && a in s.sessions && target in s.databases && target != s.sessions[a].inode
    requires forall sid :: sid in s.sessions ==> s.sessions[sid].inode != target
    requires b in s.pending && b !in s.sessions && s.pending[b].inode == target
             && s.pending[b].path != s.sessions[a].path
    requires var me := s.pending[b]; !me.ready && me.accept && me.existed && me.dim > 0
    requires s.sidecar == SidecarName && Enabled(s, Open(a, conn, Writer))
    ensures var me, other := s.sessions[a], s.pending[b];
            StoresAgree(Run(s, [Link(me.path, target), Open(a, conn, Writer), Lock(b), CutOver(b)])) <==>
            (OpenStore(s.databases[target], me.dim, me.model).1 ==> (me.dim, me.model) == (other.dim, other.model))
  {
    var s1 := Apply(s, Link(s.sessions[a].path, target));
    var s2 := Apply(s1, Open(a, conn, Writer));
    var s3 := Apply(s2, Lock(b));
    FourSteps(s, Link(s.sessions[a].path, target), Open(a, conn, Writer), Lock(b), CutOver(b));
    AgreementExactlyWhen(s, Link(s.sessions[a].path, target));
    AgreementExactlyWhen(s1, Open(a, conn, Writer));
    AgreementExactlyWhen(s2, Lock(b));
    OpensUnlocked(s, a, b, conn, target);
    OnlyStoreDecides(s3, b, target, Connection(a, Writer, target, s.sessions[a].model, s.sessions[a].dim));
  }

  /** A cutover of a file on which at most one store is open. */
  lemma {:induction false} OnlyStoreDecides(s: State, b: SessionId, target: Inode, store: Connection)
    requires StoresAgree(s) && Enabled(s, CutOver(b)) && s.files[s.sessions[b].path] == target && s.sessions[b].dim > 0
    requires OnlyStore(s, target, store)
    ensures StoresAgree(Apply(s, CutOver(b))) <==>
            (InUse(s, target) ==> (store.dim, store.model) == (s.sessions[b].dim, s.sessions[b].model))
  {
    AgreementExactlyWhen(s, CutOver(b));
    if InUse(s, target) {
      var c :| c in s.connections && s.connections[c].inode == target;
      assert s.connections[c] == store;
    }
  }

  lemma {:induction false} FourSteps(s: State, p: Step, q: Step, r: Step, t: Step)
    ensures Run(s, [p, q, r, t]) == Apply(Apply(Apply(Apply(s, p), q), r), t)
  {
    var all := [p, q, r, t];
    assert all[1..] == [q, r, t] && [q, r, t][1..] == [r, t] && [r, t][1..] == [t] && [t][1..] == [];
    assert Run(Apply(s, p), [q, r, t]) == Run(Apply(Apply(s, p), q), [r, t]);
    assert Run(Apply(Apply(s, p), q), [r, t]) == Run(Apply(Apply(Apply(s, p), q), r), [t]);
  }

  /** After the re-pointed open, what is open on the target is at most that one store. */
  lemma {:induction false} OpensUnlocked(s: State, a: SessionId, b: SessionId, conn: ConnectionId, target: Inode)
    requires Sound(s) && a in s.sessions && target in s.databases && target != s.sessions[a].inode
    requires forall sid :: sid in s.sessions ==> s.sessions[sid].inode != target
    requires b in s.pending && b !in s.sessions && s.pending[b].inode == target
             && s.pending[b].path != s.sessions[a].path
    requires s.sidecar == SidecarName && Enabled(s, Open(a, conn, Writer))
    ensures var me := s.sessions[a];
            var s3 := Apply(Apply(Apply(s, Link(me.path, target)), Open(a, conn, Writer)), Lock(b));
            && b in s3.sessions && s3.sessions[b] == s.pending[b] && Named(s3, s.pending[b])
            && OnlyStore(s3, target, Connection(a, Writer, target, me.model, me.dim))
            && (InUse(s3, target) <==> OpenStore(s.databases[target], me.dim, me.model).1)
  {
    assert Named(s, s.pending[b]);
    RepointedStore(s, a, conn, target);
    LocksUnheld(s, Apply(Apply(s, Link(s.sessions[a].path, target)), Open(a, conn, Writer)), b);
  }

  lemma {:induction false} RepointedStore(s: State, a: SessionId, conn: ConnectionId, target: Inode)
    requires Sound(s) && a in s.sessions && target in s.databases && Enabled(s, Open(a, conn, Writer))
    requires forall sid :: sid in s.sessions ==> s.sessions[sid].inode != target
    ensures var me := s.sessions[a];
            var next := Apply(Apply(s, Link(me.path, target)), Open(a, conn, Writer));
            && next.sidecar == s.sidecar && next.locks == s.locks && next.pending == s.pending
            && next.files == s.files[me.path := target] && next.sessions.Keys == s.sessions.Keys
            && OnlyStore(next, target, Connection(a, Writer, target, me.model, me.dim))
            && (InUse(next, target) <==> OpenStore(s.databases[target], me.dim, me.model).1)
  {
    var linked := Apply(s, Link(s.sessions[a].path, target));
    Unused(s, target);
    assert linked.connections == s.connections;
    StoreOpens(linked, a, conn, target);
  }

  lemma {:induction false} Unused(s: State, target: Inode)
    requires Sound(s) && forall sid :: sid in s.sessions ==> s.sessions[sid].inode != target
    ensures !InUse(s, target)
  {
    forall c | c in s.connections ensures s.connections[c].inode != target {
      assert ConnectionSound(s, s.connections[c]);
    }
  }

  ghost predicate OnlyStore(s: State, target: Inode, store: Connection) {
    forall c :: c in s.connections && s.connections[c].inode == target ==> s.connections[c] == store
  }

  lemma {:induction false} StoreOpens(s: State, a: SessionId, conn: ConnectionId, target: Inode)
    requires a in s.sessions && target in s.databases && Enabled(s, Open(a, conn, Writer))
    requires s.files[s.sessions[a].path] == target && !InUse(s, target)
    ensures var me, next := s.sessions[a], Apply(s, Open(a, conn, Writer));
            && OnlyStore(next, target, Connection(a, Writer, target, me.model, me.dim))
            && (InUse(next, target) <==> OpenStore(s.databases[target], me.dim, me.model).1)
  {
    var me, next := s.sessions[a], Apply(s, Open(a, conn, Writer));
    forall c | c in s.connections ensures s.connections[c].inode != target {
      assert !InUse(s, target);
    }
    if OpenStore(s.databases[target], me.dim, me.model).1 { assert next.connections[conn].inode == target; }
  }

  /** Nobody holds the file's lock, so locking succeeds and changes nothing else. */
  lemma {:induction false} LocksUnheld(before: State, s: State, b: SessionId)
    requires LocksMatch(before) && before.sidecar == SidecarName && b in before.pending
    requires forall sid :: sid in before.sessions ==> before.sessions[sid].inode != before.pending[b].inode
    requires s.sidecar == before.sidecar && s.locks == before.locks && s.pending == before.pending && b !in s.sessions
    ensures var next := Apply(s, Lock(b));
            && b in next.sessions && next.sessions[b] == s.pending[b]
            && next.files == s.files && next.connections == s.connections
  {
    var inode := before.pending[b].inode;
    if s.sidecar(inode) in s.locks {
      SidecarNameInjective(before.sessions[before.locks[before.sidecar(inode)]].inode, inode);
    }
  }

  // --------------------------------------------------- the two failing runs from rest

  function Opened(path: Path, inode: Inode, accept: bool, model: string, dim: nat): Session {
    Session(path, inode, true, accept, model, dim, false, {Daemon})
  }

  ghost predicate Free(s: State, sid: SessionId, path: Path, spare: Inode) {
    && sid !in s.sessions && sid !in s.pending && spare !in s.databases && path in s.files
    && (forall other :: other in s.sessions ==> s.sessions[other].inode != s.files[path])
  }

  lemma {:induction false} OpensFile(s: State, sid: SessionId, path: Path, accept: bool, model: string, dim: nat,
                                     spare: Inode)
    requires Sound(s) && Free(s, sid, path, spare)
    ensures var next := Apply(s, OpenFile(sid, path, true, accept, model, dim, spare));
            Sound(next) && next == Await(s, sid, Opened(path, s.files[path], accept, model, dim))
  {
    assert s.files[path := s.files[path]] == s.files;
    StepSound(s, OpenFile(sid, path, true, accept, model, dim, spare));
  }

  /** Only admissions changed. */
  ghost predicate Left(s: State, next: State, sessions: map<SessionId, Session>) {
    && Sound(next) && next.sidecar == SidecarName && next.pending == s.pending && next.sessions == sessions
    && next.files == s.files && next.databases == s.databases && next.connections == s.connections
  }

  lemma {:induction false} LockTakes(s: State, sid: SessionId, session: Session)
    requires LocksMatch(s) && s.sidecar == SidecarName && sid !in s.sessions && sid !in s.pending
    requires forall other :: other in s.sessions ==> s.sessions[other].inode != session.inode
    ensures Apply(Await(s, sid, session), Lock(sid)) == Admit(s, sid, session)
    ensures Admit(s, sid, session).sessions == s.sessions[sid := session]
  {
    assert s.pending[sid := session] - {sid} == s.pending;
    if s.sidecar(session.inode) in s.locks {
      SidecarNameInjective(s.sessions[s.locks[s.sidecar(session.inode)]].inode, session.inode);
    }
  }

  /** Opening and locking a free file. */
  lemma {:induction false} Admits(s: State, sid: SessionId, path: Path, accept: bool, model: string, dim: nat,
                                  spare: Inode)
    requires Sound(s) && s.sidecar == SidecarName && Free(s, sid, path, spare)
    ensures var next := Apply(Apply(s, OpenFile(sid, path, true, accept, model, dim, spare)), Lock(sid));
            Left(s, next, s.sessions[sid := Opened(path, s.files[path], accept, model, dim)])
  {
    var session := Opened(path, s.files[path], accept, model, dim);
    OpensFile(s, sid, path, accept, model, dim, spare);
    LockTakes(s, sid, session);
    AdmitSound(s, sid, session);
  }

  /** A daemon that keeps its space, about to open stores. */
  lemma {:induction false} Serves(s: State, sid: SessionId, path: Path, model: string, dim: nat, spare: Inode)
    requires Sound(s) && s.sidecar == SidecarName && Free(s, sid, path, spare)
    ensures var next := Apply(Apply(Apply(s, OpenFile(sid, path, true, false, model, dim, spare)), Lock(sid)),
                              SkipCutOver(sid));
            Left(s, next, s.sessions[sid := Opened(path, s.files[path], false, model, dim).(ready := true)])
  {
    Admits(s, sid, path, false, model, dim, spare);
    GetsReady(s, Apply(Apply(s, OpenFile(sid, path, true, false, model, dim, spare)), Lock(sid)), sid,
              Opened(path, s.files[path], false, model, dim));
  }

  lemma {:induction false} GetsReady(s: State, admitted: State, sid: SessionId, session: Session)
    requires Left(s, admitted, s.sessions[sid := session]) && !session.ready && !session.accept
    ensures Left(s, Apply(admitted, SkipCutOver(sid)), s.sessions[sid := session.(ready := true)])
  {
    SkipMarksReady(admitted, sid);
    ReadySound(admitted, sid);
    Overwritten(s.sessions, sid, session, session.(ready := true));
  }

  lemma {:induction false} SkipMarksReady(s: State, sid: SessionId)
    requires sid in s.sessions && !s.sessions[sid].ready && !s.sessions[sid].accept
    ensures Apply(s, SkipCutOver(sid)) == MarkReady(s, sid)
  {
  }

  lemma {:induction false} Overwritten(m: map<SessionId, Session>, sid: SessionId, x: Session, y: Session)
    ensures m[sid := x][sid := y] == m[sid := y]
  {
  }

  lemma {:induction false} RunsOn(s: State, x: seq<Step>, y: seq<Step>)
    ensures Run(s, x + y) == Run(Run(s, x), y)
    decreases |x|
  {
    if x == [] {
      assert x + y == y;
    } else {
      assert (x + y)[0] == x[0] && (x + y)[1..] == x[1..] + y;
      RunsOn(Apply(s, x[0]), x[1..], y);
    }
  }

  /** The steps of the first run: a daemon serves `to`, another is admitted to `from`, whose name is
      then re-pointed to the first one's file before the cutover. */
  function CutOverElsewhere(a: SessionId, b: SessionId, from: Path, to: Path, target: Inode, conn: ConnectionId,
                            mine: (string, nat), theirs: (string, nat), spare: Inode): seq<Step>
  {
    [OpenFile(a, to, true, false, mine.0, mine.1, spare), Lock(a), SkipCutOver(a), Open(a, conn, Writer)]
    + [OpenFile(b, from, true, true, theirs.0, theirs.1, spare), Lock(b), Link(from, target), CutOver(b)]
  }

  /** From any two databases at rest, one of which opens under a model: eight steps leave a store
      in disagreement with its database. */
  lemma {:induction false} CutOverElsewhereArises(s: State, a: SessionId, b: SessionId, from: Path, to: Path,
                                                  conn: ConnectionId, mine: (string, nat), theirs: (string, nat),
                                                  spare: Inode)
    requires Idle(s) && a != b && from in s.files && to in s.files && s.files[from] != s.files[to]
    requires spare !in s.databases && theirs.1 > 0 && mine != theirs
    requires OpenStore(s.databases[s.files[to]], mine.1, mine.0).1
    ensures !StoresAgree(Run(s, CutOverElsewhere(a, b, from, to, s.files[to], conn, mine, theirs, spare)))
  {
    var target := s.files[to];
    var open, cut := OpenFile(a, to, true, false, mine.0, mine.1, spare),
      OpenFile(b, from, true, true, theirs.0, theirs.1, spare);
    FourSteps(s, open, Lock(a), SkipCutOver(a), Open(a, conn, Writer));
    var serving := Run(s, [open, Lock(a), SkipCutOver(a), Open(a, conn, Writer)]);
    ServesStore(s, a, to, conn, mine, spare);
    Admits(serving, b, from, true, theirs.0, theirs.1, spare);
    var admitted := Apply(Apply(serving, cut), Lock(b));
    RunsOn(s, [open, Lock(a), SkipCutOver(a), Open(a, conn, Writer)], [cut, Lock(b), Link(from, target), CutOver(b)]);
    FourSteps(serving, cut, Lock(b), Link(from, target), CutOver(b));
    RepointedCutOver(admitted, b, target);
    assert admitted.connections[conn].inode == target;
  }

  lemma {:induction false} ServesStore(s: State, a: SessionId, to: Path, conn: ConnectionId, mine: (string, nat),
                                       spare: Inode)
    requires Idle(s) && to in s.files && spare !in s.databases && OpenStore(s.databases[s.files[to]], mine.1, mine.0).1
    ensures var next := Apply(Apply(Apply(Apply(s, OpenFile(a, to, true, false, mine.0, mine.1, spare)), Lock(a)),
                                    SkipCutOver(a)), Open(a, conn, Writer));
            OneServes(s, next, a, s.files[to], conn, mine)
  {
    Serves(s, a, to, mine.0, mine.1, spare);
    OpensStore(s, Apply(Apply(Apply(s, OpenFile(a, to, true, false, mine.0, mine.1, spare)), Lock(a)), SkipCutOver(a)),
               a, to, conn, mine);
  }

  /** A single daemon with a single store. */
  ghost predicate OneServes(s: State, next: State, a: SessionId, at: Inode, conn: ConnectionId, mine: (string, nat)) {
    && Sound(next) && next.sidecar == SidecarName && next.pending == map[] && next.files == s.files
    && next.databases.Keys == s.databases.Keys && next.sessions.Keys == {a} && next.sessions[a].inode == at
    && next.connections == map[conn := Connection(a, Writer, at, mine.0, mine.1)]
  }

  lemma {:induction false} OpensStore(s: State, ready: State, a: SessionId, to: Path, conn: ConnectionId,
                                      mine: (string, nat))
    requires Idle(s) && to in s.files && OpenStore(s.databases[s.files[to]], mine.1, mine.0).1
    requires Left(s, ready, map[a := Opened(to, s.files[to], false, mine.0, mine.1).(ready := true)])
    ensures OneServes(s, Apply(ready, Open(a, conn, Writer)), a, s.files[to], conn, mine)
  {
    OpenSound(ready, a, conn, Writer);
  }

  /** The steps of the second run: a daemon is admitted to `from` and another waits for `to`; then the
      name `from` is re-pointed to the second one's file before the first opens its store. */
  function OpenElsewhere(a: SessionId, b: SessionId, from: Path, to: Path, target: Inode, conn: ConnectionId,
                         mine: (string, nat), theirs: (string, nat), spare: Inode): seq<Step>
  {
    [OpenFile(a, from, true, false, mine.0, mine.1, spare), Lock(a), SkipCutOver(a),
     OpenFile(b, to, true, true, theirs.0, theirs.1, spare)]
    + [Link(from, target), Open(a, conn, Writer), Lock(b), CutOver(b)]
  }

  lemma {:induction false} OpenElsewhereArises(s: State, a: SessionId, b: SessionId, from: Path, to: Path,
                                               conn: ConnectionId, mine: (string, nat), theirs: (string, nat),
                                               spare: Inode)
    requires Idle(s) && a != b && from in s.files && to in s.files && s.files[from] != s.files[to]
    requires spare !in s.databases && theirs.1 > 0 && mine != theirs
    requires OpenStore(s.databases[s.files[to]], mine.1, mine.0).1
    ensures !StoresAgree(Run(s, OpenElsewhere(a, b, from, to, s.files[to], conn, mine, theirs, spare)))
  {
    var target := s.files[to];
    var open, wait := OpenFile(a, from, true, false, mine.0, mine.1, spare),
      OpenFile(b, to, true, true, theirs.0, theirs.1, spare);
    Serves(s, a, from, mine.0, mine.1, spare);
    var serving := Apply(Apply(Apply(s, open), Lock(a)), SkipCutOver(a));
    OpensFile(serving, b, to, true, theirs.0, theirs.1, spare);
    var waiting := Apply(serving, wait);
    FourSteps(s, open, Lock(a), SkipCutOver(a), wait);
    RunsOn(s, [open, Lock(a), SkipCutOver(a), wait], [Link(from, target), Open(a, conn, Writer), Lock(b), CutOver(b)]);
    RepointedOpen(waiting, a, b, conn, target);
  }
}
