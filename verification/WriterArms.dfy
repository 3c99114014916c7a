/**
 The single writer's arms as they are coded: which oplog rows each command commits and
 which events it then broadcasts, under which stamp
 (crates/rb-daemon/src/store_handle.rs:1624-2400 and the store calls behind it).
 */
module WriterArms {
  import opened Common
  import opened Oplog

  /** A write command together with what its store call found. `RetentionSweep` is the archiving sweep;
      a hard forget also deletes the forgotten memory's earlier rows and is not modelled. */
  datatype Command =
    | Insert(ns: Namespace, id: MemoryId, links: nat)
    | InsertSuperseding(ns: Namespace, id: MemoryId, links: nat, prior: MemoryId, retired: bool)
    | Update(ns: Namespace, id: MemoryId, changed: bool)
    | Archive(ns: Namespace, id: MemoryId, changed: bool)
    | ArchiveUnattended(ns: Namespace, id: MemoryId, changed: bool)
    | ChangeLink(ns: Namespace, id: MemoryId)
    | Feedback(ns: Namespace, id: MemoryId)
    | SetValue(ns: Namespace, id: MemoryId, changed: bool)
    | Supersede(ns: Namespace, prior: MemoryId)
    | ReviewMerge(ns: Namespace, merged: MemoryId, a: MemoryId, b: MemoryId)
    | RetentionSweep(ns: Namespace, ids: seq<MemoryId>)
    | Administrative(ns: Namespace)
    | Silent

  function RowsOf(ns: Namespace, ids: seq<MemoryId>, kind: ChangeKind): seq<Row> {
    seq(|ids|, i requires 0 <= i < |ids| => Row(ns, Some(ids[i]), kind))
  }

  function LinkRows(ns: Namespace, id: MemoryId, links: nat): seq<Row> {
    seq(links, _ => Row(ns, Some(id), Updated))
  }

  /** The rows a command commits. Copied merge edges and re-embeds log nothing. */
  function Rows(c: Command): seq<Row> {
    match c
    case Insert(ns, id, links) => [Row(ns, Some(id), Created)] + LinkRows(ns, id, links)
    case InsertSuperseding(ns, id, links, prior, retired) =>
      [Row(ns, Some(id), Created)] + LinkRows(ns, id, links)
      + if retired then [Row(ns, Some(prior), Archived)] else []
    case Update(ns, id, changed) => if changed then [Row(ns, Some(id), Updated)] else []
    case Archive(ns, id, changed) => if changed then [Row(ns, Some(id), Archived)] else []
    case ArchiveUnattended(ns, id, changed) => if changed then [Row(ns, Some(id), Archived)] else []
    case ChangeLink(ns, id) => [Row(ns, Some(id), Updated)]
    case Feedback(ns, id) => [Row(ns, Some(id), Updated)]
    case SetValue(ns, id, changed) => if changed then [Row(ns, Some(id), Updated)] else []
    case Supersede(ns, prior) => [Row(ns, Some(prior), Archived)]
    case ReviewMerge(ns, merged, a, b) =>
      [Row(ns, Some(merged), Created), Row(ns, Some(a), Archived), Row(ns, Some(b), Archived),
       Row(ns, None, Updated)]
    case RetentionSweep(ns, ids) => RowsOf(ns, ids, Archived) + [Row(ns, None, Updated)]
    case Administrative(ns) => [Row(ns, None, Updated)]
    case Silent => []
  }

  /** The events a command broadcasts after committing on top of `base` rows.
      `Max` is the highest sequence in the log then, which several arms stamp with. */
  function Events(c: Command, base: nat): seq<Event> {
    var max := base + |Rows(c)|;
    match c
    case Insert(ns, id, _) => [Event(ns, id, Created, Some(max))]
    case InsertSuperseding(ns, id, links, prior, retired) =>
      [Event(ns, id, Created, Some(base + 1 + links))]
      + if retired then [Event(ns, prior, Archived, Some(max))] else []
    case Update(ns, id, _) => [Event(ns, id, Updated, Some(max))]
    case Archive(ns, id, _) => [Event(ns, id, Archived, Some(max))]
    case ArchiveUnattended(ns, id, changed) =>
      if changed then [Event(ns, id, Archived, Some(max))] else []
    case ChangeLink(_, _) => []
    case Feedback(ns, id) => [Event(ns, id, Updated, Some(max))]
    case SetValue(ns, id, changed) => if changed then [Event(ns, id, Updated, Some(max))] else []
    case Supersede(ns, prior) => [Event(ns, prior, Archived, Some(max))]
    case ReviewMerge(ns, merged, a, b) =>
      [Event(ns, merged, Created, Some(max)), Event(ns, a, Archived, Some(max)),
       Event(ns, b, Archived, Some(max))]
    case RetentionSweep(ns, ids) =>
      seq(|ids|, i requires 0 <= i < |ids| => Event(ns, ids[i], Archived, Some(base + 1 + i)))
    case Administrative(_) => []
    case Silent => []
  }

  /** The memories a command brings in, retires, or changes otherwise. */
  ghost function Effects(c: Command): set<(MemoryId, ChangeKind)> {
    match c
    case Insert(_, id, links) => {(id, Created)} + if links > 0 then {(id, Updated)} else {}
    case InsertSuperseding(_, id, links, prior, retired) =>
      {(id, Created)} + (if links > 0 then {(id, Updated)} else {}) + (if retired then {(prior, Archived)} else {})
    case Update(_, id, changed) => if changed then {(id, Updated)} else {}
    case Archive(_, id, changed) => if changed then {(id, Archived)} else {}
    case ArchiveUnattended(_, id, changed) => if changed then {(id, Archived)} else {}
    case ChangeLink(_, id) => {(id, Updated)}
    case Feedback(_, id) => {(id, Updated)}
    case SetValue(_, id, changed) => if changed then {(id, Updated)} else {}
    case Supersede(_, prior) => {(prior, Archived)}
    case ReviewMerge(_, merged, a, b) => {(merged, Created), (a, Archived), (b, Archived)}
    case RetentionSweep(_, ids) => set i | 0 <= i < |ids| :: (ids[i], ChangeKind.Archived)
    case Administrative(_) => {}
    case Silent => {}
  }

  /** What its log rows tell. */
  ghost function Told(rows: seq<Row>): set<(MemoryId, ChangeKind)> {
    set i | 0 <= i < |rows| && rows[i].id.Some? :: (rows[i].id.value, rows[i].kind)
  }

  /** What its events tell. */
  ghost function Heralded(events: seq<Event>): set<(MemoryId, ChangeKind)> {
    set i | 0 <= i < |events| :: (events[i].id, events[i].kind)
  }

  /** A command's rows tell exactly what it did, all in its own namespace. */
  lemma {:induction false} RowsTellEffects(c: Command)
    ensures Told(Rows(c)) == Effects(c)
    ensures forall row :: row in Rows(c) ==> !c.Silent? && row.ns == c.ns
  {
    var rows := Rows(c);
    match c {
      case Insert(ns, id, links) =>
        assert forall i :: 0 <= i < |rows| ==> rows[i] == Row(ns, Some(id), if i == 0 then Created else Updated);
        if links > 0 { assert rows[1].id.Some?; }
        assert rows[0].id.Some?;
      case InsertSuperseding(ns, id, links, prior, retired) => SupersedingTells(c);
      case ReviewMerge(ns, merged, a, b) =>
        assert rows[0].id.Some? && rows[1].id.Some? && rows[2].id.Some? && rows[3].id.None?;
      case RetentionSweep(ns, ids) =>
        assert forall i :: 0 <= i < |ids| ==> rows[i] == Row(ns, Some(ids[i]), ChangeKind.Archived);
      case Administrative(_) =>
      case Silent =>
      case _ => if rows != [] { assert rows[0].id.Some?; }
    }
  }

  lemma {:induction false} SupersedingTells(c: Command)
    requires c.InsertSuperseding?
    ensures Told(Rows(c)) == Effects(c)
    ensures forall row :: row in Rows(c) ==> row.ns == c.ns
  {
    var rows := Rows(c);
    assert forall i :: 0 <= i < 1 + c.links ==> rows[i] == Row(c.ns, Some(c.id), if i == 0 then Created else Updated);
    assert rows[0].id.Some?;
    if c.links > 0 { assert rows[1].id.Some?; }
    if c.retired { assert rows[1 + c.links] == Row(c.ns, Some(c.prior), ChangeKind.Archived); }
  }

  /** So do its events, whatever numbers they are stamped with, except that link changes are never announced
      and that an edit or archival that changed nothing is announced all the same. */
  lemma {:induction false} EventsTellEffects(c: Command, base: nat)
    ensures var told := Heralded(Events(c, base));
            if c.Update? then told == {(c.id, Updated)}
            else if c.Archive? then told == {(c.id, ChangeKind.Archived)}
            else if c.ChangeLink? then told == {}
            else if c.Insert? || c.InsertSuperseding? then told == Effects(c) - {(c.id, Updated)}
            else told == Effects(c)
    ensures forall e :: e in Events(c, base) ==> !c.Silent? && e.ns == c.ns
  {
    var events := Events(c, base);
    if c.RetentionSweep? {
      assert forall i :: 0 <= i < |events| ==> (events[i].id, events[i].kind) == (c.ids[i], ChangeKind.Archived);
      assert |events| == |c.ids|;
    } else if c.ReviewMerge? {
      assert events[0].id == c.merged && events[1].id == c.a && events[2].id == c.b && |events| == 3;
    } else if c.InsertSuperseding? && c.retired {
      assert events[0].id == c.id && events[1].id == c.prior && |events| == 2;
    } else if events != [] {
      assert |events| == 1 && events[0] in events;
    }
  }

  /** The own-stamped events of `rows` committed on top of `base` rows. */
  function OwnOf(rows: seq<Row>, base: nat): seq<Event> {
    if rows == [] then []
    else OwnOf(rows[..|rows| - 1], base) + OwnEvent(rows[|rows| - 1], base + |rows|)
  }

  /** How a command broadcasts: each of its non-bulk rows under its own number; a row it does not
      mention; no row, but the number on top of the log; or a row under another row's number. */
  datatype Manner = OwnRows | NoMention | TopOfLog(id: MemoryId, kind: ChangeKind) | AnotherRow

  function MannerOf(c: Command): Manner {
    match c
    case Insert(_, _, links) => if links == 0 then OwnRows else AnotherRow
    case InsertSuperseding(_, _, links, _, _) => if links == 0 then OwnRows else AnotherRow
    case Update(_, id, changed) => if changed then OwnRows else TopOfLog(id, Updated)
    case Archive(_, id, changed) => if changed then OwnRows else TopOfLog(id, Archived)
    case ChangeLink(_, _) => NoMention
    case ReviewMerge(_, _, _, _) => AnotherRow
    case _ => OwnRows
  }

  lemma {:induction false} OwnOfConcat(a: seq<Row>, b: seq<Row>, base: nat)
    ensures OwnOf(a + b, base) == OwnOf(a, base) + OwnOf(b, base + |a|)
    decreases |b|
  {
    if b == [] {
      assert a + b == a;
    } else {
      var n := |b| - 1;
      OwnOfConcat(a, b[..n], base);
      assert (a + b)[..|a + b| - 1] == a + b[..n];
      assert OwnOf(b, base + |a|) == OwnOf(b[..n], base + |a|) + OwnEvent(b[n], base + |a| + |b|);
    }
  }

  lemma {:induction false} OwnOfOne(row: Row, base: nat)
    ensures OwnOf([row], base) == OwnEvent(row, base + 1)
  {
  }

  lemma {:induction false} OwnOfSmall(rows: seq<Row>, base: nat)
    requires |rows| <= 1
    ensures OwnOf(rows, base) == if rows == [] then [] else OwnEvent(rows[0], base + 1)
  {
  }

  lemma {:induction false} OwnOfAll(ns: Namespace, ids: seq<MemoryId>, kind: ChangeKind, base: nat)
    ensures OwnOf(RowsOf(ns, ids, kind), base)
         == seq(|ids|, i requires 0 <= i < |ids| => Event(ns, ids[i], kind, Some(base + 1 + i)))
  {
    var rows := RowsOf(ns, ids, kind);
    if ids != [] {
      var n := |ids| - 1;
      OwnOfAll(ns, ids[..n], kind, base);
      assert rows[..|rows| - 1] == RowsOf(ns, ids[..n], kind);
    }
  }

  lemma {:induction false} LinkRowsOwn(ns: Namespace, id: MemoryId, links: nat, base: nat)
    ensures |OwnOf(LinkRows(ns, id, links), base)| == links
  {
    var ids := seq(links, _ => id);
    assert LinkRows(ns, id, links) == RowsOf(ns, ids, Updated);
    OwnOfAll(ns, ids, Updated, base);
  }

  /** Exactly which commands broadcast what they logged: on the others the number of events
      is wrong, or a stamp is another row's. */
  lemma {:induction false} FaithfulExactlyWhen(c: Command, base: nat)
    ensures Events(c, base) == OwnOf(Rows(c), base) <==> MannerOf(c).OwnRows?
  {
    if c.Insert? || c.InsertSuperseding? {
      InsertFaithful(c, base);
    } else if c.ReviewMerge? {
      MergeUnfaithful(c, base);
    } else if c.RetentionSweep? {
      SweepFaithful(c, base);
    } else {
      SmallFaithful(c, base);
    }
  }

  /** Commands with at most one row. */
  lemma {:induction false} SmallFaithful(c: Command, base: nat)
    requires !c.Insert? && !c.InsertSuperseding? && !c.ReviewMerge? && !c.RetentionSweep?
    ensures Events(c, base) == OwnOf(Rows(c), base) <==> MannerOf(c).OwnRows?
  {
    OwnOfSmall(Rows(c), base);
  }

  lemma {:induction false} MergeUnfaithful(c: Command, base: nat)
    requires c.ReviewMerge?
    ensures Events(c, base) != OwnOf(Rows(c), base)
  {
    var rows := Rows(c);
    assert rows == [rows[0]] + rows[1..];
    OwnOfConcat([rows[0]], rows[1..], base);
    OwnOfOne(rows[0], base);
    assert OwnOf(rows, base)[0].stamp == Some(base + 1);
    assert Events(c, base)[0].stamp == Some(base + 4);
  }

  lemma {:induction false} SweepFaithful(c: Command, base: nat)
    requires c.RetentionSweep?
    ensures Events(c, base) == OwnOf(Rows(c), base)
  {
    OwnOfConcat(RowsOf(c.ns, c.ids, Archived), [Row(c.ns, None, Updated)], base);
    OwnOfAll(c.ns, c.ids, Archived, base);
    OwnOfOne(Row(c.ns, None, Updated), base + |c.ids|);
  }

  lemma {:induction false} InsertFaithful(c: Command, base: nat)
    requires c.Insert? || c.InsertSuperseding?
    ensures Events(c, base) == OwnOf(Rows(c), base) <==> c.links == 0
  {
    var head := Row(c.ns, Some(c.id), Created);
    var tail := if c.InsertSuperseding? && c.retired then [Row(c.ns, Some(c.prior), Archived)] else [];
    assert Rows(c) == [head] + LinkRows(c.ns, c.id, c.links) + tail;
    assert |Events(c, base)| == 1 + |tail|;
    InsertRowsOwn(head, LinkRows(c.ns, c.id, c.links), tail, base);
    LinkRowsOwn(c.ns, c.id, c.links, base + 1);
    if c.links == 0 && tail != [] { OwnOfOne(tail[0], base + 1); }
  }

  lemma {:induction false} InsertRowsOwn(head: Row, links: seq<Row>, tail: seq<Row>, base: nat)
    requires |tail| <= 1 && forall row :: row in tail ==> row.id.Some?
    ensures OwnOf([head] + links + tail, base)
         == OwnEvent(head, base + 1) + OwnOf(links, base + 1) + OwnOf(tail, base + 1 + |links|)
    ensures |OwnOf(tail, base + 1 + |links|)| == |tail|
  {
    OwnOfConcat([head] + links, tail, base);
    OwnOfConcat([head], links, base);
    OwnOfOne(head, base);
    if tail != [] {
      assert tail == [tail[0]];
      OwnOfOne(tail[0], base + 1 + |links|);
    }
  }
}
