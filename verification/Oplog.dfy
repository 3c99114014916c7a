/**
 The durable oplog and its paged replay (crates/rb-store/src/store/oplog.rs).
 A row's sequence number is its commit position, counted from one.
 */
module Oplog {
  import opened Common

  type Namespace = string
  type MemoryId = string

  datatype ChangeKind = Created | Updated | Archived

  /** A committed row; bulk administrative rows carry the empty memory-id sentinel. */
  datatype Row = Row(ns: Namespace, id: Option<MemoryId>, kind: ChangeKind)

  /** A change notification; `stamp` is the oplog sequence it claims. */
  datatype Event = Event(ns: Namespace, id: MemoryId, kind: ChangeKind, stamp: Option<nat>)

  datatype Page = Page(changes: seq<Event>, scanned: nat, lastSeq: nat)

  /** The event a row stands for, stamped with the row's own sequence number. */
  function OwnEvent(row: Row, s: nat): seq<Event> {
    if row.id.Some? then [Event(row.ns, row.id.value, row.kind, Some(s))] else []
  }

  /** Rows of `ns` with sequence in (lo, hi], bulk rows included. */
  function RowCount(log: seq<Row>, ns: Namespace, lo: nat, hi: nat): nat
    decreases hi
  {
    if hi <= lo then 0
    else RowCount(log, ns, lo, hi - 1) + if hi <= |log| && log[hi - 1].ns == ns then 1 else 0
  }

  /** The changes of `ns` with sequence in (lo, hi]: what a subscriber should learn. */
  function Changes(log: seq<Row>, ns: Namespace, lo: nat, hi: nat): seq<Event>
    decreases hi
  {
    if hi <= lo then []
    else Changes(log, ns, lo, hi - 1)
         + if hi <= |log| && log[hi - 1].ns == ns then OwnEvent(log[hi - 1], hi) else []
  }

  /** First sequence number after `after` whose row is in `ns`. */
  function NextRow(log: seq<Row>, ns: Namespace, after: nat): (r: Option<nat>)
    ensures r.Some? ==> after < r.value <= |log| && log[r.value - 1].ns == ns
    ensures r.Some? ==> forall i :: after <= i < r.value - 1 ==> log[i].ns != ns
    ensures r.None? ==> forall i :: after <= i < |log| ==> log[i].ns != ns
    decreases |log| - after
  {
    if after >= |log| then None
    else if log[after].ns == ns then Some(after + 1)
    else NextRow(log, ns, after + 1)
  }

  /** Highest sequence a page of at most `limit` rows of `ns` reaches. */
  function PageEnd(log: seq<Row>, ns: Namespace, after: nat, limit: nat): nat
    decreases |log| - after
  {
    if limit == 0 || NextRow(log, ns, after).None? then after
    else PageEnd(log, ns, NextRow(log, ns, after).value, limit - 1)
  }

  function PageOf(log: seq<Row>, ns: Namespace, after: nat, limit: nat): Page {
    var end := PageEnd(log, ns, after, limit);
    Page(Changes(log, ns, after, end), RowCount(log, ns, after, end), end)
  }

  /** Read one replay page, counting every row scanned and emitting only the non-bulk ones. */
  method ReadPage(log: seq<Row>, ns: Namespace, after: nat, limit: nat) returns (page: Page)
    ensures page == PageOf(log, ns, after, limit)
  {
    var changes: seq<Event> := [];
    var scanned := 0;
    var lastSeq := after;
    var next := NextRow(log, ns, after);
    while scanned < limit && next.Some?
      invariant after <= lastSeq && scanned <= limit
      invariant next == NextRow(log, ns, lastSeq)
      invariant changes == Changes(log, ns, after, lastSeq)
      invariant scanned == RowCount(log, ns, after, lastSeq)
      invariant PageEnd(log, ns, after, limit) == PageEnd(log, ns, lastSeq, limit - scanned)
      decreases limit - scanned
    {
      var s := next.value;
      var row := log[s - 1];
      ScanOneRow(log, ns, after, lastSeq, s);
      scanned := scanned + 1;
      lastSeq := Max(lastSeq, s);
      next := NextRow(log, ns, lastSeq);
      if row.id.None? {
        continue;
      }
      changes := changes + [Event(ns, row.id.value, row.kind, Some(s))];
    }
    page := Page(changes, scanned, lastSeq);
  }

  lemma {:induction false} ScanOneRow(log: seq<Row>, ns: Namespace, after: nat, lastSeq: nat, s: nat)
    requires after <= lastSeq < s <= |log| && log[s - 1].ns == ns
    requires forall i :: lastSeq <= i < s - 1 ==> log[i].ns != ns
    ensures RowCount(log, ns, after, s) == RowCount(log, ns, after, lastSeq) + 1
    ensures Changes(log, ns, after, s) == Changes(log, ns, after, lastSeq) + OwnEvent(log[s - 1], s)
  {
    GapIsEmpty(log, ns, lastSeq, s - 1);
    ChangesSplit(log, ns, after, lastSeq, s - 1);
    RowsSplit(log, ns, after, lastSeq, s - 1);
  }

  lemma {:induction false} GapIsEmpty(log: seq<Row>, ns: Namespace, lo: nat, hi: nat)
    requires forall i :: lo <= i < hi && i < |log| ==> log[i].ns != ns
    ensures RowCount(log, ns, lo, hi) == 0 && Changes(log, ns, lo, hi) == []
    decreases hi
  {
    if lo < hi { GapIsEmpty(log, ns, lo, hi - 1); }
  }

  /** What row `hi` adds to the changes of `ns`. */
  function LastChange(log: seq<Row>, ns: Namespace, hi: nat): seq<Event> {
    if 0 < hi <= |log| && log[hi - 1].ns == ns then OwnEvent(log[hi - 1], hi) else []
  }

  lemma {:induction false} RowsSplit(log: seq<Row>, ns: Namespace, lo: nat, mid: nat, hi: nat)
    requires lo <= mid <= hi
    ensures RowCount(log, ns, lo, hi) == RowCount(log, ns, lo, mid) + RowCount(log, ns, mid, hi)
    decreases hi
  {
    if mid < hi { RowsSplit(log, ns, lo, mid, hi - 1); }
  }

  lemma {:induction false} ChangesSplit(log: seq<Row>, ns: Namespace, lo: nat, mid: nat, hi: nat)
    requires lo <= mid <= hi
    ensures Changes(log, ns, lo, hi) == Changes(log, ns, lo, mid) + Changes(log, ns, mid, hi)
    decreases hi
  {
    if mid < hi {
      ChangesSplit(log, ns, lo, mid, hi - 1);
      var first, second, last := Changes(log, ns, lo, mid), Changes(log, ns, mid, hi - 1), LastChange(log, ns, hi);
      assert Changes(log, ns, lo, hi) == Changes(log, ns, lo, hi - 1) + last;
      assert Changes(log, ns, mid, hi) == second + last;
      Regroup(first, second, last);
    }
  }

  /** Rows appended later do not disturb what was already there. Rows are only ever appended: a hard
      forget, which deletes a memory's rows, is outside this model. */
  lemma {:induction false} ChangesStable(log: seq<Row>, longer: seq<Row>, ns: Namespace, lo: nat, hi: nat)
    requires log <= longer && hi <= |log|
    ensures Changes(longer, ns, lo, hi) == Changes(log, ns, lo, hi)
    ensures RowCount(longer, ns, lo, hi) == RowCount(log, ns, lo, hi)
    decreases hi
  {
    if lo < hi { ChangesStable(log, longer, ns, lo, hi - 1); }
  }

  lemma {:induction false} EndCovers(log: seq<Row>, ns: Namespace, after: nat, limit: nat)
    ensures var end := PageEnd(log, ns, after, limit);
            var rows := RowCount(log, ns, after, end);
            && after <= end <= Max(after, |log|) && rows <= limit
            && (rows < limit ==> RowCount(log, ns, end, |log|) == 0)
            && (rows == limit > 0 ==> after < end)
    decreases limit
  {
    var next := NextRow(log, ns, after);
    if next.None? {
      GapIsEmpty(log, ns, after, |log|);
    } else if limit > 0 {
      GapIsEmpty(log, ns, after, next.value - 1);
      EndCovers(log, ns, next.value, limit - 1);
      RowsSplit(log, ns, after, next.value, PageEnd(log, ns, after, limit));
    }
  }

  /** A page covers every row of `ns` up to its end, advances when full, and when it
      comes back short nothing of `ns` is left beyond it. */
  lemma {:induction false} PageCovers(log: seq<Row>, ns: Namespace, after: nat, limit: nat)
    ensures var page := PageOf(log, ns, after, limit);
            && after <= page.lastSeq <= Max(after, |log|)
            && page.scanned <= limit
            && (page.scanned < limit ==> RowCount(log, ns, page.lastSeq, |log|) == 0)
            && (page.scanned == limit > 0 ==> after < page.lastSeq)
  {
    EndCovers(log, ns, after, limit);
  }

  ghost predicate StampsWithin(events: seq<Event>, lo: nat, hi: nat) {
    && (forall i :: 0 <= i < |events| ==> events[i].stamp.Some? && lo < events[i].stamp.value <= hi)
    && (forall i, j :: 0 <= i < j < |events| ==> events[i].stamp.value < events[j].stamp.value)
  }

  /** Changes come out once each, in sequence order, all in the asked-for namespace. */
  lemma {:induction false} ChangesOrdered(log: seq<Row>, ns: Namespace, lo: nat, hi: nat)
    ensures StampsWithin(Changes(log, ns, lo, hi), lo, hi)
    ensures forall e :: e in Changes(log, ns, lo, hi) ==> e.ns == ns
    decreases hi
  {
    if lo < hi { ChangesOrdered(log, ns, lo, hi - 1); }
  }

  /** A row is among the namespace's changes exactly when it is not bulk, in range and its own. */
  lemma {:induction false} ChangesComplete(log: seq<Row>, ns: Namespace, lo: nat, hi: nat, s: nat)
    requires 0 < s <= |log| && log[s - 1].id.Some?
    ensures OwnEvent(log[s - 1], s)[0] in Changes(log, ns, lo, hi) <==> lo < s <= hi && log[s - 1].ns == ns
    decreases hi
  {
    ChangesOrdered(log, ns, lo, hi);
    if lo < hi && s < hi { ChangesComplete(log, ns, lo, hi - 1, s); }
  }
}
