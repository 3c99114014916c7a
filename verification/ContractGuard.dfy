/**
 The contract-drift guard: comparing an observed wire/migration surface with the
 checked-in snapshot, and regenerating the snapshot under a declared intent
 (crates/rb-contract-guard/src/check.rs, update.rs).
 */
module ContractGuard {
  import opened Common
  import opened Order

  type Digests = map<string, string>

  datatype Observed = Observed(version: nat, wire: Digests, migrations: Digests)

  datatype Intent = Initial | Additive | Breaking

  datatype LogEntry = LogEntry(version: nat, intent: Intent, note: string)

  datatype Snapshot = Snapshot(version: nat, wire: Digests, migrations: Digests, log: seq<LogEntry>)

  datatype Kind = WireItem | Migration

  /** One reported divergence. */
  datatype Line =
    | VersionChanged(recorded: nat, declared: nat)
    | Added(kind: Kind, key: string)
    | Changed(kind: Kind, key: string)
    | Removed(kind: Kind, key: string)

  datatype Outcome = Clean | Drift(lines: seq<Line>)

  // ---------------------------------------------------------------- check

  /** Keys the two maps do not record alike, on either side. */
  function Differing(observed: Digests, recorded: Digests): set<string> {
    NewOrChanged(observed, recorded) + Missing(observed, recorded)
  }

  function NewOrChanged(observed: Digests, recorded: Digests): set<string> {
    set k | k in observed.Keys && (k !in recorded || recorded[k] != observed[k])
  }

  function Missing(observed: Digests, recorded: Digests): set<string> {
    recorded.Keys - observed.Keys
  }

  function LineFor(kind: Kind, key: string, observed: Digests, recorded: Digests): Line {
    if key !in observed then Removed(kind, key)
    else if key !in recorded then Added(kind, key)
    else Changed(kind, key)
  }

  function LinesFor(kind: Kind, keys: seq<string>, observed: Digests, recorded: Digests): seq<Line> {
    seq(|keys|, i requires 0 <= i < |keys| => LineFor(kind, keys[i], observed, recorded))
  }

  /** The report for one map: additions and changes in key order, then removals. */
  ghost predicate MapReport(kind: Kind, observed: Digests, recorded: Digests, lines: seq<Line>) {
    exists novel, gone ::
      && IsSorted(novel, NewOrChanged(observed, recorded))
      && IsSorted(gone, Missing(observed, recorded))
      && lines == LinesFor(kind, novel + gone, observed, recorded)
  }

  /** The whole report: the version line, then the wire lines, then the migration lines. */
  ghost predicate Report(observed: Observed, snapshot: Snapshot, lines: seq<Line>) {
    exists wire, migrations ::
      && MapReport(WireItem, observed.wire, snapshot.wire, wire)
      && MapReport(Migration, observed.migrations, snapshot.migrations, migrations)
      && lines == VersionLines(observed, snapshot) + wire + migrations
  }

  function VersionLines(observed: Observed, snapshot: Snapshot): seq<Line> {
    if observed.version != snapshot.version
    then [VersionChanged(snapshot.version, observed.version)] else []
  }

  /** Push one line per differing key onto the shared report. */
  method DiffMaps(kind: Kind, observed: Digests, recorded: Digests, report: seq<Line>)
    returns (drift: seq<Line>, ghost lines: seq<Line>)
    ensures drift == report + lines && MapReport(kind, observed, recorded, lines)
  {
    ghost var novel, gone;
    drift, novel := PushNewOrChanged(kind, observed, recorded, report);
    drift, gone := PushMissing(kind, observed, recorded, drift);
    lines := LinesFor(kind, novel + gone, observed, recorded);
  }

  method PushNewOrChanged(kind: Kind, observed: Digests, recorded: Digests, report: seq<Line>)
    returns (drift: seq<Line>, ghost novel: seq<string>)
    ensures IsSorted(novel, NewOrChanged(observed, recorded))
    ensures drift == report + LinesFor(kind, novel, observed, recorded)
  {
    drift, novel := report, [];
    var keys := SortedElements(observed.Keys);
    for i := 0 to |keys|
      invariant IsSorted(novel, Elements(keys[..i]) * NewOrChanged(observed, recorded))
      invariant drift == report + LinesFor(kind, novel, observed, recorded)
    {
      var key := keys[i];
      assert key in Elements(keys);
      PickKeepsSorted(novel, keys, i, NewOrChanged(observed, recorded));
      if key !in recorded {
        drift, novel := drift + [Added(kind, key)], novel + [key];
      } else if recorded[key] != observed[key] {
        drift, novel := drift + [Changed(kind, key)], novel + [key];
      }
    }
    assert keys[..|keys|] == keys;
    assert Elements(keys) * NewOrChanged(observed, recorded) == NewOrChanged(observed, recorded);
  }

  method PushMissing(kind: Kind, observed: Digests, recorded: Digests, report: seq<Line>)
    returns (drift: seq<Line>, ghost gone: seq<string>)
    ensures IsSorted(gone, Missing(observed, recorded))
    ensures drift == report + LinesFor(kind, gone, observed, recorded)
  {
    drift, gone := report, [];
    var keys := SortedElements(recorded.Keys);
    for i := 0 to |keys|
      invariant IsSorted(gone, Elements(keys[..i]) * Missing(observed, recorded))
      invariant drift == report + LinesFor(kind, gone, observed, recorded)
    {
      var key := keys[i];
      assert key in Elements(keys);
      PickKeepsSorted(gone, keys, i, Missing(observed, recorded));
      if key !in observed {
        drift, gone := drift + [Removed(kind, key)], gone + [key];
      }
    }
    assert keys[..|keys|] == keys;
    assert Elements(keys) * Missing(observed, recorded) == Missing(observed, recorded);
  }

  ghost predicate Agrees(observed: Observed, snapshot: Snapshot) {
    && observed.version == snapshot.version
    && observed.wire == snapshot.wire
    && observed.migrations == snapshot.migrations
  }

  /** Compare an observed surface with the snapshot. */
  method Check(observed: Observed, snapshot: Snapshot) returns (outcome: Outcome)
    ensures outcome.Clean? <==> Agrees(observed, snapshot)
    ensures outcome.Drift? ==> Report(observed, snapshot, outcome.lines)
  {
    ghost var wire, migrations;
    var drift;
    drift, wire, migrations := CollectDrift(observed, snapshot);
    ReportParts(observed, snapshot, wire, migrations);
    outcome := if drift == [] then Clean else Drift(drift);
  }

  method CollectDrift(observed: Observed, snapshot: Snapshot)
    returns (drift: seq<Line>, ghost wire: seq<Line>, ghost migrations: seq<Line>)
    ensures drift == VersionLines(observed, snapshot) + wire + migrations
    ensures MapReport(WireItem, observed.wire, snapshot.wire, wire)
    ensures MapReport(Migration, observed.migrations, snapshot.migrations, migrations)
  {
    drift := [];
    if observed.version != snapshot.version {
      drift := drift + [VersionChanged(snapshot.version, observed.version)];
    }
    drift, wire := DiffMaps(WireItem, observed.wire, snapshot.wire, drift);
    drift, migrations := DiffMaps(Migration, observed.migrations, snapshot.migrations, drift);
  }

  /** The three parts make a report, which is empty exactly when everything agrees. */
  lemma ReportParts(observed: Observed, snapshot: Snapshot, wire: seq<Line>, migrations: seq<Line>)
    requires MapReport(WireItem, observed.wire, snapshot.wire, wire)
    requires MapReport(Migration, observed.migrations, snapshot.migrations, migrations)
    ensures var lines := VersionLines(observed, snapshot) + wire + migrations;
            Report(observed, snapshot, lines) && (lines == [] <==> Agrees(observed, snapshot))
  {
    EmptyReportExactlyWhenEqual(WireItem, observed.wire, snapshot.wire, wire);
    EmptyReportExactlyWhenEqual(Migration, observed.migrations, snapshot.migrations, migrations);
  }

  lemma SameExactlyWhenNoneDiffer(observed: Digests, recorded: Digests)
    ensures Differing(observed, recorded) == {} <==> observed == recorded
  {
    if Differing(observed, recorded) == {} {
      forall k ensures k in observed <==> k in recorded {
        assert k !in NewOrChanged(observed, recorded) && k !in Missing(observed, recorded);
      }
      forall k | k in observed ensures observed[k] == recorded[k] {
        assert k !in NewOrChanged(observed, recorded);
      }
    }
  }

  lemma EmptyReportExactlyWhenEqual(kind: Kind, observed: Digests, recorded: Digests, lines: seq<Line>)
    requires MapReport(kind, observed, recorded, lines)
    ensures lines == [] <==> observed == recorded
  {
    OneLinePerDifferingKey(kind, observed, recorded, lines);
    SameExactlyWhenNoneDiffer(observed, recorded);
  }

  /** Each differing key, and nothing else, is named by exactly one line. */
  lemma OneLinePerDifferingKey(kind: Kind, observed: Digests, recorded: Digests, lines: seq<Line>)
    requires MapReport(kind, observed, recorded, lines)
    ensures |lines| == |Differing(observed, recorded)| && NoDuplicates(lines)
    ensures forall i :: 0 <= i < |lines| ==> Names(kind, lines[i], observed, recorded)
    ensures forall key :: key in Differing(observed, recorded) ==>
              LineFor(kind, key, observed, recorded) in lines
  {
    var novel, gone :|
      && IsSorted(novel, NewOrChanged(observed, recorded))
      && IsSorted(gone, Missing(observed, recorded))
      && lines == LinesFor(kind, novel + gone, observed, recorded);
    var keys := novel + gone;
    ElementsConcat(novel, gone);
    DistinctKeys(novel, gone);
    DistinctCount(keys);
    assert Elements(keys) == Differing(observed, recorded);
    LinesAreDistinct(kind, keys, observed, recorded);
    LinesNameKeys(kind, keys, observed, recorded);
    LinesCoverKeys(kind, keys, observed, recorded);
  }

  lemma LinesAreDistinct(kind: Kind, keys: seq<string>, observed: Digests, recorded: Digests)
    requires NoDuplicates(keys)
    ensures NoDuplicates(LinesFor(kind, keys, observed, recorded))
  {
  }

  lemma LinesNameKeys(kind: Kind, keys: seq<string>, observed: Digests, recorded: Digests)
    requires Elements(keys) == Differing(observed, recorded)
    ensures forall i :: 0 <= i < |keys| ==>
              Names(kind, LinesFor(kind, keys, observed, recorded)[i], observed, recorded)
  {
  }

  ghost predicate Names(kind: Kind, line: Line, observed: Digests, recorded: Digests) {
    && !line.VersionChanged?
    && line.key in Differing(observed, recorded)
    && line == LineFor(kind, line.key, observed, recorded)
  }

  lemma LinesCoverKeys(kind: Kind, keys: seq<string>, observed: Digests, recorded: Digests)
    ensures forall key :: key in Elements(keys) ==>
              LineFor(kind, key, observed, recorded) in LinesFor(kind, keys, observed, recorded)
  {
    forall key | key in Elements(keys)
      ensures LineFor(kind, key, observed, recorded) in LinesFor(kind, keys, observed, recorded)
    {
      var i :| 0 <= i < |keys| && keys[i] == key;
      assert LinesFor(kind, keys, observed, recorded)[i] == LineFor(kind, key, observed, recorded);
    }
  }

  lemma DistinctKeys(a: seq<string>, b: seq<string>)
    requires Increasing(a) && Increasing(b) && Elements(a) !! Elements(b)
    ensures NoDuplicates(a + b)
  {
    IncreasingHasNoDuplicates(a);
    IncreasingHasNoDuplicates(b);
    forall i, j | 0 <= i < j < |a + b| ensures (a + b)[i] != (a + b)[j] {
      if i < |a| <= j { assert a[i] in Elements(a) && b[j - |a|] in Elements(b); }
    }
  }

  /** What each line means. */
  ghost predicate LinesTell(kind: Kind, observed: Digests, recorded: Digests, lines: seq<Line>) {
    forall key :: KeyTold(kind, key, observed, recorded, lines)
  }

  ghost predicate KeyTold(kind: Kind, key: string, observed: Digests, recorded: Digests, lines: seq<Line>) {
    && (Added(kind, key) in lines <==> key in observed && key !in recorded)
    && (Removed(kind, key) in lines <==> key !in observed && key in recorded)
    && (Changed(kind, key) in lines <==> key in observed && key in recorded && observed[key] != recorded[key])
  }

  lemma {:induction false} KeyLineTells(kind: Kind, key: string, observed: Digests, recorded: Digests,
                                        lines: seq<Line>)
    requires forall i :: 0 <= i < |lines| ==> Names(kind, lines[i], observed, recorded)
    requires key in Differing(observed, recorded) ==> LineFor(kind, key, observed, recorded) in lines
    ensures KeyTold(kind, key, observed, recorded, lines)
  {
    forall line | line in lines ensures Names(kind, line, observed, recorded) {
      var i :| 0 <= i < |lines| && lines[i] == line;
    }
  }

  lemma {:induction false} MapReportTells(kind: Kind, key: string, observed: Digests, recorded: Digests,
                                          lines: seq<Line>)
    requires MapReport(kind, observed, recorded, lines)
    ensures KeyTold(kind, key, observed, recorded, lines)
  {
    NamesOnly(kind, observed, recorded, lines);
    if key in Differing(observed, recorded) { NamesKey(kind, key, observed, recorded, lines); }
    KeyLineTells(kind, key, observed, recorded, lines);
  }

  lemma {:induction false} NamesOnly(kind: Kind, observed: Digests, recorded: Digests, lines: seq<Line>)
    requires MapReport(kind, observed, recorded, lines)
    ensures forall i :: 0 <= i < |lines| ==> Names(kind, lines[i], observed, recorded)
  {
    OneLinePerDifferingKey(kind, observed, recorded, lines);
  }

  lemma {:induction false} NamesKey(kind: Kind, key: string, observed: Digests, recorded: Digests, lines: seq<Line>)
    requires MapReport(kind, observed, recorded, lines) && key in Differing(observed, recorded)
    ensures LineFor(kind, key, observed, recorded) in lines
  {
    OneLinePerDifferingKey(kind, observed, recorded, lines);
  }

  /** No line of a part is about the other surface, or about the version. */
  ghost predicate OnlyOf(kind: Kind, lines: seq<Line>) {
    forall i :: 0 <= i < |lines| ==> !lines[i].VersionChanged? && lines[i].kind == kind
  }

  lemma {:induction false} PartsApart(kind: Kind, observed: Digests, recorded: Digests, lines: seq<Line>)
    requires MapReport(kind, observed, recorded, lines)
    ensures OnlyOf(kind, lines)
  {
    NamesOnly(kind, observed, recorded, lines);
    forall i | 0 <= i < |lines| ensures !lines[i].VersionChanged? && lines[i].kind == kind {
      assert Names(kind, lines[i], observed, recorded);
    }
  }

  /** The whole report names the version exactly when it differs, with what was recorded and what is
      declared now, and every key of either surface that was added, removed or changed. */
  lemma {:induction false} ReportTells(observed: Observed, snapshot: Snapshot, lines: seq<Line>)
    requires Report(observed, snapshot, lines)
    ensures forall a, b :: VersionChanged(a, b) in lines <==>
              a != b && a == snapshot.version && b == observed.version
    ensures LinesTell(WireItem, observed.wire, snapshot.wire, lines)
    ensures LinesTell(Migration, observed.migrations, snapshot.migrations, lines)
  {
    var wire, migrations :|
      && MapReport(WireItem, observed.wire, snapshot.wire, wire)
      && MapReport(Migration, observed.migrations, snapshot.migrations, migrations)
      && lines == VersionLines(observed, snapshot) + wire + migrations;
    PartsApart(WireItem, observed.wire, snapshot.wire, wire);
    PartsApart(Migration, observed.migrations, snapshot.migrations, migrations);
    VersionTold(observed, snapshot, wire, migrations);
    forall key ensures KeyTold(WireItem, key, observed.wire, snapshot.wire, lines) {
      MapReportTells(WireItem, key, observed.wire, snapshot.wire, wire);
      WireTold(observed, snapshot, wire, migrations, key);
    }
    forall key ensures KeyTold(Migration, key, observed.migrations, snapshot.migrations, lines) {
      MapReportTells(Migration, key, observed.migrations, snapshot.migrations, migrations);
      MigrationTold(observed, snapshot, wire, migrations, key);
    }
  }

  lemma {:induction false} VersionTold(observed: Observed, snapshot: Snapshot, wire: seq<Line>, migrations: seq<Line>)
    requires OnlyOf(WireItem, wire) && OnlyOf(Migration, migrations)
    ensures forall a, b :: VersionChanged(a, b) in VersionLines(observed, snapshot) + wire + migrations <==>
              a != b && a == snapshot.version && b == observed.version
  {
  }

  lemma {:induction false} WireTold(observed: Observed, snapshot: Snapshot, wire: seq<Line>, migrations: seq<Line>,
                                    key: string)
    requires OnlyOf(WireItem, wire) && OnlyOf(Migration, migrations)
    requires KeyTold(WireItem, key, observed.wire, snapshot.wire, wire)
    ensures KeyTold(WireItem, key, observed.wire, snapshot.wire, VersionLines(observed, snapshot) + wire + migrations)
  {
  }

  lemma {:induction false} MigrationTold(observed: Observed, snapshot: Snapshot, wire: seq<Line>,
                                         migrations: seq<Line>, key: string)
    requires OnlyOf(WireItem, wire) && OnlyOf(Migration, migrations)
    requires KeyTold(Migration, key, observed.migrations, snapshot.migrations, migrations)
    ensures KeyTold(Migration, key, observed.migrations, snapshot.migrations,
                    VersionLines(observed, snapshot) + wire + migrations)
  {
  }

  /** The report is determined by what it compares: same surfaces, same lines, same order. */
  lemma ReportUnique(kind: Kind, observed: Digests, recorded: Digests, x: seq<Line>, y: seq<Line>)
    requires MapReport(kind, observed, recorded, x) && MapReport(kind, observed, recorded, y)
    ensures x == y
  {
    var a, b :|
      && IsSorted(a, NewOrChanged(observed, recorded)) && IsSorted(b, Missing(observed, recorded))
      && x == LinesFor(kind, a + b, observed, recorded);
    var c, d :|
      && IsSorted(c, NewOrChanged(observed, recorded)) && IsSorted(d, Missing(observed, recorded))
      && y == LinesFor(kind, c + d, observed, recorded);
    SortedUnique(a, c);
    SortedUnique(b, d);
  }

  // --------------------------------------------------------------- update

  datatype UpdateError = EmptyNote | AlreadyCurrent | ReservedIntent | AdditiveBumped | BreakingNotBumped

  function InitSnapshot(observed: Observed, note: string): Result<Snapshot, UpdateError> {
    if Trim(note) == [] then Err(EmptyNote)
    else Ok(Snapshot(observed.version, observed.wire, observed.migrations,
                     [LogEntry(observed.version, Initial, Trim(note))]))
  }

  /** The version rule each intent promises. */
  predicate IntentHonest(intent: Intent, before: nat, after: nat) {
    match intent
    case Initial => false
    case Additive => after == before
    case Breaking => after > before
  }

  /** Regenerate the snapshot from an observation under a declared intent. */
  method ApplyUpdate(observed: Observed, prev: Snapshot, intent: Intent, note: string)
    returns (r: Result<Snapshot, UpdateError>)
    ensures r == Updated(observed, prev, intent, note)
  {
    if Trim(note) == [] {
      return Err(EmptyNote);
    }
    var outcome := Check(observed, prev);
    if outcome == Clean {
      return Err(AlreadyCurrent);
    }
    match intent {
      case Initial => return Err(ReservedIntent);
      case Additive =>
        if observed.version != prev.version {
          return Err(AdditiveBumped);
        }
      case Breaking =>
        if observed.version <= prev.version {
          return Err(BreakingNotBumped);
        }
    }
    var log := prev.log;
    log := log + [LogEntry(observed.version, intent, Trim(note))];
    r := Ok(Snapshot(observed.version, observed.wire, observed.migrations, log));
  }

  ghost function Updated(observed: Observed, prev: Snapshot, intent: Intent, note: string)
    : (r: Result<Snapshot, UpdateError>)
    ensures r.Ok? <==>
              && Trim(note) != [] && !Agrees(observed, prev)
              && ((intent.Additive? && observed.version == prev.version)
                  || (intent.Breaking? && observed.version > prev.version))
    ensures r.Ok? ==>
              && Agrees(observed, r.value)
              && r.value.log == prev.log + [LogEntry(observed.version, intent, Trim(note))]
  {
    if Trim(note) == [] then Err(EmptyNote)
    else if Agrees(observed, prev) then Err(AlreadyCurrent)
    else if IntentHonest(intent, prev.version, observed.version) then
      Ok(Snapshot(observed.version, observed.wire, observed.migrations,
                  prev.log + [LogEntry(observed.version, intent, Trim(note))]))
    else Err(match intent
             case Initial => ReservedIntent
             case Additive => AdditiveBumped
             case Breaking => BreakingNotBumped)
  }

  /** One attempt to move the snapshot; a refused attempt leaves it alone. */
  datatype Attempt = Attempt(observed: Observed, intent: Intent, note: string)

  ghost function Step(s: Snapshot, a: Attempt): Snapshot {
    match Updated(a.observed, s, a.intent, a.note)
    case Ok(next) => next
    case Err(_) => s
  }

  ghost function Run(s: Snapshot, attempts: seq<Attempt>): Snapshot
    decreases |attempts|
  {
    if attempts == [] then s else Run(Step(s, attempts[0]), attempts[1..])
  }

  ghost predicate LogSound(s: Snapshot) {
    && s.log != []
    && s.log[0].intent == Initial
    && s.log[|s.log| - 1].version == s.version
    && (forall i :: 0 <= i < |s.log| ==> s.log[i].note != [])
    && (forall i :: 0 < i < |s.log| ==> EntryHonest(s.log[i - 1], s.log[i]))
  }

  /** An additive entry keeps the version and a breaking one raises it; there is no other after the first. */
  ghost predicate EntryHonest(before: LogEntry, after: LogEntry) {
    || (after.intent.Additive? && after.version == before.version)
    || (after.intent.Breaking? && after.version > before.version)
  }

  function BreakingCount(log: seq<LogEntry>): nat {
    if log == [] then 0
    else (if log[|log| - 1].intent == Breaking then 1 else 0) + BreakingCount(log[..|log| - 1])
  }

  /** Over every run from a first snapshot: the log only grows, keeps `Initial` at its head
      alone, moves its version as each intent declares, and ends at the snapshot's version. */
  lemma {:induction false} RunKeepsLog(observed: Observed, note: string, attempts: seq<Attempt>)
    requires InitSnapshot(observed, note).Ok?
    ensures var s0 := InitSnapshot(observed, note).value;
            LogSound(Run(s0, attempts)) && s0.log <= Run(s0, attempts).log
  {
    RunExtendsLog(InitSnapshot(observed, note).value, attempts);
  }

  lemma StepKeepsLog(s: Snapshot, a: Attempt)
    requires LogSound(s)
    ensures LogSound(Step(s, a)) && s.log <= Step(s, a).log
  {
  }

  lemma {:induction false} RunExtendsLog(s: Snapshot, attempts: seq<Attempt>)
    requires LogSound(s)
    ensures LogSound(Run(s, attempts)) && s.log <= Run(s, attempts).log
    decreases |attempts|
  {
    if attempts != [] {
      var next := Step(s, attempts[0]);
      StepKeepsLog(s, attempts[0]);
      RunExtendsLog(next, attempts[1..]);
    }
  }

  /** Versions along a sound log never decrease. */
  lemma {:induction false} VersionsNeverDecrease(s: Snapshot, i: nat, j: nat)
    requires LogSound(s) && i <= j < |s.log|
    ensures s.log[i].version <= s.log[j].version
    decreases j
  {
    if i < j {
      assert EntryHonest(s.log[j - 1], s.log[j]);
      VersionsNeverDecrease(s, i, j - 1);
    }
  }

  /** Every breaking entry cost at least one version number. */
  lemma {:induction false} BreakingChangesAreCounted(s: Snapshot, n: nat)
    requires LogSound(s) && 0 < n <= |s.log|
    ensures s.log[0].version + BreakingCount(s.log[..n]) <= s.log[n - 1].version
  {
    assert s.log[..n][..n - 1] == s.log[..n - 1];
    if n > 1 {
      BreakingChangesAreCounted(s, n - 1);
      assert EntryHonest(s.log[n - 2], s.log[n - 1]);
    }
  }
}
