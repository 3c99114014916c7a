/**
 Causal attribution over a table of paired scorecard runs: rows are mutable lists that the table
 and the grouping of pairs share (scripts/scorecard-controls.py:84-131, 162-221).
 */
module Attribution {
  import opened Common

  type Fields = seq<string>

  /** Agent, scenario and run identify a pair. */
  datatype Key = Key(agent: string, scenario: string, run: string)

  datatype Cause = Cause(induced: nat, attribution: string, reason: string)

  const WIDTH: nat := 26
  const ON := "memory-on"
  const OFF := "memory-off"
  const INDUCED := "memory_induced"
  const NOT_INDUCED := "not_memory_induced"
  const UNASSESSABLE := "unassessable"

  // ------------------------------------------------------------------ one pair

  /** Attribute one pair without treating correlation as proof. */
  function Causal(on: seq<Fields>, off: seq<Fields>): Cause
    requires forall i :: 0 <= i < |on| ==> |on[i]| == WIDTH
    requires forall i :: 0 <= i < |off| ==> |off[i]| == WIDTH
  {
    if |on| != 1 then
      Cause(0, UNASSESSABLE, if on == [] then "missing_memory_on_pair" else "duplicate_memory_on_pair")
    else if |off| != 1 then
      Cause(0, UNASSESSABLE, if off == [] then "missing_memory_off_pair" else "duplicate_memory_off_pair")
    else CausalOne(on[0], off[0])
  }

  function CausalOne(on: Fields, off: Fields): Cause
    requires |on| == |off| == WIDTH
  {
    if on[12] == "true" then Cause(0, UNASSESSABLE, "memory_on_session_error")
    else if off[12] == "true" then Cause(0, UNASSESSABLE, "memory_off_session_error")
    else if on[4] !in {"0", "1"} || off[4] !in {"0", "1"} then Cause(0, UNASSESSABLE, "invalid_outcome")
    else if on[24] == "na" then Cause(0, NOT_INDUCED, "no_stale_candidate")
    else if on[24] !in {"0", "1"} then
      Cause(0, UNASSESSABLE, if on[25] != "" then on[25] else "missing_injection_evidence")
    else if off[24] == "1" then Cause(0, UNASSESSABLE, "contaminated_control_evidence")
    else if off[24] != "0" then Cause(0, UNASSESSABLE, "missing_control_evidence")
    else if on[4] == "1" then Cause(0, NOT_INDUCED, "memory_on_succeeded")
    else if off[4] == "0" then Cause(0, NOT_INDUCED, "both_arms_failed")
    else if on[24] == "0" then Cause(0, NOT_INDUCED, "stale_not_injected")
    else Cause(1, INDUCED, "memory_on_only_failure_with_stale_injection")
  }

  /** A failing, stale-injected on-arm beside a clean passing off-arm. */
  ghost predicate Convicts(on: Fields, off: Fields)
    requires |on| == |off| == WIDTH
  {
    && on[12] != "true" && off[12] != "true"
    && on[4] == "0" && off[4] == "1" && on[24] == "1" && off[24] == "0"
  }

  lemma CausalExactly(on: Fields, off: Fields)
    requires |on| == |off| == WIDTH
    ensures CausalOne(on, off).induced == 1 <==> Convicts(on, off)
    ensures CausalOne(on, off).attribution == INDUCED <==> Convicts(on, off)
    ensures CausalOne(on, off).induced <= 1
  {
  }

  /** The grounds on which a pair of runs is judged, weightiest first, each with the judgement it leads to;
      the last always holds. */
  const GROUNDS: seq<(string, string)> :=
    [("memory_on_session_error", UNASSESSABLE), ("memory_off_session_error", UNASSESSABLE),
     ("invalid_outcome", UNASSESSABLE), ("no_stale_candidate", NOT_INDUCED),
     ("missing_injection_evidence", UNASSESSABLE), ("contaminated_control_evidence", UNASSESSABLE),
     ("missing_control_evidence", UNASSESSABLE), ("memory_on_succeeded", NOT_INDUCED),
     ("both_arms_failed", NOT_INDUCED), ("stale_not_injected", NOT_INDUCED),
     ("memory_on_only_failure_with_stale_injection", INDUCED)]

  ghost predicate HasGround(on: Fields, off: Fields, k: nat)
    requires |on| == |off| == WIDTH
  {
    match k
    case 0 => on[12] == "true"
    case 1 => off[12] == "true"
    case 2 => (on[4] != "0" && on[4] != "1") || (off[4] != "0" && off[4] != "1")
    case 3 => on[24] == "na"
    case 4 => on[24] != "0" && on[24] != "1"
    case 5 => off[24] == "1"
    case 6 => off[24] != "0"
    case 7 => on[4] == "1"
    case 8 => off[4] == "0"
    case 9 => on[24] == "0"
    case _ => true
  }

  /** A single pair of runs is judged on the first ground it has; a run's own word on missing evidence
      takes the place of the general one. */
  lemma {:induction false} FirstGroundDecides(on: Fields, off: Fields, k: nat)
    requires |on| == |off| == WIDTH && k < |GROUNDS| && HasGround(on, off, k)
    requires forall j: nat :: j < k ==> !HasGround(on, off, j)
    ensures var c := Causal([on], [off]);
            && c.attribution == GROUNDS[k].1 && c.induced == (if k == 10 then 1 else 0)
            && c.reason == if k == 4 && on[25] != "" then on[25] else GROUNDS[k].0
  {
    assert k > 0 ==> !HasGround(on, off, 0);
    assert k > 1 ==> !HasGround(on, off, 1);
    assert k > 2 ==> !HasGround(on, off, 2);
    assert k > 3 ==> !HasGround(on, off, 3);
    assert k > 4 ==> !HasGround(on, off, 4);
    assert k > 5 ==> !HasGround(on, off, 5);
    assert k > 6 ==> !HasGround(on, off, 6);
    assert k > 7 ==> !HasGround(on, off, 7);
    assert k > 8 ==> !HasGround(on, off, 8);
    assert k > 9 ==> !HasGround(on, off, 9);
  }

  /** Without exactly one run in each arm nothing can be judged. */
  lemma {:induction false} UnpairedIsUnassessable(on: seq<Fields>, off: seq<Fields>)
    requires forall i :: 0 <= i < |on| ==> |on[i]| == WIDTH
    requires forall i :: 0 <= i < |off| ==> |off[i]| == WIDTH
    requires |on| != 1 || |off| != 1
    ensures Causal(on, off).attribution == UNASSESSABLE && Causal(on, off).induced == 0
    ensures Causal(on, off).reason ==
              if |on| == 0 then "missing_memory_on_pair" else if |on| > 1 then "duplicate_memory_on_pair"
              else if |off| == 0 then "missing_memory_off_pair" else "duplicate_memory_off_pair"
  {
  }

  // ---------------------------------------------------------------- validation

  predicate StartsWith(s: string, prefix: string) {
    prefix <= s
  }

  /** The runner's seven-field record of an unsupported agent. */
  predicate IsAgentSkip(f: Fields) {
    |f| == 7 && SaysSkip(f)
  }

  predicate SaysSkip(f: Fields)
    requires |f| == 7
  {
    && f[0] in {"agent=codex", "agent=opencode", "agent=gemini", "agent=hermes"}
    && f[1] == "dimension=all" && f[2] == "scenario=all"
    && f[3] in {"phase=capture", "phase=config", "phase=scoring"}
    && f[4] == "status=skip" && StartsWith(f[5], "reason=") && StartsWith(f[6], "detail=")
  }

  predicate IsAlphanumeric(c: char) {
    'A' <= c <= 'Z' || 'a' <= c <= 'z' || '0' <= c <= '9'
  }

  /** A safe path component. */
  predicate IsComponent(s: string) {
    s != "" && IsAlphanumeric(s[0]) && forall i :: 0 <= i < |s| ==> IsAlphanumeric(s[i]) || s[i] == '_' || s[i] == '-'
  }

  predicate IsNumeral(s: string) {
    s != "" && forall i :: 0 <= i < |s| ==> '0' <= s[i] <= '9'
  }

  /** A run of a scenario: its path components are safe and column 7 is a number. */
  predicate IsRunRow(f: Fields) {
    |f| == WIDTH && IsComponent(f[1]) && IsComponent(f[3]) && IsNumeral(f[6])
  }

  predicate ValidLine(f: Fields) {
    IsAgentSkip(f) || IsRunRow(f)
  }

  function KeyOf(f: Fields): Key
    requires |f| == WIDTH
  {
    Key(f[0], f[1], f[3])
  }

  function NumeralValue(s: string): nat
    requires forall i :: 0 <= i < |s| ==> '0' <= s[i] <= '9'
  {
    if s == "" then 0 else 10 * NumeralValue(s[..|s| - 1]) + (s[|s| - 1] as int - '0' as int)
  }

  lemma {:induction false} NumeralOfDecimal(n: nat)
    ensures NumeralValue(Decimal(n)) == n
  {
    var digit := ['0' + (n % 10) as char];
    if n >= 10 {
      NumeralOfDecimal(n / 10);
      assert Decimal(n) == Decimal(n / 10) + digit;
      assert Decimal(n)[..|Decimal(n)| - 1] == Decimal(n / 10);
    } else {
      assert Decimal(n) == digit && digit[..0] == "";
    }
  }

  // ------------------------------------------------------------- specification

  ghost predicate AllValid(lines: seq<Fields>) {
    forall i :: 0 <= i < |lines| ==> ValidLine(lines[i])
  }

  predicate InArm(f: Fields, key: Key, arm: string) {
    !IsAgentSkip(f) && |f| == WIDTH && KeyOf(f) == key && f[2] == arm
  }

  /** The rows of one arm of one pair, in table order. */
  function Select(lines: seq<Fields>, key: Key, arm: string): (r: seq<Fields>)
    ensures forall i :: 0 <= i < |r| ==> |r[i]| == WIDTH && InArm(r[i], key, arm) && r[i] in lines
  {
    if lines == [] then []
    else
      var last := lines[|lines| - 1];
      Select(lines[..|lines| - 1], key, arm) + (if InArm(last, key, arm) then [last] else [])
  }

  function CauseOf(lines: seq<Fields>, key: Key): Cause {
    Causal(Select(lines, key, ON), Select(lines, key, OFF))
  }

  /** What one row becomes. */
  function AttributedRow(f: Fields, cause: Cause): Fields
    requires |f| == WIDTH && IsNumeral(f[6])
  {
    if f[2] == ON then
      f[6 := Decimal(if cause.induced > NumeralValue(f[6]) then cause.induced else NumeralValue(f[6]))]
      + [cause.attribution, cause.reason]
    else f + ["na", "not_memory_on_arm"]
  }

  function AttributedLine(lines: seq<Fields>, f: Fields): Fields
    requires ValidLine(f)
  {
    if IsAgentSkip(f) then f else AttributedRow(f, CauseOf(lines, KeyOf(f)))
  }

  /** The whole table, every row judged by the table as it was read. */
  function Attributed(lines: seq<Fields>): (r: seq<Fields>)
    requires AllValid(lines)
    ensures |r| == |lines|
    ensures forall i :: 0 <= i < |lines| ==> r[i] == AttributedLine(lines, lines[i])
  {
    seq(|lines|, i requires 0 <= i < |lines| => AttributedLine(lines, lines[i]))
  }

  // ------------------------------------------------------------ implementation

  /** A row of the table: one list, changed in place wherever it is referred to. */
  class Row {
    var fields: Fields

    constructor (fields: Fields)
      ensures this.fields == fields
    {
      this.fields := fields;
    }
  }

  type Groups = map<Key, map<string, seq<Row>>>

  function Group(pairs: Groups, key: Key, arm: string): seq<Row> {
    if key in pairs && arm in pairs[key] then pairs[key][arm] else []
  }

  /** Append a row to its arm, creating the entries it needs. */
  function AddRow(pairs: Groups, key: Key, arm: string, row: Row): (r: Groups)
    ensures key in r && arm in r[key]
    ensures forall k, a :: Group(r, k, a) == Group(pairs, k, a) + if k == key && a == arm then [row] else []
    ensures forall k :: k in r <==> k in pairs || k == key
  {
    var arms := if key in pairs then pairs[key] else map[];
    pairs[key := arms[arm := (if arm in arms then arms[arm] else []) + [row]]]
  }

  function FieldsOf(rows: seq<Row>): (r: seq<Fields>)
    reads rows
    ensures |r| == |rows| && forall i :: 0 <= i < |rows| ==> r[i] == rows[i].fields
  {
    if rows == [] then [] else FieldsOf(rows[..|rows| - 1]) + [rows[|rows| - 1].fields]
  }

  ghost predicate Distinct(rows: seq<Row>) {
    forall i, j :: 0 <= i < j < |rows| ==> rows[i] != rows[j]
  }

  /** The table holds these lines. */
  ghost predicate Holds(rows: seq<Row>, lines: seq<Fields>)
    reads rows
  {
    |rows| == |lines| && forall i :: 0 <= i < |rows| ==> rows[i].fields == lines[i]
  }

  /** The grouping refers to the table's own rows, arm by arm. */
  ghost predicate Grouped(pairs: Groups, rows: seq<Row>, lines: seq<Fields>)
    reads rows
  {
    && (forall key, arm, row :: row in Group(pairs, key, arm) ==> row in rows)
    && (forall key, arm :: FieldsOfIn(Group(pairs, key, arm), rows) == Select(lines, key, arm))
    && (forall i :: 0 <= i < |lines| && !IsAgentSkip(lines[i]) && |lines[i]| == WIDTH ==> KeyOf(lines[i]) in pairs)
  }

  /** The lists of a group whose rows are in the table. */
  ghost function FieldsOfIn(group: seq<Row>, rows: seq<Row>): seq<Fields>
    reads rows
  {
    if group == [] then []
    else FieldsOfIn(group[..|group| - 1], rows)
         + (if group[|group| - 1] in rows then [group[|group| - 1].fields] else [])
  }

  lemma {:induction false} FieldsOfInIs(group: seq<Row>, rows: seq<Row>)
    requires forall row :: row in group ==> row in rows
    ensures FieldsOfIn(group, rows) == FieldsOf(group)
  {
    if group != [] {
      assert forall row :: row in group[..|group| - 1] ==> row in group;
      FieldsOfInIs(group[..|group| - 1], rows);
      assert group[|group| - 1] in group;
    }
  }

  lemma {:induction false} FieldsOfInMore(group: seq<Row>, rows: seq<Row>, more: Row)
    requires forall row :: row in group ==> row in rows
    ensures FieldsOfIn(group, rows + [more]) == FieldsOfIn(group, rows)
  {
    if group != [] {
      assert forall row :: row in group[..|group| - 1] ==> row in group;
      FieldsOfInMore(group[..|group| - 1], rows, more);
      assert group[|group| - 1] in group;
    }
  }

  function Filed(pairs: Groups, f: Fields, row: Row): Groups
    requires ValidLine(f)
  {
    if IsAgentSkip(f) then pairs else AddRow(pairs, KeyOf(f), f[2], row)
  }

  /** A group grows with its arm. */
  lemma {:induction false} GroupNext(pairs: Groups, rows: seq<Row>, lines: seq<Fields>, row: Row, key: Key, arm: string)
    requires Grouped(pairs, rows, lines) && ValidLine(row.fields)
    ensures FieldsOfIn(Group(Filed(pairs, row.fields, row), key, arm), rows + [row])
         == Select(lines + [row.fields], key, arm)
  {
    var g, all, table := Group(pairs, key, arm), rows + [row], lines + [row.fields];
    assert table[..|lines|] == lines;
    FieldsOfInMore(g, rows, row);
    if InArm(row.fields, key, arm) {
      assert (g + [row])[..|g|] == g;
      assert row in all;
    } else {
      assert g + [] == g;
    }
  }

  /** One more line joins the table and its group. */
  lemma {:induction false} GroupedNext(pairs: Groups, rows: seq<Row>, lines: seq<Fields>, row: Row)
    requires Grouped(pairs, rows, lines) && ValidLine(row.fields)
    ensures Grouped(Filed(pairs, row.fields, row), rows + [row], lines + [row.fields])
  {
    forall key, arm
      ensures FieldsOfIn(Group(Filed(pairs, row.fields, row), key, arm), rows + [row])
           == Select(lines + [row.fields], key, arm)
    {
      GroupNext(pairs, rows, lines, row, key, arm);
    }
    forall key, arm, x | x in Group(Filed(pairs, row.fields, row), key, arm) ensures x in rows + [row] {
    }
  }

  /** The first `n` lines are in the table, each in a row of its own, and filed. */
  ghost predicate Read(pairs: Groups, rows: seq<Row>, lines: seq<Fields>, n: nat)
    requires n <= |lines|
    reads rows
  {
    Holds(rows, lines[..n]) && Distinct(rows) && Grouped(pairs, rows, lines[..n])
  }

  /** Make a row of the next line and file it with its pair. */
  method ReadLine(pairs: Groups, ghost rows: seq<Row>, lines: seq<Fields>, n: nat) returns (row: Row, next: Groups)
    requires n < |lines| && ValidLine(lines[n]) && Read(pairs, rows, lines, n)
    ensures fresh(row) && Read(next, rows + [row], lines, n + 1)
  {
    row := new Row(lines[n]);
    GroupedNext(pairs, rows, lines[..n], row);
    assert lines[..n + 1] == lines[..n] + [lines[n]];
    next := Filed(pairs, lines[n], row);
  }

  /** Read and validate every line before anything is changed. */
  method Parse(lines: seq<Fields>) returns (bad: Option<nat>, rows: seq<Row>, pairs: Groups)
    ensures bad.None? <==> AllValid(lines)
    ensures bad.Some? ==> bad.value < |lines| && !ValidLine(lines[bad.value]) && AllValid(lines[..bad.value])
    ensures bad.None? ==> fresh(rows) && Read(pairs, rows, lines, |lines|)
  {
    rows, pairs := [], map[];
    for number := 0 to |lines|
      invariant forall k :: 0 <= k < number ==> ValidLine(lines[k])
      invariant fresh(rows) && Read(pairs, rows, lines, number)
    {
      if !ValidLine(lines[number]) {
        return Some(number), rows, pairs;
      }
      var row;
      row, pairs := ReadLine(pairs, rows, lines, number);
      rows := rows + [row];
    }
    bad := None;
  }

  /** Judge every pair. */
  method Causes(pairs: Groups, ghost rows: seq<Row>, ghost lines: seq<Fields>) returns (causes: map<Key, Cause>)
    requires Grouped(pairs, rows, lines)
    ensures forall key :: key in pairs ==> key in causes && causes[key] == CauseOf(lines, key)
  {
    causes := map[];
    var rest := pairs.Keys;
    while rest != {}
      invariant rest <= pairs.Keys
      invariant forall key :: key in pairs && key !in rest ==> key in causes && causes[key] == CauseOf(lines, key)
      decreases rest
    {
      var key :| key in rest;
      var on, off := Group(pairs, key, ON), Group(pairs, key, OFF);
      FieldsOfInIs(on, rows);
      FieldsOfInIs(off, rows);
      assert FieldsOf(on) == Select(lines, key, ON) && FieldsOf(off) == Select(lines, key, OFF);
      causes := causes[key := Causal(FieldsOf(on), FieldsOf(off))];
      rest := rest - {key};
    }
  }

  /** What a row becomes under the judged causes. */
  function RowUnder(f: Fields, causes: map<Key, Cause>): Fields {
    if IsRunRow(f) && KeyOf(f) in causes then AttributedRow(f, causes[KeyOf(f)]) else f
  }

  /** Change one row in place; its arm and key are still those that were read. */
  method AttributeRow(row: Row, causes: map<Key, Cause>)
    requires IsAgentSkip(row.fields) || (IsRunRow(row.fields) && KeyOf(row.fields) in causes)
    modifies row
    ensures row.fields == RowUnder(old(row.fields), causes)
  {
    if IsAgentSkip(row.fields) {
      return;
    }
    var cause := causes[KeyOf(row.fields)];
    if row.fields[2] == ON {
      var before := NumeralValue(row.fields[6]);
      row.fields := row.fields[6 := Decimal(if cause.induced > before then cause.induced else before)];
      row.fields := row.fields + [cause.attribution, cause.reason];
    } else {
      row.fields := row.fields + ["na", "not_memory_on_arm"];
    }
  }

  /** Every run of the table has a judged pair. */
  ghost predicate Judged(lines: seq<Fields>, causes: map<Key, Cause>) {
    forall k :: 0 <= k < |lines| ==> IsAgentSkip(lines[k]) || (IsRunRow(lines[k]) && KeyOf(lines[k]) in causes)
  }

  /** Change every row of the table in place, in order. */
  method Emit(rows: seq<Row>, causes: map<Key, Cause>, ghost lines: seq<Fields>) returns (output: seq<Fields>)
    requires Holds(rows, lines) && Distinct(rows) && Judged(lines, causes)
    modifies rows
    ensures |output| == |lines| && forall k :: 0 <= k < |lines| ==> output[k] == RowUnder(lines[k], causes)
  {
    output := [];
    for i := 0 to |rows|
      invariant |output| == i && forall k :: 0 <= k < i ==> output[k] == RowUnder(lines[k], causes)
      invariant forall k :: i <= k < |rows| ==> rows[k].fields == lines[k]
    {
      AttributeRow(rows[i], causes);
      output := output + [rows[i].fields];
    }
  }

  /** Attribute a table: all of it, or nothing when a line is malformed. */
  method AttributeResults(lines: seq<Fields>) returns (r: Result<seq<Fields>, nat>)
    ensures r.Ok? <==> AllValid(lines)
    ensures r.Ok? ==> r.value == Attributed(lines)
    ensures r.Err? ==> r.error < |lines| && !ValidLine(lines[r.error]) && AllValid(lines[..r.error])
  {
    var bad, rows, pairs := Parse(lines);
    if bad.Some? {
      return Err(bad.value);
    }
    assert lines[..|lines|] == lines;
    var causes := Causes(pairs, rows, lines);
    assert Judged(lines, causes);
    var output := Emit(rows, causes, lines);
    forall k | 0 <= k < |lines| ensures output[k] == Attributed(lines)[k] {
    }
    r := Ok(output);
  }

  // ----------------------------------------------------------------- guarantees

  lemma {:induction false} RowIsKept(f: Fields, cause: Cause)
    requires |f| == WIDTH && IsNumeral(f[6])
    ensures var g := AttributedRow(f, cause);
            && |g| == WIDTH + 2 && (forall k :: 0 <= k < WIDTH && (k != 6 || f[2] != ON) ==> g[k] == f[k])
            && IsNumeral(g[6]) && NumeralValue(f[6]) <= NumeralValue(g[6])
  {
    NumeralOfDecimal(if cause.induced > NumeralValue(f[6]) then cause.induced else NumeralValue(f[6]));
  }

  /** A row keeps its fields, but for column 7 of a memory-on row, which never drops; skips are verbatim. */
  lemma {:induction false} RowsAreKept(lines: seq<Fields>, f: Fields)
    requires ValidLine(f)
    ensures var g := AttributedLine(lines, f);
            if IsAgentSkip(f) then g == f
            else
              && |g| == WIDTH + 2
              && (forall k :: 0 <= k < WIDTH && (k != 6 || f[2] != ON) ==> g[k] == f[k])
              && IsNumeral(g[6]) && NumeralValue(f[6]) <= NumeralValue(g[6])
  {
    if !IsAgentSkip(f) { RowIsKept(f, CauseOf(lines, KeyOf(f))); }
  }

  /** The rows of an arm, seen from one of them: a single one is that row. */
  lemma {:induction false} SelectHas(lines: seq<Fields>, key: Key, arm: string, i: nat)
    requires i < |lines| && InArm(lines[i], key, arm)
    ensures lines[i] in Select(lines, key, arm)
  {
    var n := |lines| - 1;
    if i < n { SelectHas(lines[..n], key, arm, i); }
  }

  lemma {:induction false} RowTail(f: Fields, cause: Cause)
    requires |f| == WIDTH && IsNumeral(f[6])
    ensures var g := AttributedRow(f, cause);
            && |g| == WIDTH + 2 && g[26] == (if f[2] == ON then cause.attribution else "na")
            && (f[2] == ON ==> IsNumeral(g[6]) && NumeralValue(g[6]) >= cause.induced)
  {
    NumeralOfDecimal(if cause.induced > NumeralValue(f[6]) then cause.induced else NumeralValue(f[6]));
  }

  /** The row is the one on-arm of its pair and fails with a stale injection, and the pair has one
      off-arm, clean and passing. */
  ghost predicate Convicted(lines: seq<Fields>, f: Fields)
    requires |f| == WIDTH
  {
    var on, off := Select(lines, KeyOf(f), ON), Select(lines, KeyOf(f), OFF);
    f[2] == ON && on == [f] && |off| == 1 && Convicts(f, off[0])
  }

  lemma {:induction false} CauseExactly(lines: seq<Fields>, i: nat)
    requires i < |lines| && !IsAgentSkip(lines[i]) && |lines[i]| == WIDTH && lines[i][2] == ON
    ensures CauseOf(lines, KeyOf(lines[i])).attribution == INDUCED <==> Convicted(lines, lines[i])
    ensures Convicted(lines, lines[i]) ==> CauseOf(lines, KeyOf(lines[i])).induced == 1
  {
    var key := KeyOf(lines[i]);
    SelectHas(lines, key, ON, i);
    var on, off := Select(lines, key, ON), Select(lines, key, OFF);
    if |on| == 1 {
      assert on == [lines[i]];
      if |off| == 1 { CausalExactly(on[0], off[0]); }
    }
  }

  /** A row is marked memory-induced exactly when it is convicted by its pair; column 7 is then at
      least 1. */
  lemma {:induction false} InducedExactlyWhen(lines: seq<Fields>, i: nat)
    requires AllValid(lines) && i < |lines| && !IsAgentSkip(lines[i])
    ensures var g := AttributedLine(lines, lines[i]);
            && |g| == WIDTH + 2 && (g[26] == INDUCED <==> Convicted(lines, lines[i]))
            && (g[26] == INDUCED ==> IsNumeral(g[6]) && NumeralValue(g[6]) >= 1)
  {
    RowTail(lines[i], CauseOf(lines, KeyOf(lines[i])));
    assert INDUCED[0] == 'm' && "na"[0] == 'n';
    if lines[i][2] == ON { CauseExactly(lines, i); }
  }
}
