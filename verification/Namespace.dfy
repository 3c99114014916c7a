/**
 Which namespace a directory belongs to: explicit choice, committed identity, pin-gated
 frontmatter, directory names (crates/rb-config/src/namespace.rs:157-221, 275-345, 385-440).
 */
module Namespace {
  import opened Common

  /** A piece of a file name: a character, or a run of bytes that is not UTF-8. */
  datatype Unit = Chr(c: char) | Bad(bytes: seq<nat>)

  type Component = seq<Unit>

  /** An absolute path; the root has no component. */
  type Path = seq<Component>

  /** What reading a file as bounded regular text gives. */
  datatype Content = Text(text: string) | InvalidData | Unreadable

  datatype Namespace = Project(name: string) | Global

  datatype Divergence = Untracked | Modified

  datatype Override = Override(claimed: string, used: string, toplevel: Path)

  datatype Resolution = Resolution(namespace: Namespace, unpinned: Option<Override>,
                                   divergence: Option<(Path, Divergence)>)

  /** The file system: what is stored where, and where a name leads once every link on the way has
      been followed. A name without an entry in `links` leads to itself. */
  datatype Disk = Disk(files: map<Path, Content>, links: map<Path, Path>)

  /** The file system, git, and the reading of the committed identity file. */
  datatype World = World(disk: Disk, gitRoot: Path -> Option<Path>,
                         headConfig: Path -> Option<string>, tomlNamespace: string -> Option<string>)

  function Target(d: Disk, p: Path): Path {
    if p in d.links then d.links[p] else p
  }

  function Stored(d: Disk, p: Path): Content {
    if p in d.files then d.files[p] else Unreadable
  }

  /** Opening a name follows links. */
  function Read(d: Disk, p: Path): Content {
    Stored(d, Target(d, p))
  }

  function Units(s: string): (r: Component)
    ensures |r| == |s| && forall i :: 0 <= i < |s| ==> r[i] == Chr(s[i])
  {
    seq(|s|, i requires 0 <= i < |s| => Chr(s[i]))
  }

  const REPO_CONFIG: Component := Units(".rusty-brain.toml")
  const CLAUDE_MD: Component := Units("CLAUDE.md")

  // -------------------------------------------------------------- frontmatter

  function NonEmpty(s: string): Option<string> {
    if s == "" then None else Some(s)
  }

  predicate IsQuote(c: char) {
    c == '"' || c == '\''
  }

  function TrimQuotes(s: string): string {
    if s != "" && IsQuote(s[0]) then TrimQuotes(s[1..])
    else if s != "" && IsQuote(s[|s| - 1]) then TrimQuotes(s[..|s| - 1])
    else s
  }

  const FENCE := "---"
  const PROJECT := "project:"

  /** The value of a `project:` line. */
  function ProjectValue(line: string): Option<string>
    requires PROJECT <= line
  {
    NonEmpty(Trim(TrimQuotes(Trim(line[|PROJECT|..]))))
  }

  /** The first `project:` line before the closing fence decides. */
  function ProjectIn(lines: seq<string>): Option<string> {
    if lines == [] || Trim(lines[0]) == FENCE then None
    else if PROJECT <= Trim(lines[0]) then ProjectValue(Trim(lines[0]))
    else ProjectIn(lines[1..])
  }

  function FrontmatterProject(lines: seq<string>): Option<string> {
    if lines == [] || Trim(lines[0]) != FENCE then None else ProjectIn(lines[1..])
  }

  function NewlineAt(text: string): (k: nat)
    ensures k <= |text| && (k < |text| ==> text[k] == '\n')
  {
    if text == "" || text[0] == '\n' then 0 else 1 + NewlineAt(text[1..])
  }

  /** Lines without their terminators; a final terminator starts no line. */
  function Lines(text: string): seq<string>
    decreases |text|
  {
    if text == "" then []
    else
      var k := NewlineAt(text);
      [text[..k]] + (if k == |text| then [] else Lines(text[k + 1..]))
  }

  /** Scan the leading fenced block. */
  method ProjectFromFrontmatter(text: string) returns (r: Option<string>)
    ensures r == FrontmatterProject(Lines(text))
  {
    var lines := Lines(text);
    if lines == [] || Trim(lines[0]) != FENCE {
      return None;
    }
    for i := 1 to |lines|
      invariant ProjectIn(lines[i..]) == ProjectIn(lines[1..])
    {
      assert lines[i..][0] == lines[i] && lines[i..][1..] == lines[i + 1..];
      var trimmed := Trim(lines[i]);
      if trimmed == FENCE {
        return None;
      }
      if PROJECT <= trimmed {
        return NonEmpty(Trim(TrimQuotes(Trim(trimmed[|PROJECT|..]))));
      }
    }
    assert lines[|lines|..] == [];
    r := None;
  }

  /** Whatever follows the closing fence plays no part. */
  lemma {:induction false} BodyIsIrrelevant(head: seq<string>, a: seq<string>, b: seq<string>)
    requires exists k :: 1 <= k < |head| && Trim(head[k]) == FENCE
    ensures FrontmatterProject(head + a) == FrontmatterProject(head + b)
  {
    var k :| 1 <= k < |head| && Trim(head[k]) == FENCE;
    assert (head + a)[0] == head[0] == (head + b)[0];
    assert (head + a)[1..] == head[1..] + a && (head + b)[1..] == head[1..] + b;
    assert head[1..][k - 1] == head[k];
    ClosedBlock(head[1..], a, b, k - 1);
  }

  lemma {:induction false} ClosedBlock(block: seq<string>, a: seq<string>, b: seq<string>, k: nat)
    requires k < |block| && Trim(block[k]) == FENCE
    ensures ProjectIn(block + a) == ProjectIn(block + b)
  {
    assert (block + a)[0] == block[0] == (block + b)[0];
    if k > 0 {
      assert (block + a)[1..] == block[1..] + a && (block + b)[1..] == block[1..] + b;
      ClosedBlock(block[1..], a, b, k - 1);
    }
  }

  // ------------------------------------------------------------------ the walk

  /** The governing file's claim: the nearest readable `CLAUDE.md` from `dir` up to `top`. */
  function Claim(d: Disk, dir: Path, top: Path): Option<string>
    requires top <= dir
    decreases |dir|
  {
    match Read(d, dir + [CLAUDE_MD])
    case Text(text) => FrontmatterProject(Lines(text))
    case InvalidData => None
    case Unreadable => if dir == top then None else Claim(d, dir[..|dir| - 1], top)
  }

  function TopClaim(d: Disk, top: Path): Option<string> {
    match Read(d, top + [CLAUDE_MD])
    case Text(text) => FrontmatterProject(Lines(text))
    case _ => None
  }

  /** A start outside the toplevel cannot bound the walk, so only the toplevel's own file counts. */
  function ClaimWithin(d: Disk, start: Path, top: Path): Option<string> {
    if top <= start then Claim(d, start, top) else TopClaim(d, top)
  }

  method FrontmatterProjectWithin(d: Disk, start: Path, top: Path) returns (r: Option<string>)
    ensures r == ClaimWithin(d, start, top)
  {
    if !(top <= start) {
      match Read(d, top + [CLAUDE_MD]) {
        case Text(text) => r := ProjectFromFrontmatter(text);
        case _ => r := None;
      }
      return;
    }
    var dir := start;
    while true
      invariant top <= dir && Claim(d, dir, top) == Claim(d, start, top)
      decreases |dir|
    {
      match Read(d, dir + [CLAUDE_MD]) {
        case Text(text) =>
          r := ProjectFromFrontmatter(text);
          return;
        case InvalidData => return None;
        case Unreadable =>
      }
      if dir == top {
        return None;
      }
      dir := dir[..|dir| - 1];
    }
  }

  // ---------------------------------------------------------------------- pins

  predicate IsUtf8(c: Component) {
    forall i :: 0 <= i < |c| ==> c[i].Chr?
  }

  /** A name as text; each run of foreign bytes reads as the replacement character. */
  function Lossy(c: Component): (r: string)
    ensures |r| == |c|
    ensures forall i :: 0 <= i < |c| ==> r[i] == if c[i].Chr? then c[i].c else '\U{FFFD}'
  {
    seq(|c|, i requires 0 <= i < |c| => if c[i].Chr? then c[i].c else '\U{FFFD}')
  }

  /** A pin is filed under the lossy text of the toplevel's path. */
  function PinKey(dir: Path): string {
    if dir == [] then "" else PinKey(dir[..|dir| - 1]) + "/" + Lossy(dir[|dir| - 1])
  }

  /** The final component as a usable name. */
  function DirName(p: Path): Option<string> {
    if p == [] || !IsUtf8(p[|p| - 1]) then None else NonEmpty(Trim(Lossy(p[|p| - 1])))
  }

  class NamespacePins {
    var pins: map<string, string>

    constructor ()
      ensures pins == map[]
    {
      pins := map[];
    }

    function Pinned(dir: Path): Option<string>
      reads this
    {
      Lookup(pins, dir)
    }

    method Insert(dir: Path, namespace: string)
      modifies this
      ensures pins == Recorded(old(pins), dir, namespace)
    {
      pins := pins[PinKey(dir) := namespace];
    }

    /** Record an override the user accepted. */
    method AcceptOverride(o: Override) returns (r: Namespace)
      modifies this
      ensures pins == Recorded(old(pins), o.toplevel, o.claimed) && r == Project(o.claimed)
    {
      Insert(o.toplevel, o.claimed);
      r := Project(o.claimed);
    }
  }

  function Lookup(pins: map<string, string>, dir: Path): Option<string> {
    if PinKey(dir) in pins then Some(pins[PinKey(dir)]) else None
  }

  function Recorded(pins: map<string, string>, dir: Path, namespace: string): map<string, string> {
    pins[PinKey(dir) := namespace]
  }

  // ---------------------------------------------------------------- resolution

  function DivergenceOf(w: World, top: Path, committed: Option<string>): Option<(Path, Divergence)> {
    match Read(w.disk, top + [REPO_CONFIG])
    case Text(worktree) =>
      if committed.None? then Some((top, Untracked))
      else if committed.value != worktree then Some((top, Modified))
      else None
    case _ => None
  }

  function CommittedNamespace(w: World, committed: Option<string>): Option<string> {
    if committed.None? || w.tomlNamespace(committed.value).None? then None
    else NonEmpty(Trim(w.tomlNamespace(committed.value).value))
  }

  function ExplicitName(explicit: Option<string>): Option<string> {
    if explicit.None? then None else NonEmpty(Trim(explicit.value))
  }

  function ByDirectory(start: Path): Namespace {
    if DirName(start).Some? then Project(DirName(start).value) else Global
  }

  /** The name frontmatter and pins give a toplevel called `used`, and an override left unpinned. */
  function Gate(claim: Option<string>, used: string, top: Path, pins: map<string, string>)
    : (Namespace, Option<Override>)
  {
    if claim.None? || claim.value == used then (Project(used), None)
    else if Lookup(pins, top) == claim then (Project(claim.value), None)
    else (Project(used), Some(Override(claim.value, used, top)))
  }

  function Resolve(w: World, start: Path, explicit: Option<string>, pins: map<string, string>): Resolution {
    var chosen, root := ExplicitName(explicit), w.gitRoot(start);
    if chosen.Some? then Resolution(Project(chosen.value), None, None)
    else if root.None? then Resolution(ByDirectory(start), None, None)
    else InRoot(w, start, root.value, ClaimWithin(w.disk, start, root.value), pins)
  }

  /** In the repository at `top`, whose files claim `claim`. */
  function InRoot(w: World, start: Path, top: Path, claim: Option<string>, pins: map<string, string>): Resolution {
    var committed := w.headConfig(top);
    var divergence, identity := DivergenceOf(w, top, committed), CommittedNamespace(w, committed);
    if identity.Some? then Resolution(Project(identity.value), None, divergence)
    else if DirName(top).None? then Resolution(ByDirectory(start), None, divergence)
    else
      var (namespace, unpinned) := Gate(claim, DirName(top).value, top, pins);
      Resolution(namespace, unpinned, divergence)
  }

  method ResolveNamespaceIn(w: World, start: Path, explicit: Option<string>, pins: NamespacePins)
    returns (r: Resolution)
    ensures r == Resolve(w, start, explicit, pins.pins)
    ensures ResolutionSays(w, start, explicit, pins.pins, r)
  {
    ResolutionIs(w, start, explicit, pins.pins);
    if explicit.Some? && Trim(explicit.value) != "" {
      return Resolution(Project(Trim(explicit.value)), None, None);
    }
    var divergence := None;
    var root := w.gitRoot(start);
    if root.Some? {
      var top := root.value;
      var committed := w.headConfig(top);
      divergence := DivergenceOf(w, top, committed);
      var identity := CommittedNamespace(w, committed);
      if identity.Some? {
        return Resolution(Project(identity.value), None, divergence);
      }
      var name := DirName(top);
      var claimed := FrontmatterProjectWithin(w.disk, start, top);
      if name.Some? {
        if claimed.Some? && claimed.value == name.value {
          return Resolution(Project(claimed.value), None, divergence);
        }
        if claimed.Some? {
          if pins.Pinned(top) == Some(claimed.value) {
            return Resolution(Project(claimed.value), None, divergence);
          }
          return Resolution(Project(name.value), Some(Override(claimed.value, name.value, top)), divergence);
        }
        return Resolution(Project(name.value), None, divergence);
      }
    }
    var name := DirName(start);
    r := Resolution(if name.Some? then Project(name.value) else Global, None, divergence);
  }

  // ------------------------------------------------------------ what decides when

  /** The last component of the path is text, and not blank; this is it without the space around it. */
  ghost predicate HasName(p: Path, name: string) {
    && p != [] && name != "" && var last := p[|p| - 1];
       && (forall i :: 0 <= i < |last| ==> last[i].Chr?)
       && name == Trim(seq(|last|, i requires 0 <= i < |last| => last[i].c))
  }

  ghost predicate HasNoName(p: Path) {
    p != [] ==>
      var last := p[|p| - 1];
      (forall i :: 0 <= i < |last| ==> last[i].Chr?) ==>
        Trim(seq(|last|, i requires 0 <= i < |last| => last[i].c)) == ""
  }

  /** The directory's name, or everything. */
  ghost predicate NamedAfter(p: Path, namespace: Namespace) {
    if HasNoName(p) then namespace == Global else namespace.Project? && HasName(p, namespace.name)
  }

  /** The text of the worktree's identity file beside the committed one. */
  ghost predicate DivergenceSays(worktree: Content, committed: Option<string>, top: Path,
                                 divergence: Option<(Path, Divergence)>) {
    && (divergence == Some((top, Untracked)) <==> worktree.Text? && committed.None?)
    && (divergence == Some((top, Modified)) <==> worktree.Text? && committed.Some? && committed.value != worktree.text)
    && (divergence.None? <==> !worktree.Text? || committed == Some(worktree.text))
  }

  /** Neither explicit choice nor committed identity: frontmatter under its pin, or the toplevel's name. */
  ghost predicate GateSays(claim: Option<string>, top: Path, pinned: Option<string>, r: Resolution) {
    && r.namespace.Project?
    && (if claim.Some? && !HasName(top, claim.value) && pinned == claim then
          r.namespace.name == claim.value && r.unpinned.None?
        else
          && HasName(top, r.namespace.name)
          && r.unpinned == if claim.None? || claim.value == r.namespace.name then None
                           else Some(Override(claim.value, r.namespace.name, top)))
  }

  /** In order: a choice that is not blank; the identity committed in the repository, if not blank;
      frontmatter and the toplevel's name, if it has one; the start directory's name. */
  ghost predicate ResolutionSays(w: World, start: Path, explicit: Option<string>, pins: map<string, string>,
                                 r: Resolution) {
    if explicit.Some? && Trim(explicit.value) != "" then
      r == Resolution(Project(Trim(explicit.value)), None, None)
    else if w.gitRoot(start).None? then
      NamedAfter(start, r.namespace) && r.unpinned.None? && r.divergence.None?
    else
      var top := w.gitRoot(start).value;
      RootSays(w, start, top, ClaimWithin(w.disk, start, top), pins, r)
  }

  ghost predicate RootSays(w: World, start: Path, top: Path, claim: Option<string>, pins: map<string, string>,
                           r: Resolution) {
    var committed := w.headConfig(top);
    && DivergenceSays(Read(w.disk, top + [REPO_CONFIG]), committed, top, r.divergence)
    && (if CommitsTo(w, committed) then
          r.namespace == Project(Trim(w.tomlNamespace(committed.value).value)) && r.unpinned.None?
        else if HasNoName(top) then NamedAfter(start, r.namespace) && r.unpinned.None?
        else GateSays(claim, top, Lookup(pins, top), r))
  }

  ghost predicate CommitsTo(w: World, committed: Option<string>) {
    && committed.Some? && w.tomlNamespace(committed.value).Some?
    && Trim(w.tomlNamespace(committed.value).value) != ""
  }

  lemma {:induction false} DirNameIs(p: Path)
    ensures DirName(p).None? <==> HasNoName(p)
    ensures forall name :: DirName(p) == Some(name) <==> HasName(p, name)
  {
    if p != [] && IsUtf8(p[|p| - 1]) {
      var last := p[|p| - 1];
      assert Lossy(last) == seq(|last|, i requires 0 <= i < |last| => last[i].c);
    }
  }

  lemma {:induction false} ResolutionIs(w: World, start: Path, explicit: Option<string>, pins: map<string, string>)
    ensures ResolutionSays(w, start, explicit, pins, Resolve(w, start, explicit, pins))
  {
    DirectoryIs(start);
    if w.gitRoot(start).Some? {
      var top := w.gitRoot(start).value;
      InRootIs(w, start, top, ClaimWithin(w.disk, start, top), pins);
    }
  }

  lemma {:induction false} InRootIs(w: World, start: Path, top: Path, claim: Option<string>, pins: map<string, string>)
    ensures RootSays(w, start, top, claim, pins, InRoot(w, start, top, claim, pins))
  {
    DirectoryIs(start);
    DivergenceIs(w, top, w.headConfig(top));
    NamelessIs(top);
    if DirName(top).Some? { GateIs(claim, DirName(top).value, top, pins, DivergenceOf(w, top, w.headConfig(top))); }
  }

  lemma {:induction false} NamelessIs(p: Path)
    ensures DirName(p).None? <==> HasNoName(p)
  {
    DirNameIs(p);
  }

  lemma {:induction false} DirectoryIs(p: Path)
    ensures NamedAfter(p, ByDirectory(p))
  {
    DirNameIs(p);
  }

  lemma {:induction false} DivergenceIs(w: World, top: Path, committed: Option<string>)
    ensures DivergenceSays(Read(w.disk, top + [REPO_CONFIG]), committed, top, DivergenceOf(w, top, committed))
  {
  }

  lemma {:induction false} GateIs(claim: Option<string>, used: string, top: Path, pins: map<string, string>,
                                  divergence: Option<(Path, Divergence)>)
    requires DirName(top) == Some(used)
    ensures var (namespace, unpinned) := Gate(claim, used, top, pins);
            GateSays(claim, top, Lookup(pins, top), Resolution(namespace, unpinned, divergence))
  {
    DirNameIs(top);
  }

  // ----------------------------------------------------------- non-interference

  /** Physical files inside `top`, the worktree identity file among them or not. */
  ghost predicate Trusted(top: Path, identity: bool, p: Path) {
    top <= p && (identity || p != top + [REPO_CONFIG])
  }

  /** Two file systems store the same in every trusted file, and a name inside `top` leads to a
      trusted file in both or in neither, and then to the same one. */
  ghost predicate AgreeOn(d: Disk, e: Disk, top: Path, identity: bool) {
    && (forall p :: Trusted(top, identity, p) ==> Stored(d, p) == Stored(e, p))
    && (forall p :: top <= p && Trusted(top, identity, Target(d, p)) ==> Target(e, p) == Target(d, p))
    && (forall p :: top <= p && Trusted(top, identity, Target(e, p)) ==> Target(e, p) == Target(d, p))
  }

  /** Every `CLAUDE.md` consulted from `dir` up to `top` leads to a trusted file. */
  ghost predicate WalkTrusted(d: Disk, dir: Path, top: Path, identity: bool)
    requires top <= dir
    decreases |dir|
  {
    && Trusted(top, identity, Target(d, dir + [CLAUDE_MD]))
    && (Read(d, dir + [CLAUDE_MD]).Unreadable? && dir != top ==> WalkTrusted(d, dir[..|dir| - 1], top, identity))
  }

  ghost predicate ConsultsTrusted(d: Disk, start: Path, top: Path, identity: bool) {
    if top <= start then WalkTrusted(d, start, top, identity) else Trusted(top, identity, Target(d, top + [CLAUDE_MD]))
  }

  lemma {:induction false} TrustedWalkAgrees(d: Disk, e: Disk, dir: Path, top: Path, identity: bool)
    requires top <= dir && AgreeOn(d, e, top, identity) && WalkTrusted(d, dir, top, identity)
    ensures Claim(d, dir, top) == Claim(e, dir, top)
    decreases |dir|
  {
    assert top <= dir + [CLAUDE_MD];
    assert Target(e, dir + [CLAUDE_MD]) == Target(d, dir + [CLAUDE_MD]);
    assert Read(e, dir + [CLAUDE_MD]) == Read(d, dir + [CLAUDE_MD]);
    if Read(d, dir + [CLAUDE_MD]).Unreadable? && dir != top {
      TrustedWalkAgrees(d, e, dir[..|dir| - 1], top, identity);
    }
  }

  /** A file whose frontmatter claims `name`. */
  function Claiming(name: string): string {
    FENCE + "\n" + (PROJECT + name)
  }

  /** A name of one plain letter, other than `used`. */
  function OtherName(used: string): (r: string)
    ensures r != used
  {
    if used == "a" then "b" else "a"
  }

  lemma {:induction false} FirstNewline(s: string, rest: string)
    requires '\n' !in s && (rest == "" || rest[0] == '\n')
    ensures NewlineAt(s + rest) == |s|
  {
    if s != "" {
      assert (s + rest)[1..] == s[1..] + rest;
      FirstNewline(s[1..], rest);
    } else {
      assert s + rest == rest;
    }
  }

  lemma {:induction false} TwoLines(first: string, second: string)
    requires '\n' !in first && '\n' !in second && second != ""
    ensures Lines(first + "\n" + second) == [first, second]
  {
    var text := first + ("\n" + second);
    assert first + "\n" + second == text;
    FirstNewline(first, "\n" + second);
    assert text[..|first|] == first && text[|first| + 1..] == second;
    FirstNewline(second, "");
    assert second + "" == second && second[..|second|] == second;
    assert Lines(second) == [second];
  }

  /** Text that starts and ends with neither blank nor quote is left as it is. */
  lemma {:induction false} PlainText(s: string)
    requires s != "" && !IsWhitespace(s[0]) && !IsWhitespace(s[|s| - 1])
    ensures Trim(s) == s
    ensures !IsQuote(s[0]) && !IsQuote(s[|s| - 1]) ==> TrimQuotes(s) == s
  {
  }

  lemma {:induction false} ClaimingClaims(used: string)
    ensures FrontmatterProject(Lines(Claiming(OtherName(used)))) == Some(OtherName(used))
  {
    var name := OtherName(used);
    var line := PROJECT + name;
    TwoLines(FENCE, line);
    PlainText(FENCE);
    PlainText(line);
    PlainText(name);
    assert line != FENCE && line[|PROJECT|..] == name;
    var lines := [FENCE, line];
    assert lines[1..][0] == line;
  }

  /** The same file system with something else stored at one place. */
  function Rewritten(d: Disk, p: Path, content: Content): Disk {
    d.(files := d.files[p := content])
  }

  lemma RewritingAgrees(d: Disk, p: Path, content: Content, top: Path, identity: bool)
    requires !Trusted(top, identity, p)
    ensures AgreeOn(d, Rewritten(d, p, content), top, identity)
  {
  }

  /** If the walk meets a `CLAUDE.md` that leads to an untrusted file, whatever is stored there is the
      claim. */
  lemma {:induction false} UntrustedFileGoverns(d: Disk, dir: Path, top: Path, identity: bool) returns (p: Path)
    requires top <= dir && !WalkTrusted(d, dir, top, identity)
    ensures !Trusted(top, identity, p)
    ensures forall text :: Claim(Rewritten(d, p, Text(text)), dir, top) == FrontmatterProject(Lines(text))
    ensures Claim(Rewritten(d, p, InvalidData), dir, top) == None
    decreases |dir|
  {
    var name := dir + [CLAUDE_MD];
    if !Trusted(top, identity, Target(d, name)) {
      p := Target(d, name);
    } else {
      p := UntrustedFileGoverns(d, dir[..|dir| - 1], top, identity);
      assert Target(d, name) != p;
      assert forall content :: Read(Rewritten(d, p, content), name) == Unreadable;
    }
  }

  lemma {:induction false} UntrustedFileGovernsWithin(d: Disk, start: Path, top: Path, identity: bool) returns (p: Path)
    requires !ConsultsTrusted(d, start, top, identity)
    ensures !Trusted(top, identity, p)
    ensures forall text :: ClaimWithin(Rewritten(d, p, Text(text)), start, top) == FrontmatterProject(Lines(text))
    ensures ClaimWithin(Rewritten(d, p, InvalidData), start, top) == None
  {
    if top <= start {
      p := UntrustedFileGoverns(d, start, top, identity);
    } else {
      p := Target(d, top + [CLAUDE_MD]);
    }
  }

  /** The same world over another file system. */
  function On(w: World, d: Disk): World {
    w.(disk := d)
  }

  /** The namespace and the override that is reported. */
  function Outcome(w: World, start: Path, explicit: Option<string>, pins: map<string, string>)
    : (Namespace, Option<Override>)
  {
    var r := Resolve(w, start, explicit, pins);
    (r.namespace, r.unpinned)
  }

  /** Nothing stored outside the trusted files can change the outcome. */
  ghost predicate Undisturbed(w: World, start: Path, explicit: Option<string>, pins: map<string, string>, top: Path,
                              identity: bool) {
    forall d: Disk :: AgreeOn(w.disk, d, top, identity) ==>
      Outcome(On(w, d), start, explicit, pins) == Outcome(w, start, explicit, pins)
  }

  /** Exactly when files outside the git toplevel (and, with `identity` off, the worktree identity
      file) have no say in the namespace or the reported override: when something stronger than
      frontmatter decides, or every `CLAUDE.md` consulted leads to a file inside. */
  lemma {:induction false} UndisturbedExactlyWhen(w: World, start: Path, explicit: Option<string>,
                                                  pins: map<string, string>, top: Path, identity: bool)
    requires w.gitRoot(start).Some? ==> w.gitRoot(start).value == top
    ensures Undisturbed(w, start, explicit, pins, top, identity)
       <==> (Governed(w, start, explicit, top) ==> ConsultsTrusted(w.disk, start, top, identity))
  {
    if !Governed(w, start, explicit, top) {
      forall d: Disk ensures Outcome(On(w, d), start, explicit, pins) == Outcome(w, start, explicit, pins) {
        UngovernedOutcome(w, d, start, explicit, pins, top);
      }
    } else if ConsultsTrusted(w.disk, start, top, identity) {
      forall d: Disk | AgreeOn(w.disk, d, top, identity)
        ensures Outcome(On(w, d), start, explicit, pins) == Outcome(w, start, explicit, pins)
      {
        TrustedClaimsAgree(w.disk, d, start, top, identity);
        GovernedOutcome(w, start, explicit, pins, top);
        GovernedOutcome(On(w, d), start, explicit, pins, top);
      }
    } else {
      var a, b := LinkedFileDecides(w, start, explicit, pins, top, identity);
      assert Outcome(On(w, a), start, explicit, pins) != Outcome(On(w, b), start, explicit, pins);
    }
  }

  lemma {:induction false} TrustedClaimsAgree(d: Disk, e: Disk, start: Path, top: Path, identity: bool)
    requires AgreeOn(d, e, top, identity) && ConsultsTrusted(d, start, top, identity)
    ensures ClaimWithin(d, start, top) == ClaimWithin(e, start, top)
  {
    if top <= start {
      TrustedWalkAgrees(d, e, start, top, identity);
    } else {
      assert top <= top + [CLAUDE_MD];
      assert Target(e, top + [CLAUDE_MD]) == Target(d, top + [CLAUDE_MD]);
    }
  }

  lemma {:induction false} UngovernedOutcome(w: World, d: Disk, start: Path, explicit: Option<string>,
                                             pins: map<string, string>, top: Path)
    requires (w.gitRoot(start).Some? ==> w.gitRoot(start).value == top) && !Governed(w, start, explicit, top)
    ensures Outcome(On(w, d), start, explicit, pins) == Outcome(w, start, explicit, pins)
  {
  }

  lemma {:induction false} GovernedOutcome(w: World, start: Path, explicit: Option<string>, pins: map<string, string>,
                                           top: Path)
    requires Governed(w, start, explicit, top)
    ensures Outcome(w, start, explicit, pins) == Gate(ClaimWithin(w.disk, start, top), DirName(top).value, top, pins)
  {
  }

  /** A consulted `CLAUDE.md` that leads outside: two file systems that agree on everything trusted
      resolve differently, and to different namespaces once the claim is pinned. */
  lemma {:induction false} LinkedFileDecides(w: World, start: Path, explicit: Option<string>, pins: map<string, string>,
                                             top: Path, identity: bool) returns (a: Disk, b: Disk)
    requires Governed(w, start, explicit, top) && !ConsultsTrusted(w.disk, start, top, identity)
    ensures AgreeOn(w.disk, a, top, identity) && AgreeOn(w.disk, b, top, identity)
    ensures Outcome(On(w, a), start, explicit, pins) != Outcome(On(w, b), start, explicit, pins)
    ensures var used := DirName(top).value;
            Lookup(pins, top) == Some(OtherName(used)) ==>
              && Resolve(On(w, a), start, explicit, pins).namespace == Project(used)
              && Resolve(On(w, b), start, explicit, pins).namespace == Project(OtherName(used))
  {
    var used := DirName(top).value;
    var p := UntrustedFileGovernsWithin(w.disk, start, top, identity);
    a, b := Rewritten(w.disk, p, InvalidData), Rewritten(w.disk, p, Text(Claiming(OtherName(used))));
    RewritingAgrees(w.disk, p, InvalidData, top, identity);
    RewritingAgrees(w.disk, p, Text(Claiming(OtherName(used))), top, identity);
    ClaimingClaims(used);
    GovernedOutcome(On(w, a), start, explicit, pins, top);
    GovernedOutcome(On(w, b), start, explicit, pins, top);
  }

  // ------------------------------------------------------------------ pin gating

  /** Frontmatter is what decides: inside a repository with a usable name and no stronger identity. */
  ghost predicate Governed(w: World, start: Path, explicit: Option<string>, top: Path) {
    && ExplicitName(explicit).None? && w.gitRoot(start) == Some(top)
    && CommittedNamespace(w, w.headConfig(top)).None? && DirName(top).Some?
  }

  /** A claim other than the toplevel's own name is used exactly when it is pinned to that very value;
      otherwise the toplevel's name is used and the claim is reported. */
  lemma {:induction false} ClaimNeedsPin(w: World, start: Path, explicit: Option<string>, pins: map<string, string>,
                                         top: Path, claimed: string)
    requires Governed(w, start, explicit, top) && ClaimWithin(w.disk, start, top) == Some(claimed)
    requires claimed != DirName(top).value
    ensures var r := Resolve(w, start, explicit, pins);
            && (r.namespace == Project(claimed) <==> Lookup(pins, top) == Some(claimed))
            && (r.unpinned.None? <==> Lookup(pins, top) == Some(claimed))
            && (Lookup(pins, top) != Some(claimed) ==>
                  r.namespace == Project(DirName(top).value)
                  && r.unpinned == Some(Override(claimed, DirName(top).value, top)))
  {
  }

  /** Once an override is accepted, its claim is honoured from every start directory it governs. */
  lemma {:induction false} AcceptedClaimIsHonoured(w: World, start: Path, explicit: Option<string>,
                                                   pins: map<string, string>, o: Override, other: Path)
    requires Resolve(w, start, explicit, pins).unpinned == Some(o)
    requires Governed(w, other, None, o.toplevel) && ClaimWithin(w.disk, other, o.toplevel) == Some(o.claimed)
    ensures var r := Resolve(w, other, None, Recorded(pins, o.toplevel, o.claimed));
            r.namespace == Project(o.claimed) && r.unpinned.None?
    ensures Governed(w, start, explicit, o.toplevel) && ClaimWithin(w.disk, start, o.toplevel) == Some(o.claimed)
  {
  }

  // ------------------------------------------------------------------- pin keys

  predicate IsName(c: Component) {
    c != [] && forall i :: 0 <= i < |c| ==> c[i] != Chr('/')
  }

  predicate IsPath(p: Path) {
    forall i :: 0 <= i < |p| ==> IsName(p[i])
  }

  /** Paths that read the same once foreign bytes are replaced. */
  ghost predicate LookAlike(p: Path, q: Path) {
    |p| == |q| && forall i :: 0 <= i < |p| ==> Lossy(p[i]) == Lossy(q[i])
  }

  /** Cut two equal texts at their last slash. */
  lemma SplitAtLastSlash(p: string, q: string, r: string, s: string)
    requires p + "/" + q == r + "/" + s && '/' !in q && '/' !in s
    ensures p == r && q == s
  {
    var u, v := p + "/" + q, r + "/" + s;
    assert u[|p|] == '/' && v[|r|] == '/';
    assert forall i :: |p| < i < |u| ==> u[i] == q[i - |p| - 1] && u[i] in q;
    assert forall i :: |r| < i < |v| ==> v[i] == s[i - |r| - 1] && v[i] in s;
    assert |p| == |r|;
    assert p == u[..|p|] && r == v[..|r|] && q == u[|p| + 1..] && s == v[|r| + 1..];
  }

  lemma {:induction false} SameKeyLooksAlike(p: Path, q: Path)
    requires IsPath(p) && IsPath(q) && PinKey(p) == PinKey(q)
    ensures LookAlike(p, q)
  {
    if p != [] && q != [] {
      var m, n := |p| - 1, |q| - 1;
      SplitAtLastSlash(PinKey(p[..m]), Lossy(p[m]), PinKey(q[..n]), Lossy(q[n]));
      SameKeyLooksAlike(p[..m], q[..n]);
      forall i | 0 <= i < |p| ensures Lossy(p[i]) == Lossy(q[i]) {
        if i < m { assert p[..m][i] == p[i] && q[..n][i] == q[i]; }
      }
    }
  }

  lemma {:induction false} LookAlikesShareKey(p: Path, q: Path)
    requires LookAlike(p, q)
    ensures PinKey(p) == PinKey(q)
  {
    if p != [] {
      var n := |p| - 1;
      forall i | 0 <= i < n ensures Lossy(p[..n][i]) == Lossy(q[..n][i]) {
        assert p[..n][i] == p[i] && q[..n][i] == q[i];
      }
      LookAlikesShareKey(p[..n], q[..n]);
    }
  }

  /** A recorded pin is found from exactly the toplevels that look like the one it was recorded for,
      whatever their bytes; all other lookups are unchanged. */
  lemma {:induction false} PinReaches(pins: map<string, string>, top: Path, namespace: string, other: Path)
    requires IsPath(top) && IsPath(other)
    ensures LookAlike(top, other) ==> Lookup(Recorded(pins, top, namespace), other) == Some(namespace)
    ensures !LookAlike(top, other) ==> Lookup(Recorded(pins, top, namespace), other) == Lookup(pins, other)
  {
    if LookAlike(top, other) { LookAlikesShareKey(top, other); }
    if PinKey(top) == PinKey(other) { SameKeyLooksAlike(top, other); }
  }

  ghost predicate AllUtf8(p: Path) {
    forall i :: 0 <= i < |p| ==> IsUtf8(p[i])
  }

  /** Between UTF-8 paths the pin reaches the toplevel itself and no other. */
  lemma {:induction false} Utf8LookAlikesAreEqual(p: Path, q: Path)
    requires AllUtf8(p) && AllUtf8(q) && LookAlike(p, q)
    ensures p == q
  {
    forall i | 0 <= i < |p| ensures p[i] == q[i] {
      forall k | 0 <= k < |p[i]| ensures p[i][k] == q[i][k] {
        assert Lossy(p[i])[k] == Lossy(q[i])[k];
      }
    }
  }

  /** The resolvers both callers pass: what git prints is taken only if it is UTF-8. */
  ghost predicate Utf8Resolver(w: World) {
    forall p :: w.gitRoot(p).Some? ==> IsPath(w.gitRoot(p).value) && AllUtf8(w.gitRoot(p).value)
  }

  /** With such a resolver an accepted override reaches its own toplevel and no other. */
  lemma {:induction false} AcceptedPinReachesItsOwn(w: World, start: Path, explicit: Option<string>,
                                                    pins: map<string, string>, o: Override, other: Path)
    requires Utf8Resolver(w) && Resolve(w, start, explicit, pins).unpinned == Some(o)
    requires w.gitRoot(other).Some?
    ensures var top := w.gitRoot(other).value;
            Lookup(Recorded(pins, o.toplevel, o.claimed), top) ==
              (if top == o.toplevel then Some(o.claimed) else Lookup(pins, top))
  {
    var top := w.gitRoot(other).value;
    assert w.gitRoot(start) == Some(o.toplevel);
    PinReaches(pins, o.toplevel, o.claimed, top);
    if LookAlike(o.toplevel, top) { Utf8LookAlikesAreEqual(o.toplevel, top); }
  }

  /** The pin interface itself does not demand UTF-8: for a caller with other resolvers, two different
      toplevels told apart only by foreign bytes in a parent's name share their pin. */
  lemma {:induction false} ForeignBytesShareAPin(pins: map<string, string>, namespace: string, a: seq<nat>, b: seq<nat>,
                                                 name: Component)
    requires a != b && IsName(name)
    ensures var p, q := [[Bad(a)], name], [[Bad(b)], name];
            p != q && Lookup(Recorded(pins, p, namespace), q) == Some(namespace)
  {
    var p, q := [[Bad(a)], name], [[Bad(b)], name];
    assert p[0][0] != q[0][0];
    assert Lossy([Bad(a)]) == Lossy([Bad(b)]);
    assert LookAlike(p, q);
    LookAlikesShareKey(p, q);
  }
}
