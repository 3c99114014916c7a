/**
 What the frontmatter parser and the walk read: lines, quotes, the deciding line, the governing file
 (crates/rb-config/src/namespace.rs:291-343).
 */
module Frontmatter {
  import opened Common
  import opened Namespace

  // ----------------------------------------------------------------------- lines

  /** Lines put back together. */
  function Joined(lines: seq<string>): string {
    if lines == [] then "" else if |lines| == 1 then lines[0] else lines[0] + "\n" + Joined(lines[1..])
  }

  /** Splitting loses nothing: no line holds a terminator, and joining them gives the text back, but for a
      terminator at its very end. */
  lemma {:induction false} LinesRoundTrip(text: string)
    ensures forall i :: 0 <= i < |Lines(text)| ==> '\n' !in Lines(text)[i]
    ensures Joined(Lines(text)) == text || Joined(Lines(text)) + "\n" == text
  {
    NoLineHoldsNewline(text);
    JoinLines(text);
  }

  lemma {:induction false} NoLineHoldsNewline(text: string)
    ensures forall i :: 0 <= i < |Lines(text)| ==> '\n' !in Lines(text)[i]
    decreases |text|
  {
    if text != "" {
      var k := NewlineAt(text);
      NoNewlineBefore(text);
      if k < |text| { NoLineHoldsNewline(text[k + 1..]); }
    }
  }

  /** The text, but for a terminator at its end. */
  ghost predicate IsJoin(text: string, joined: string) {
    joined == text || joined + "\n" == text
  }

  lemma {:induction false} JoinLines(text: string)
    ensures IsJoin(text, Joined(Lines(text)))
    decreases |text|
  {
    if text != "" {
      var k := NewlineAt(text);
      if k < |text| {
        var rest := text[k + 1..];
        JoinLines(rest);
        JoinCons(text[..k], Lines(rest));
        assert rest == "" <==> Lines(rest) == [];
        JoinNext(text, k, Joined(Lines(rest)));
      } else {
        assert text[..k] == text;
      }
    }
  }

  lemma {:induction false} JoinCons(line: string, lines: seq<string>)
    ensures Joined([line] + lines) == if lines == [] then line else line + "\n" + Joined(lines)
  {
    assert ([line] + lines)[1..] == lines;
  }

  lemma {:induction false} JoinNext(text: string, k: nat, joined: string)
    requires k < |text| && text[k] == '\n' && IsJoin(text[k + 1..], joined)
    ensures IsJoin(text, text[..k] + "\n" + joined)
    ensures text[k + 1..] == "" ==> IsJoin(text, text[..k])
  {
    assert text == text[..k] + "\n" + text[k + 1..];
    assert text[..k] + "\n" + joined + "\n" == text[..k] + "\n" + (joined + "\n");
  }

  lemma {:induction false} NoNewlineBefore(text: string)
    ensures '\n' !in text[..NewlineAt(text)]
  {
    if text != "" && text[0] != '\n' {
      NoNewlineBefore(text[1..]);
      assert text[..NewlineAt(text)] == [text[0]] + text[1..][..NewlineAt(text[1..])];
    }
  }

  // ---------------------------------------------------------------------- quotes

  /** `t` is what `s` holds from `at` on, with nothing but quotes around it and none at its ends. */
  ghost predicate IsUnquoted(s: string, t: string, at: nat) {
    && at + |t| <= |s| && s[at..at + |t|] == t
    && (forall i :: 0 <= i < at ==> IsQuote(s[i])) && (forall i :: at + |t| <= i < |s| ==> IsQuote(s[i]))
    && (t != "" ==> !IsQuote(t[0]) && !IsQuote(t[|t| - 1]))
  }

  lemma {:induction false} TrimQuotesIs(s: string) returns (at: nat)
    ensures IsUnquoted(s, TrimQuotes(s), at)
  {
    at := 0;
    if s != "" && IsQuote(s[0]) {
      var k := TrimQuotesIs(s[1..]);
      at := k + 1;
      assert forall i :: 0 < i < |s| ==> s[i] == s[1..][i - 1];
    } else if s != "" && IsQuote(s[|s| - 1]) {
      at := TrimQuotesIs(s[..|s| - 1]);
      assert forall i :: 0 <= i < |s| - 1 ==> s[i] == s[..|s| - 1][i];
    }
  }

  // -------------------------------------------------------------- the deciding line

  /** A line ends the block or names the project. */
  ghost predicate Decides(line: string) {
    Trim(line) == "---" || "project:" <= Trim(line)
  }

  /** The project of a text with these lines: the first must be a fence; of the others the first that
      decides counts, and it names the project with its value, unless that is blank. */
  ghost predicate ProjectSays(lines: seq<string>, r: Option<string>) {
    if lines == [] || Trim(lines[0]) != "---" then r.None?
    else if k :| 1 <= k < |lines| && Decides(lines[k]) && NoneDecides(lines, k) then
      if Trim(lines[k]) == "---" then r.None?
      else
        var value := Trim(TrimQuotes(Trim(Trim(lines[k])[8..])));
        r == if value == "" then None else Some(value)
    else r.None?
  }

  ghost predicate NoneDecides(lines: seq<string>, k: nat)
    requires k <= |lines|
  {
    forall i :: 1 <= i < k ==> !Decides(lines[i])
  }

  lemma {:induction false} FirstDecides(lines: seq<string>, k: nat)
    requires 1 <= k <= |lines| && NoneDecides(lines, k)
    ensures ProjectIn(lines[1..]) == ProjectIn(lines[k..])
    decreases k
  {
    if k > 1 {
      FirstDecides(lines, k - 1);
      assert !Decides(lines[k - 1]);
      assert lines[k - 1..][0] == lines[k - 1] && lines[k - 1..][1..] == lines[k..];
    }
  }

  lemma {:induction false} FrontmatterIs(lines: seq<string>)
    ensures ProjectSays(lines, FrontmatterProject(lines))
  {
    if lines != [] && Trim(lines[0]) == "---" {
      if k :| 1 <= k < |lines| && Decides(lines[k]) && NoneDecides(lines, k) {
        forall j | 1 <= j < |lines| && Decides(lines[j]) && NoneDecides(lines, j) ensures j == k {
        }
        FirstDecides(lines, k);
        assert lines[k..][0] == lines[k];
      } else {
        NeverDecides(lines, |lines|);
        FirstDecides(lines, |lines|);
      }
    }
  }

  lemma {:induction false} NeverDecides(lines: seq<string>, n: nat)
    requires 1 <= n <= |lines|
    requires !exists k :: 1 <= k < |lines| && Decides(lines[k]) && NoneDecides(lines, k)
    ensures NoneDecides(lines, n)
    decreases n
  {
    if n > 1 {
      NeverDecides(lines, n - 1);
      assert !Decides(lines[n - 1]);
    }
  }

  // ------------------------------------------------------------- the governing file

  /** The directory `k` levels up. */
  function Up(dir: Path, k: nat): Path
    requires k <= |dir|
  {
    dir[..|dir| - k]
  }

  /** The nearest `CLAUDE.md` that is there at all, from `start` up to and including `top`, governs: its
      project is the claim; one that is no regular text of bounded size, or none at all, claims nothing. */
  ghost predicate ClaimSays(d: Disk, start: Path, top: Path, r: Option<string>)
    requires top <= start
  {
    && (forall k :: Governs(d, start, top, k) ==>
          var content := Read(d, Up(start, k) + [CLAUDE_MD]);
          if content.Text? then ProjectSays(Lines(content.text), r) else r.None?)
    && ((forall k :: !Governs(d, start, top, k)) ==> r.None?)
  }

  ghost predicate Governs(d: Disk, start: Path, top: Path, k: nat)
    requires top <= start
  {
    && k <= |start| - |top| && !Read(d, Up(start, k) + [CLAUDE_MD]).Unreadable?
    && forall j :: 0 <= j < k ==> Read(d, Up(start, j) + [CLAUDE_MD]).Unreadable?
  }

  lemma {:induction false} ClaimIs(d: Disk, start: Path, top: Path)
    requires top <= start
    ensures ClaimSays(d, start, top, Claim(d, start, top))
  {
    forall k | Governs(d, start, top, k)
      ensures var content := Read(d, Up(start, k) + [CLAUDE_MD]);
              Claim(d, start, top) == if content.Text? then FrontmatterProject(Lines(content.text)) else None
    {
      ClaimFrom(d, start, top, k);
    }
    forall k | Governs(d, start, top, k) && Read(d, Up(start, k) + [CLAUDE_MD]).Text?
      ensures ProjectSays(Lines(Read(d, Up(start, k) + [CLAUDE_MD]).text), Claim(d, start, top))
    {
      FrontmatterIs(Lines(Read(d, Up(start, k) + [CLAUDE_MD]).text));
    }
    if forall k :: !Governs(d, start, top, k) {
      NothingThere(d, start, top, |start| - |top|);
      ClaimFrom(d, start, top, |start| - |top|);
    }
  }

  lemma {:induction false} ClaimFrom(d: Disk, start: Path, top: Path, k: nat)
    requires top <= start && k <= |start| - |top|
    requires forall j :: 0 <= j < k ==> Read(d, Up(start, j) + [CLAUDE_MD]).Unreadable?
    ensures top <= Up(start, k) && Claim(d, start, top) == Claim(d, Up(start, k), top)
    decreases k
  {
    if k > 0 {
      ClaimFrom(d, start, top, k - 1);
      var dir := Up(start, k - 1);
      assert Read(d, dir + [CLAUDE_MD]).Unreadable?;
      assert dir != top && dir[..|dir| - 1] == Up(start, k);
    } else {
      assert Up(start, 0) == start;
    }
  }

  lemma {:induction false} NothingThere(d: Disk, start: Path, top: Path, n: nat)
    requires top <= start && n <= |start| - |top| && forall k :: !Governs(d, start, top, k)
    ensures forall j :: 0 <= j <= n ==> Read(d, Up(start, j) + [CLAUDE_MD]).Unreadable?
  {
    if n > 0 { NothingThere(d, start, top, n - 1); }
    assert !Governs(d, start, top, n);
  }
}
