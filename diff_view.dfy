/** The diff viewer: each line of a unified diff is given a style (file header,
    hunk header, addition, removal or plain context); an absent or blank diff shows
    a placeholder instead. */
module DiffView {
  import opened Text
  import DiffStats

  datatype LineStyle = FileHeader | HunkHeader | AddedLine | RemovedLine | ContextLine

  /** getLineStyle: the checks in their order of precedence. */
  function StyleOf(line: string): LineStyle {
    if HasPrefix(line, "+++ ") || HasPrefix(line, "--- ") then FileHeader
    else if HasPrefix(line, "@@") then HunkHeader
    else if HasPrefix(line, "+") then AddedLine
    else if HasPrefix(line, "-") then RemovedLine
    else ContextLine
  }

  /** `!diff || diff.trim() === ""`. */
  predicate IsBlank(diff: Option<string>) {
    diff.None? || TrimSpace(diff.value) == ""
  }

  /** `replace(/\r\n/g, "\n")`: every CR directly followed by LF is dropped,
      scanning from the left. */
  function NormalizeNewlines(s: string): (r: string)
    ensures |r| <= |s|
    decreases |s|
  {
    if |s| >= 2 && s[0] == '\r' && s[1] == '\n' then "\n" + NormalizeNewlines(s[2..])
    else if |s| == 0 then ""
    else [s[0]] + NormalizeNewlines(s[1..])
  }

  /** What a row shows: an empty line is shown as one space. */
  function RowText(line: string): (t: string)
    ensures t != ""
    ensures line != "" ==> t == line
  {
    if line == "" then " " else line
  }

  datatype Row = Row(style: LineStyle, text: string)

  datatype Rendering = Placeholder(text: string) | Rows(rows: seq<Row>)

  /** The lines of a non-blank diff. */
  function Lines(diff: string): (lines: seq<string>)
    ensures |lines| >= 1
  {
    Split(NormalizeNewlines(diff), '\n')
  }

  function Render(diff: Option<string>, emptyText: string): (v: Rendering)
    ensures IsBlank(diff) <==> v.Placeholder?
    ensures v.Placeholder? ==> v.text == emptyText
    ensures v.Rows? ==> |v.rows| == |Lines(diff.value)|
  {
    if IsBlank(diff) then Placeholder(emptyText)
    else
      var lines := Lines(diff.value);
      Rows(seq(|lines|, k requires 0 <= k < |lines| => Row(StyleOf(lines[k]), RowText(lines[k]))))
  }

  // ---------------------------------------------------------------------------

  /** Each style names exactly the lines it is given to. */
  lemma StyleMeaning(line: string)
    ensures StyleOf(line) == FileHeader <==> HasPrefix(line, "+++ ") || HasPrefix(line, "--- ")
    ensures StyleOf(line) == HunkHeader <==>
              !HasPrefix(line, "+++ ") && !HasPrefix(line, "--- ") && HasPrefix(line, "@@")
    ensures StyleOf(line) == AddedLine <==> !HasPrefix(line, "+++ ") && HasPrefix(line, "+")
    ensures StyleOf(line) == RemovedLine <==> !HasPrefix(line, "--- ") && HasPrefix(line, "-")
    ensures StyleOf(line) == ContextLine <==> !HasPrefix(line, "+") && !HasPrefix(line, "-") && !HasPrefix(line, "@@")
  {
    PrefixFirst(line, "+++ ");
    PrefixFirst(line, "--- ");
    PrefixFirst(line, "@@");
    PrefixFirst(line, "+");
    PrefixFirst(line, "-");
  }

  lemma PrefixFirst(line: string, p: string)
    requires |p| >= 1
    ensures HasPrefix(line, p) ==> |line| >= 1 && line[0] == p[0] && HasPrefix(line, [p[0]])
  {
    if HasPrefix(line, p) {
      assert line[..1] == line[..|p|][..1];
    }
  }

  /** The placeholder is shown exactly for an absent diff or one made only of
      white space. */
  lemma BlankMeaning(diff: Option<string>)
    ensures IsBlank(diff) <==> diff.None? || AllSpace(diff.value)
  {
    if diff.Some? {
      TrimSpaceEmpty(diff.value);
    }
  }

  /** Normalising only ever drops carriage returns: with every CR removed, the
      text before and after is the same. */
  lemma {:induction false} NormalizeDropsOnlyCR(s: string)
    ensures DropCR(NormalizeNewlines(s)) == DropCR(s)
    decreases |s|
  {
    if |s| >= 2 && s[0] == '\r' && s[1] == '\n' {
      NormalizeDropsOnlyCR(s[2..]);
      assert DropCR(s) == DropCR(s[1..]);
      assert s[1..][1..] == s[2..];
      assert ("\n" + NormalizeNewlines(s[2..]))[1..] == NormalizeNewlines(s[2..]);
    } else if |s| > 0 {
      NormalizeDropsOnlyCR(s[1..]);
      assert ([s[0]] + NormalizeNewlines(s[1..]))[1..] == NormalizeNewlines(s[1..]);
    }
  }

  function DropCR(s: string): (r: string)
    ensures '\r' !in r
    decreases |s|
  {
    if |s| == 0 then "" else (if s[0] == '\r' then "" else [s[0]]) + DropCR(s[1..])
  }

  /** Text without carriage returns is left as it is. */
  lemma {:induction false} NormalizeWithoutCR(s: string)
    requires '\r' !in s
    ensures NormalizeNewlines(s) == s
    decreases |s|
  {
    if |s| > 0 {
      NormalizeWithoutCR(s[1..]);
      assert [s[0]] + s[1..] == s;
    }
  }

  /** One row per line: no row holds a newline, and the rows joined with
      newlines give back the normalised text. */
  lemma RowsAreLines(diff: string)
    ensures forall k :: 0 <= k < |Lines(diff)| ==> '\n' !in Lines(diff)[k]
    ensures Join(Lines(diff), "\n") == NormalizeNewlines(diff)
  {
    SplitPiecesFree(NormalizeNewlines(diff), '\n');
    JoinSplit(NormalizeNewlines(diff), '\n');
  }

  /** A rendered row keeps the style of its line and shows its text, a space for
      an empty line. */
  lemma RenderRows(diff: string, emptyText: string, k: nat)
    requires !IsBlank(Some(diff)) && k < |Lines(diff)|
    ensures Render(Some(diff), emptyText).rows[k] == Row(StyleOf(Lines(diff)[k]), RowText(Lines(diff)[k]))
  {
  }

  /** Viewer and counter agree on body lines other than "+++ "/"--- " lines: a
      line is styled as an addition iff the counter counts it as added, and as a
      removal iff counted as removed, provided it is no hunk header. */
  lemma ViewerAgreesWithCounter(line: string)
    requires !HasPrefix(line, "+++ ") && !HasPrefix(line, "--- ") && !HasPrefix(line, "@@")
    ensures StyleOf(line) == AddedLine <==> DiffStats.IsAdded(line)
    ensures StyleOf(line) == RemovedLine <==> DiffStats.IsRemoved(line)
  {
  }

  /** A body line starting with "+++ " (an added line whose text begins with
      "++ ") is counted as added by the counter but styled as a file header by
      the viewer. */
  lemma ViewerCounterDisagree()
    ensures StyleOf("+++ x") == FileHeader && DiffStats.IsAdded("+++ x")
    ensures StyleOf("--- x") == FileHeader && DiffStats.IsRemoved("--- x")
  {
  }
}
