/** Unified-diff statistics: the text produced by the diff library is split into
    lines, the two file-header lines are skipped, and the remaining lines that
    start with "+" or "-" are counted.  The diff algorithm itself is not modelled:
    its output (or its error) is an input here. */
module DiffStats {
  import opened Text

  datatype DiffResult = DiffResult(unifiedDiff: string, addedLines: nat, removedLines: nat)

  /** difflib.SplitLines: the pieces between newlines, each with its newline
      (the last piece gets one added). */
  function SplitLines(s: string): (lines: seq<string>)
    ensures |lines| >= 1
  {
    WithNewline(Split(s, '\n'))
  }

  function WithNewline(parts: seq<string>): (r: seq<string>)
    ensures |r| == |parts|
    ensures forall k :: 0 <= k < |parts| ==> r[k] == parts[k] + "\n"
  {
    if |parts| == 0 then [] else [parts[0] + "\n"] + WithNewline(parts[1..])
  }

  predicate IsAdded(line: string) {
    HasPrefix(line, "+")
  }

  predicate IsRemoved(line: string) {
    HasPrefix(line, "-")
  }

  /** The number of lines starting with "+". */
  function AddedIn(lines: seq<string>): (n: nat)
    ensures n <= |lines|
  {
    if |lines| == 0 then 0 else (if IsAdded(lines[0]) then 1 else 0) + AddedIn(lines[1..])
  }

  /** The number of lines starting with "-". */
  function RemovedIn(lines: seq<string>): (n: nat)
    ensures n <= |lines|
  {
    if |lines| == 0 then 0 else (if IsRemoved(lines[0]) then 1 else 0) + RemovedIn(lines[1..])
  }

  lemma {:induction false} AddedInAppend(lines: seq<string>, line: string)
    ensures AddedIn(lines + [line]) == AddedIn(lines) + (if IsAdded(line) then 1 else 0)
    ensures RemovedIn(lines + [line]) == RemovedIn(lines) + (if IsRemoved(line) then 1 else 0)
    decreases |lines|
  {
    if |lines| > 0 {
      assert (lines + [line])[1..] == lines[1..] + [line];
      AddedInAppend(lines[1..], line);
    }
  }

  /** The counting loop over the lines after the two headers. */
  method CountChanges(lines: seq<string>) returns (added: nat, removed: nat)
    requires |lines| >= 2
    ensures added == AddedIn(lines[2..]) && removed == RemovedIn(lines[2..])
  {
    added, removed := 0, 0;
    var i := 2;
    while i < |lines|
      invariant 2 <= i <= |lines|
      invariant added == AddedIn(lines[2..i]) && removed == RemovedIn(lines[2..i])
    {
      AddedInAppend(lines[2..i], lines[i]);
      assert lines[2..i + 1] == lines[2..i] + [lines[i]];
      if HasPrefix(lines[i], "+") {
        added := added + 1;
      } else if HasPrefix(lines[i], "-") {
        removed := removed + 1;
      }
      i := i + 1;
    }
    assert lines[2..i] == lines[2..];
  }

  /** GenerateUnifiedDiff, given what the diff library returned: an error is
      wrapped; an empty text counts nothing; otherwise the lines after the two
      headers are counted (a text of fewer than two lines would make the slice
      fail, which the library never produces). */
  method Generate(library: Result<string, string>) returns (r: Result<DiffResult, string>)
    ensures library.Err? ==> r == Err("failed to generate unified diff: " + library.error)
    ensures library.Ok? && library.value == "" ==> r == Ok(DiffResult("", 0, 0))
    ensures library.Ok? && library.value != "" && |SplitLines(library.value)| < 2 ==> r.Err?
    ensures library.Ok? && library.value != "" && |SplitLines(library.value)| >= 2 ==>
              r == Ok(DiffResult(library.value, AddedIn(SplitLines(library.value)[2..]),
                                 RemovedIn(SplitLines(library.value)[2..])))
  {
    if library.Err? {
      return Err("failed to generate unified diff: " + library.error);
    }
    var text := library.value;
    if text == "" {
      return Ok(DiffResult(text, 0, 0));
    }
    var lines := SplitLines(text);
    if |lines| < 2 {
      return Err("slice bounds out of range");
    }
    var added, removed := CountChanges(lines);
    return Ok(DiffResult(text, added, removed));
  }

  // ---------------------------------------------------------------------------

  /** No line is both added and removed, so the counts never exceed the number of
      body lines. */
  lemma {:induction false} CountsBounded(lines: seq<string>)
    ensures AddedIn(lines) + RemovedIn(lines) <= |lines|
    decreases |lines|
  {
    if |lines| > 0 {
      CountsBounded(lines[1..]);
    }
  }

  /** The two header lines never count, whatever they hold. */
  lemma HeadersNotCounted(h1: string, h2: string, body: seq<string>)
    ensures AddedIn(([h1, h2] + body)[2..]) == AddedIn(body)
    ensures RemovedIn(([h1, h2] + body)[2..]) == RemovedIn(body)
  {
    assert ([h1, h2] + body)[2..] == body;
  }

  /** A line of the text starts with "+" exactly when the text piece does (the
      added newline never makes a line count). */
  lemma {:induction false} CountsOfText(parts: seq<string>)
    ensures AddedIn(WithNewline(parts)) == AddedIn(parts)
    ensures RemovedIn(WithNewline(parts)) == RemovedIn(parts)
    decreases |parts|
  {
    if |parts| > 0 {
      CountsOfText(parts[1..]);
      assert WithNewline(parts)[1..] == WithNewline(parts[1..]);
      var p := parts[0];
      assert |p| > 0 ==> (p + "\n")[..1] == p[..1];
    }
  }

  /** A diff text assembled from newline-free lines is counted line by line:
      the counts are those of its lines after the first two. */
  lemma {:induction false} CountsOfLines(parts: seq<string>)
    requires |parts| >= 2
    requires forall k :: 0 <= k < |parts| ==> '\n' !in parts[k]
    ensures SplitLines(Join(parts, "\n")) == WithNewline(parts)
    ensures AddedIn(SplitLines(Join(parts, "\n"))[2..]) == AddedIn(parts[2..])
    ensures RemovedIn(SplitLines(Join(parts, "\n"))[2..]) == RemovedIn(parts[2..])
  {
    SplitJoin(parts, '\n');
    assert SplitLines(Join(parts, "\n")) == WithNewline(parts);
    assert WithNewline(parts)[2..] == WithNewline(parts[2..]);
    CountsOfText(parts[2..]);
  }

  /** A concrete hunk: one line removed and one added; the hunk header and the
      empty last piece count for neither. */
  lemma ExampleCounts()
    ensures AddedIn(["@@ -1 +1 @@", "-x", "+y", ""]) == 1
    ensures RemovedIn(["@@ -1 +1 @@", "-x", "+y", ""]) == 1
  {
    var body := ["@@ -1 +1 @@", "-x", "+y", ""];
    assert AddedIn(body[3..]) == 0 && RemovedIn(body[3..]) == 0;
    assert AddedIn(body[2..]) == 1 && RemovedIn(body[2..]) == 0;
    assert AddedIn(body[1..]) == 1 && RemovedIn(body[1..]) == 1;
  }
}
