/** Comment truncation for GROMACS topology and parameter files: a `;`
    starts a comment that runs to the end of the line, and there is no way
    to escape it. */
module Comments {
  import opened Wrappers

  /** The comment marker. */
  const Marker: char := ';'

  /** The position of the first `c` in `s`, as a left-to-right scan finds
      it; `None` when `s` holds no `c`. */
  function IndexOf(s: string, c: char): (r: Option<nat>)
    ensures r.None? <==> c !in s
    ensures r.Some? ==> r.value < |s| && s[r.value] == c && c !in s[..r.value]
    decreases |s|
  {
    if |s| == 0 then None
    else if s[0] == c then Some(0)
    else
      match IndexOf(s[1..], c)
      case None => None
      case Some(i) =>
        assert s[..i + 1] == [s[0]] + s[1..][..i];
        Some(i + 1)
  }

  /** The line handed to callers for one raw line: everything before the
      first marker followed by a newline, or the raw line untouched when it
      holds no marker. */
  function Truncate(line: string): (r: string)
    ensures Marker !in line ==> r == line
    ensures forall i | 0 <= i < |line| && line[i] == Marker && Marker !in line[..i] ::
              r == line[..i] + "\n"
    ensures Marker !in r
    ensures |r| <= |line|
    ensures Marker in line ==> 0 < |r| && r[|r| - 1] == '\n' && r[..|r| - 1] <= line
  {
    match IndexOf(line, Marker)
    case None => line
    case Some(idx) =>
      line[..idx] + "\n"
  }

  /** Truncating an already truncated line changes nothing. */
  lemma TruncateIdempotent(line: string)
    ensures Truncate(Truncate(line)) == Truncate(line)
  {
  }

  /** A line whose first character is the marker becomes a bare newline. */
  lemma CommentOnlyLine(line: string)
    requires 0 < |line| && line[0] == Marker
    ensures Truncate(line) == "\n"
  {
  }

  /** Whatever follows the first marker has no effect on the result. */
  lemma TruncateIgnoresTail(head: string, tail: string)
    requires Marker in head
    ensures Truncate(head + tail) == Truncate(head)
  {
  }

  /** Truncation at a known first marker: an instance of `Truncate`'s
      first-marker postcondition, with "no marker before `idx`" written
      position by position so that a concrete line can discharge it. */
  lemma TruncateAt(line: string, idx: nat)
    requires idx < |line| && line[idx] == Marker
    requires forall j | 0 <= j < idx :: line[j] != Marker
    ensures Truncate(line) == line[..idx] + "\n"
  {
  }

  /** A trailing comment is cut off and the terminator kept. */
  lemma TrailingCommentScenario()
    ensures Truncate("bond_params 1 2 300.0 ; comment text\n") == "bond_params 1 2 300.0 \n"
  {
    var line := "bond_params 1 2 300.0 ; comment text\n";
    assert line[..22] == "bond_params 1 2 300.0 ";
    TruncateAt(line, 22);
  }

  /** Lines without a comment, with or without a terminator, pass through. */
  lemma PlainLineScenarios()
    ensures Truncate("[ bonds ]\n") == "[ bonds ]\n"
    ensures Truncate("done") == "done"
    ensures Truncate("") == ""
  {
  }

  /** A line that is all comment becomes a bare newline. */
  lemma CommentLineScenario()
    ensures Truncate("; entire line is a comment\n") == "\n"
  {
    CommentOnlyLine("; entire line is a comment\n");
  }
}
