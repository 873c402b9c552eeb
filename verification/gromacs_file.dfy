/** The GROMACS file reader: a file-like object over the preprocessor's raw
    lines that hands out every line truncated at its first comment marker,
    counts single-line reads, and tracks whether it has been closed. */
module GromacsFile {
  import opened Wrappers
  import opened Comments
  import Preprocessor

  /** A constructed reader: the preprocessor it owns exclusively, the
      number of `readline` calls so far, and the closed flag. */
  datatype Reader = Reader(handle: Preprocessor.Handle, lineNumber: nat, closed: bool) {

    /** The raw lines the reader has not consumed yet. */
    function Pending(): seq<string>
    {
      handle.Pending()
    }
  }

  /** A line handed to the caller, and the reader after producing it. */
  datatype Step = Step(line: string, reader: Reader)

  /** The lines produced by draining the reader, and the drained reader. */
  datatype Lines = Lines(lines: seq<string>, reader: Reader)

  /** The text produced by draining the reader, and the drained reader. */
  datatype Text = Text(text: string, reader: Reader)

  /** What teardown finds: an object whose constructor stopped before the
      handle and the closed flag were assigned, or a constructed reader. */
  datatype Instance = Unconstructed | Constructed(reader: Reader)

  /** A reader that construction has just returned, over the preprocessed
      raw lines of the file. */
  function Open(raw: seq<string>): (r: Reader)
    ensures r.Pending() == raw
    ensures r.lineNumber == 0 && !r.closed
    ensures r.handle.closeCalls == 0
  {
    Reader(Preprocessor.Open(raw), 0, false)
  }

  /** Construction as the constructor is written: its first statement
      reads a name `mode` that is neither a parameter nor bound anywhere in
      the module, so it fails before `_handle` or `closed` is assigned and
      every construction leaves an unconstructed object behind. */
  function ConstructAsWritten(raw: seq<string>): (inst: Instance)
    ensures inst.Unconstructed?
    ensures inst != Constructed(Open(raw))
  {
    Unconstructed
  }

  /** The constructor as written never yields a reader, and its teardown
      is the silent no-op. */
  lemma ConstructionAlwaysFails(raw: seq<string>)
    ensures forall r: Reader :: ConstructAsWritten(raw) != Constructed(r)
    ensures Teardown(ConstructAsWritten(raw)) == ConstructAsWritten(raw)
  {
  }

  /** One step of iteration: the next raw line truncated, without touching
      the line counter; nothing once the preprocessor is exhausted. */
  function Next(r: Reader): (o: Option<Step>)
    ensures o.None? <==> r.Pending() == []
    ensures o.Some? ==> o.value.line == Truncate(r.Pending()[0])
    ensures o.Some? ==> o.value.reader.Pending() == r.Pending()[1..]
    ensures o.Some? ==> o.value.reader.lineNumber == r.lineNumber
    ensures o.Some? ==> o.value.reader.closed == r.closed
    ensures o.Some? ==> o.value.reader.handle.closeCalls == r.handle.closeCalls
  {
    match r.handle.Next()
    case None => None
    case Some(p) => Some(Step(Truncate(p.line), r.(handle := p.rest)))
  }

  /** `readline`: bumps the line counter, pulls one raw line (the empty
      sentinel at end of stream) and truncates it. */
  function Readline(r: Reader): (s: Step)
    ensures s.reader.lineNumber == r.lineNumber + 1
    ensures r.Pending() == [] ==> s.line == "" && s.reader.Pending() == []
    ensures r.Pending() != [] ==> s.line == Truncate(r.Pending()[0]) && s.reader.Pending() == r.Pending()[1..]
    ensures s.reader.closed == r.closed
    ensures s.reader.handle.closeCalls == r.handle.closeCalls
  {
    var p := r.handle.Readline();
    Step(Truncate(p.line), Reader(p.rest, r.lineNumber + 1, r.closed))
  }

  /** `readlines`: every remaining line, truncated, in order, produced by
      iterating until the preprocessor is exhausted. */
  function ReadLines(r: Reader): (d: Lines)
    ensures |d.lines| == |r.Pending()|
    ensures forall i | 0 <= i < |d.lines| :: d.lines[i] == Truncate(r.Pending()[i])
    ensures TotalLength(d.lines) <= TotalLength(r.Pending())
    ensures d.reader.Pending() == []
    ensures d.reader.lineNumber == r.lineNumber
    ensures d.reader.closed == r.closed
    ensures d.reader.handle.closeCalls == r.handle.closeCalls
    decreases |r.Pending()|
  {
    match Next(r)
    case None => Lines([], r)
    case Some(s) =>
      var rest := ReadLines(s.reader);
      Lines([s.line] + rest.lines, rest.reader)
  }

  /** The number of characters in all the lines together. */
  function TotalLength(lines: seq<string>): (n: nat)
  {
    if |lines| == 0 then 0 else |lines[0]| + TotalLength(lines[1..])
  }

  /** `''.join(lines)`: the lines concatenated in order. */
  function Join(lines: seq<string>): (t: string)
    ensures |lines| == 0 ==> t == ""
    ensures |lines| == 1 ==> t == lines[0]
    ensures |t| == TotalLength(lines)
    ensures forall c | c in t :: exists i | 0 <= i < |lines| :: c in lines[i]
  {
    if |lines| == 0 then ""
    else
      var rest := Join(lines[1..]);
      assert forall c | c in rest :: exists i | 1 <= i < |lines| :: c in lines[i] by {
        forall c | c in rest
          ensures exists i | 1 <= i < |lines| :: c in lines[i]
        {
          var k :| 0 <= k < |lines[1..]| && c in lines[1..][k];
          assert c in lines[k + 1];
        }
      }
      lines[0] + rest
  }

  /** `read`: the text of `readlines` joined together. */
  function Read(r: Reader): (t: Text)
    ensures Marker !in t.text
    ensures |t.text| <= TotalLength(r.Pending())
    ensures t.reader.Pending() == []
    ensures t.reader.lineNumber == r.lineNumber
    ensures t.reader.closed == r.closed
    ensures t.reader.handle.closeCalls == r.handle.closeCalls
  {
    var d := ReadLines(r);
    Text(Join(d.lines), d.reader)
  }

  /** `close`: forwards the close to the preprocessor and sets the flag,
      whatever the flag was before. */
  function Close(r: Reader): (c: Reader)
    ensures c.closed
    ensures c.handle.closeCalls == r.handle.closeCalls + 1
    ensures c.Pending() == r.Pending()
    ensures c.lineNumber == r.lineNumber
  {
    Reader(r.handle.Close(), r.lineNumber, true)
  }

  /** `__del__`: closes the preprocessor only when the reader is not
      already closed, does not itself set the flag, and does nothing to an
      object whose constructor did not finish. */
  function Teardown(inst: Instance): (after: Instance)
    ensures inst.Unconstructed? ==> after == inst
    ensures inst.Constructed? ==> after.Constructed?
    ensures inst.Constructed? ==> after.reader.closed == inst.reader.closed
    ensures inst.Constructed? ==> after.reader.Pending() == inst.reader.Pending()
    ensures inst.Constructed? ==> after.reader.lineNumber == inst.reader.lineNumber
    ensures inst.Constructed? ==>
              after.reader.handle.closeCalls == inst.reader.handle.closeCalls + (if inst.reader.closed then 0 else 1)
  {
    match inst
    case Unconstructed => Unconstructed
    case Constructed(r) =>
      if r.closed then inst else Constructed(r.(handle := r.handle.Close()))
  }
}
