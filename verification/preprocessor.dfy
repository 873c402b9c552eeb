/** The macro/include preprocessor the reader wraps, reduced to what the
    reader consumes from it: an already expanded sequence of raw lines, a
    read position, and a count of the close requests it has received.
    Macro expansion, include resolution and file access are not modelled. */
module Preprocessor {
  import opened Wrappers

  /** One raw line taken from the stream, and the stream after taking it. */
  datatype Pulled = Pulled(line: string, rest: Handle)

  datatype Handle = Handle(lines: seq<string>, cursor: nat, closeCalls: nat) {

    /** The raw lines not yet handed out, in order. */
    function Pending(): seq<string>
    {
      if cursor < |lines| then lines[cursor..] else []
    }

    /** File-style `readline`: the next raw line, or the empty sentinel
        once the stream is exhausted. */
    function Readline(): (p: Pulled)
      ensures Pending() == [] ==> p.line == "" && p.rest.Pending() == []
      ensures Pending() != [] ==> p.line == Pending()[0] && p.rest.Pending() == Pending()[1..]
      ensures p.rest.closeCalls == closeCalls
    {
      if cursor < |lines| then Pulled(lines[cursor], this.(cursor := cursor + 1))
      else Pulled("", this)
    }

    /** One step of iteration: nothing once the stream is exhausted. */
    function Next(): (o: Option<Pulled>)
      ensures o.None? <==> Pending() == []
      ensures o.Some? ==> o.value.line == Pending()[0] && o.value.rest.Pending() == Pending()[1..]
      ensures o.Some? ==> o.value.rest.closeCalls == closeCalls
    {
      if cursor < |lines| then Some(Pulled(lines[cursor], this.(cursor := cursor + 1)))
      else None
    }

    /** Records one more close request; the lines are left as they are. */
    function Close(): (h: Handle)
      ensures h.closeCalls == closeCalls + 1
      ensures h.Pending() == Pending()
    {
      this.(closeCalls := closeCalls + 1)
    }
  }

  /** A freshly opened stream over the given raw lines. */
  function Open(lines: seq<string>): (h: Handle)
    ensures h.Pending() == lines
    ensures h.closeCalls == 0
  {
    Handle(lines, 0, 0)
  }
}
