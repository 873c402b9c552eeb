/** Properties that relate several reader operations: readline against
    iteration, the bulk reads against per-line truncation, the line counter
    and the close bookkeeping over any sequence of calls. */
module ReaderProperties {
  import opened Wrappers
  import opened Comments
  import opened GromacsFile

  /** Reference definition: each raw line truncated on its own. */
  function TruncateEach(raw: seq<string>): (truncated: seq<string>)
  {
    seq(|raw|, i requires 0 <= i < |raw| => Truncate(raw[i]))
  }

  /** While lines remain, readline and iteration produce the same line and
      leave the reader in the same place; only the counter differs. */
  lemma ReadlineMatchesNext(r: Reader)
    requires r.Pending() != []
    ensures Next(r).Some?
    ensures Readline(r).line == Next(r).value.line
    ensures Readline(r).reader == Next(r).value.reader.(lineNumber := r.lineNumber + 1)
  {
  }

  /** `readlines` is the remaining raw lines truncated one by one, in order. */
  lemma ReadLinesIsTruncateEach(r: Reader)
    ensures ReadLines(r).lines == TruncateEach(r.Pending())
  {
  }

  /** Truncating each line of a non-empty sequence is truncating the
      first, then the rest. */
  lemma TruncateEachCons(raw: seq<string>)
    requires raw != []
    ensures TruncateEach(raw) == [Truncate(raw[0])] + TruncateEach(raw[1..])
  {
    assert TruncateEach(raw)[1..] == TruncateEach(raw[1..]);
  }

  /** A line taken with readline is exactly the line `readlines` would have
      put first; the rest follow in order. */
  lemma ReadlineThenReadLines(r: Reader)
    requires r.Pending() != []
    ensures [Readline(r).line] + ReadLines(Readline(r).reader).lines == ReadLines(r).lines
  {
    var s := Readline(r);
    ReadLinesIsTruncateEach(r);
    ReadLinesIsTruncateEach(s.reader);
    TruncateEachCons(r.Pending());
  }

  /** Once drained, the reader yields nothing on iteration and the empty
      sentinel on readline. */
  lemma DrainedReaderIsAtEnd(r: Reader)
    ensures Next(ReadLines(r).reader).None?
    ensures Readline(ReadLines(r).reader).line == ""
    ensures ReadLines(ReadLines(r).reader).lines == []
  {
  }

  /** Joining distributes over concatenation of line sequences. */
  lemma {:induction false} JoinAppend(a: seq<string>, b: seq<string>)
    ensures Join(a + b) == Join(a) + Join(b)
    decreases |a|
  {
    if |a| == 0 {
      assert a + b == b;
    } else {
      assert (a + b)[1..] == a[1..] + b;
      JoinAppend(a[1..], b);
    }
  }

  /** Joining is the in-order concatenation: the first line, then the
      rest joined; derived from the single-line and append facts alone. */
  lemma JoinCons(lines: seq<string>)
    requires lines != []
    ensures Join(lines) == lines[0] + Join(lines[1..])
  {
    assert lines == [lines[0]] + lines[1..];
    JoinAppend([lines[0]], lines[1..]);
  }

  /** `read` is the truncated remaining lines joined in order. */
  lemma ReadIsJoinOfTruncated(r: Reader)
    ensures Read(r).text == Join(TruncateEach(r.Pending()))
  {
    ReadLinesIsTruncateEach(r);
  }

  /** Reading everything equals reading one line and then everything else. */
  lemma ReadAfterReadline(r: Reader)
    requires r.Pending() != []
    ensures Read(r).text == Readline(r).line + Read(Readline(r).reader).text
  {
    var s := Readline(r);
    ReadlineThenReadLines(r);
    JoinAppend([s.line], ReadLines(s.reader).lines);
  }

  /** The calls a caller can make on a constructed reader. */
  datatype Call = ReadlineCall | NextCall | ReadLinesCall | ReadCall | CloseCall

  /** The reader after one call. */
  function Apply(r: Reader, call: Call): (after: Reader)
  {
    match call
    case ReadlineCall => Readline(r).reader
    case NextCall => (match Next(r) case None => r case Some(s) => s.reader)
    case ReadLinesCall => ReadLines(r).reader
    case ReadCall => Read(r).reader
    case CloseCall => Close(r)
  }

  /** The reader after making the calls in order. */
  function Run(r: Reader, calls: seq<Call>): (after: Reader)
    decreases |calls|
  {
    if |calls| == 0 then r else Run(Apply(r, calls[0]), calls[1..])
  }

  /** How many times `call` occurs in `calls`. */
  function Count(calls: seq<Call>, call: Call): (n: nat)
  {
    if |calls| == 0 then 0
    else (if calls[0] == call then 1 else 0) + Count(calls[1..], call)
  }

  /** Over any sequence of calls, the line counter grows by exactly the
      number of readline calls, each close is forwarded once, and the
      closed flag is set exactly when it was set before or a close
      happened. */
  lemma {:induction false} RunCounters(r: Reader, calls: seq<Call>)
    ensures Run(r, calls).lineNumber == r.lineNumber + Count(calls, ReadlineCall)
    ensures Run(r, calls).handle.closeCalls == r.handle.closeCalls + Count(calls, CloseCall)
    ensures Run(r, calls).closed == (r.closed || Count(calls, CloseCall) > 0)
    decreases |calls|
  {
    if |calls| != 0 {
      RunCounters(Apply(r, calls[0]), calls[1..]);
    }
  }

  /** Once closed, a reader stays closed whatever is called next. */
  lemma ClosedStaysClosed(r: Reader, calls: seq<Call>)
    requires r.closed
    ensures Run(r, calls).closed
  {
    RunCounters(r, calls);
  }

  /** Closing twice is tolerated: the flag stays set and both requests
      reach the preprocessor. */
  lemma DoubleClose(r: Reader)
    ensures Close(Close(r)).closed
    ensures Close(Close(r)).handle.closeCalls == r.handle.closeCalls + 2
  {
  }

  /** A reader opened and then used with at most one explicit close has
      its preprocessor closed exactly once by the time teardown is done. */
  lemma ReleasedExactlyOnce(raw: seq<string>, calls: seq<Call>)
    requires Count(calls, CloseCall) <= 1
    ensures Teardown(Constructed(Run(Open(raw), calls))).reader.handle.closeCalls == 1
  {
    RunCounters(Open(raw), calls);
  }

  /** Whatever the calls, teardown leaves the preprocessor closed at least
      once: exactly once without an explicit close, and once per explicit
      close otherwise, since `close` itself is not guarded. */
  lemma ReleasedAfterTeardown(raw: seq<string>, calls: seq<Call>)
    ensures Teardown(Constructed(Run(Open(raw), calls))).reader.handle.closeCalls >= 1
    ensures Teardown(Constructed(Run(Open(raw), calls))).reader.handle.closeCalls ==
            (if Count(calls, CloseCall) == 0 then 1 else Count(calls, CloseCall))
  {
    RunCounters(Open(raw), calls);
  }

  /** Teardown of an object whose constructor did not finish does nothing. */
  lemma TeardownUnconstructed()
    ensures Teardown(Unconstructed) == Unconstructed
  {
  }
}
