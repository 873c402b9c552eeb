# GROMACS comment-stripping reader, in Dafny

A model of `GromacsFile`, the file-like reader ParmEd uses for GROMACS
topology and parameter files. In these files `;` starts a comment that
runs to the end of the line, with no escape. The reader wraps the C-style
preprocessor (`CPreProcessor`), which expands macros and includes, and
hands every raw line it receives back truncated at its first `;`.

- `wrappers.dfy` — `Wrappers.Option`.
- `comments.dfy` — module `Comments`: `IndexOf` (the `str.index` scan) and
  `Truncate`, the transform every read path applies, with its properties.
- `preprocessor.dfy` — module `Preprocessor`: the preprocessor reduced to
  an already expanded `seq<string>` of raw lines, a cursor, and a count of
  close requests. File-style `readline` returns `""` at end of stream;
  iteration stops there.
- `gromacs_file.dfy` — module `GromacsFile`: the immutable `Reader`
  record (handle, `lineNumber`, `closed`) and the operations `Next`
  (one step of `__iter__`), `Readline`, `ReadLines`, `Read`, `Close` and
  `Teardown` (the `__del__` guard), each returning the new reader state.
- `reader_properties.dfy` — module `ReaderProperties`: lemmas relating the
  operations, and a `Run` over any sequence of calls for the counter and
  close bookkeeping.

As in the source, no read operation and not `close` itself checks
`closed`; only teardown does. The model assumes that a closed preprocessor
still serves its pending lines (its `Close` leaves them in place), so
reads after close return the remaining lines truncated; the source makes
no such promise. `Truncate` is proved to return
a result no longer than its input, which is stronger than "at most one
character longer": the added newline replaces at least the marker.

## Model

| member | source | states |
|---|---|---|
| Comments.IndexOf | chemistry/gromacs/_gromacsfile.py:55-60 | absent exactly when the line has no marker (the `ValueError` branch); otherwise an in-range position holding the marker with no marker before it |
| Comments.Truncate | chemistry/gromacs/_gromacsfile.py:67-73 | a line without `;` comes back unchanged, terminator or not; with the first `;` at `idx` the result is `line[..idx] + "\n"`; the result never holds `;`, is never longer than the line, and with a marker ends in `"\n"` after a prefix of the line |
| Comments.TruncateIdempotent | chemistry/gromacs/_gromacsfile.py:62 | truncating a truncated line changes nothing |
| Comments.CommentOnlyLine | chemistry/gromacs/_gromacsfile.py:68-73 | a line starting with `;` yields exactly `"\n"` |
| Comments.TruncateIgnoresTail | chemistry/gromacs/_gromacsfile.py:56-57 | once the line has a marker, anything appended after it does not change the result |
| Comments.TruncateAt | chemistry/gromacs/_gromacsfile.py:68-73 | a marker at `idx` with none before it gives `line[..idx] + "\n"` |
| Comments.TrailingCommentScenario | chemistry/gromacs/_gromacsfile.py:67-73 | `"bond_params 1 2 300.0 ; comment text\n"` becomes `"bond_params 1 2 300.0 \n"` |
| Comments.PlainLineScenarios | chemistry/gromacs/_gromacsfile.py:70-73 | `"[ bonds ]\n"`, the unterminated last line `"done"` and the end-of-stream `""` pass through unchanged |
| Comments.CommentLineScenario | chemistry/gromacs/_gromacsfile.py:67-73 | `"; entire line is a comment\n"` becomes `"\n"` |
| Preprocessor.Handle.Readline | chemistry/gromacs/_gromacsfile.py:66 | assumption about the preprocessor: `readline` returns the next raw line and consumes it, or the `""` sentinel once nothing remains |
| Preprocessor.Handle.Next | chemistry/gromacs/_gromacsfile.py:54 | assumption about the preprocessor: iteration yields the next raw line from the same cursor `readline` uses, and stops exactly when nothing remains |
| Preprocessor.Handle.Close | chemistry/gromacs/_gromacsfile.py:82 | assumption about the preprocessor: a close request is counted and leaves the pending lines in place |
| GromacsFile.Open | chemistry/gromacs/_gromacsfile.py:41-47 | a constructed reader sees all raw lines, has line number 0, is open, and its preprocessor has not been closed |
| GromacsFile.ConstructAsWritten | chemistry/gromacs/_gromacsfile.py:36-38 | the constructor as written never yields a reader |
| GromacsFile.ConstructionAlwaysFails | chemistry/gromacs/_gromacsfile.py:36-38 | no reader comes out of construction as written, and teardown of the result does nothing |
| GromacsFile.Next | chemistry/gromacs/_gromacsfile.py:52-62 | iteration ends exactly when no raw line remains; otherwise yields the first remaining line truncated, consumes exactly it, and leaves the counter and flags alone |
| GromacsFile.Readline | chemistry/gromacs/_gromacsfile.py:64-73 | the counter grows by exactly one, also at end of stream; at end the result is the `""` sentinel, otherwise the first remaining line truncated, which is consumed |
| GromacsFile.ReadLines | chemistry/gromacs/_gromacsfile.py:75-76 | one truncated line per remaining raw line, in order, no more characters than the raw lines, the reader drained and the counter unchanged |
| GromacsFile.Join | chemistry/gromacs/_gromacsfile.py:79 | no lines join to `""` and a single line joins to itself; the joined text is as long as all lines together and holds only characters from them; with `JoinAppend` this fixes the result as the in-order concatenation |
| GromacsFile.Read | chemistry/gromacs/_gromacsfile.py:78-79 | the text holds no `;`, is no longer than the remaining raw lines, drains the reader and leaves the counter unchanged |
| GromacsFile.Close | chemistry/gromacs/_gromacsfile.py:81-83 | the flag is set and one close request reaches the preprocessor, whatever the flag was before |
| GromacsFile.Teardown | chemistry/gromacs/_gromacsfile.py:85-90 | an unconstructed object is left alone; a constructed one gets one close request only if not already closed, and its flag is not changed |
| ReaderProperties.ReadlineMatchesNext | chemistry/gromacs/_gromacsfile.py:52-73 | while lines remain, readline and iteration produce the same line and the same reader up to the counter |
| ReaderProperties.ReadLinesIsTruncateEach | chemistry/gromacs/_gromacsfile.py:75-76 | `readlines` equals the remaining raw lines each truncated on its own |
| ReaderProperties.ReadlineThenReadLines | chemistry/gromacs/_gromacsfile.py:64-76 | the line readline returns is the one `readlines` would have returned first, and the rest follow in order |
| ReaderProperties.DrainedReaderIsAtEnd | chemistry/gromacs/_gromacsfile.py:52-76 | after draining, iteration stops at once, readline returns `""` and `readlines` returns nothing |
| ReaderProperties.JoinAppend | chemistry/gromacs/_gromacsfile.py:79 | joining two line sequences in a row equals joining each and concatenating |
| ReaderProperties.JoinCons | chemistry/gromacs/_gromacsfile.py:79 | joining a non-empty list is its first line followed by the rest joined, so the join is the in-order concatenation |
| ReaderProperties.ReadIsJoinOfTruncated | chemistry/gromacs/_gromacsfile.py:75-79 | `read` equals the remaining raw lines, each truncated, joined in order |
| ReaderProperties.ReadAfterReadline | chemistry/gromacs/_gromacsfile.py:64-79 | reading everything equals one readline followed by reading the rest |
| ReaderProperties.RunCounters | chemistry/gromacs/_gromacsfile.py:64-83 | over any sequence of calls the counter grows by the number of readline calls, each close reaches the preprocessor once, and the flag is set exactly if it was or a close happened |
| ReaderProperties.ClosedStaysClosed | chemistry/gromacs/_gromacsfile.py:81-83 | once set, the closed flag stays set under every call |
| ReaderProperties.DoubleClose | chemistry/gromacs/_gromacsfile.py:81-83 | closing twice keeps the flag set and forwards both requests |
| ReaderProperties.ReleasedExactlyOnce | chemistry/gromacs/_gromacsfile.py:81-90 | an opened reader used with at most one explicit close has had its preprocessor closed exactly once after teardown |
| ReaderProperties.ReleasedAfterTeardown | chemistry/gromacs/_gromacsfile.py:81-90 | for any calls, the preprocessor has been closed at least once after teardown: once if there was no explicit close, else once per explicit close |
| ReaderProperties.TeardownUnconstructed | chemistry/gromacs/_gromacsfile.py:85-90 | teardown of an object whose constructor did not finish does nothing |

## Left out

- Macro expansion, `#include` resolution, search paths from `GMXDATA`/`GMXBIN` and install locations, and file access: the preprocessor (chemistry/gromacs/_cpp.py, not part of this model) is only a sequence of raw lines.
- `write`: a pass-through to the preprocessor with no logic of its own.
- Turning an `IOError` from the preprocessor into `GromacsFileError`: exception plumbing around I/O.
- The access-mode check and the `status = 'OLD'` attribute: the constructor reads an undefined `mode` (see Findings); no mode parameter is modelled and the reader starts from a successful construction.
- When `__del__` runs: only its guard is modelled, not garbage-collection timing.
- Reads after `close`: the source gives no contract for them, as they forward to a closed preprocessor; the model assumes the closed preprocessor still serves its pending lines (`Preprocessor.Handle.Close` and `GromacsFile.Close` keep them), so what the model says about reads after close is an assumption, not a promise of the source.
- Interleaving of the file's own read-ahead with `readline`: the preprocessor is modelled as a single cursor shared by iteration and `readline`.

## Findings

| source | as written | input that shows it | evidently intended | confidence | as-written member | corrected member |
|---|---|---|---|---|---|---|
| chemistry/gromacs/_gromacsfile.py:36-38 | the constructor tests `mode not in ('r',)`, but `mode` is not a parameter and is not bound anywhere in the module, so the test raises `NameError` before `_handle` or `closed` is assigned | any construction, e.g. `GromacsFile('topol.top')` | `mode` was meant to be a parameter defaulting to `'r'`; construction succeeds with line number 0 and the reader open | not executed; high | GromacsFile.ConstructAsWritten | GromacsFile.Open |
