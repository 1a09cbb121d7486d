# gozellij verification

A Dafny model of the four parts of gozellij in which the most can go wrong unseen, and proofs about it.

- **The terminal emulator** (`internal/vt`). A byte-at-a-time parser drives a grid with scrolling regions, deferred
  wrap, wide characters, an alternate screen and a ring of scrollback. A renderer prints a grid back to bytes, reflow
  breaks the text again at another width, and a layout puts several grids on one screen.
- **The output stream** (`internal/fabric/output.go`, `logfile.go`, `termmodes.go`). A byte ring with readers that may
  fall behind, a log writer that attaches again when it did, a time index beside the log, and a tracker of terminal
  modes that makes a shortened replay land in the right state.
- **Supervision** (`internal/fabric/fabric.go`, `supervisor.go`, `restart.go`, `watch.go`). A lock for each service,
  supervisors that are replaced while they are watched, and wakeups with room for one token.
- **The keyboard fence** (`internal/daemon/attachclient.go`, `renderedsession.go`). Two channels, taken from at random,
  and a fence that keeps what was typed on the right side of a command.

## How it is laid out

The emulator has two layers. The value layer (`Vt`, `Utf8`, `Decimal`, `Grid`, `Reflow`, `Parser`, `Render`, `Layout`)
says what each operation comes to as a function on a `Term`; what is promised is proved of it in `Paragraphs`,
`ReflowLaws`, `AltLaws`, `AltRuns`, `ParserLaws`, `ScreenLaws`, `TextLaws`, `Runs`, `SgrLaws`, `DrawLaws`, `RepaintLaws`,
`ScrollLaws` and `LayoutLaws`, most of it of the bytes that are fed and not of those functions. The layer in place (`RowStore`, `History`, `Terminal`, `Relayout`, `Machine`, `Paint`, and the methods of `ScrollLaws` and
`Layout`) keeps rows in arrays, updates them as the program does, and is proved to do exactly what the value layer says;
its `Valid()` also holds that no row is stored in two places.

The output stream has its classes in `TermModes`, `Output`, `Sink` and the methods of `Since` and `Replay`, the rules
they follow in `Ledger`, and their interleavings in `LogRuns` and `LogEnds`; `Followers` ties the methods of the buffer and of the log
writer to the steps of that protocol. `ModeLaws` has the laws of the mode tracker. `Lifecycle` and `Fence` are
transition systems whose steps are the atomic actions of the goroutines, `Outcomes` says what their callers bring about, and
`Supervision` has one supervisor's loop.

## Model

| member | source | states |
|---|---|---|
| RepaintLaws.RepaintRoundTrip | internal/vt/render/render.go:63-158 | the bytes the renderer makes of a link-free screen of whole characters, fed to any terminal of its size that has nothing half-read and draws text plainly, leave exactly its cells, styles, cursor and pending wrap and scroll nothing away - if and only if no wrap is pending, or the cursor is in the last column and the style of the last character drawn hides nothing of the one drawn again |
| RepaintLaws.BoldRowNotRepainted | internal/vt/render/render.go:104-130 | one full bold row with its wrap pending is a screen whose repaint differs from it |
| RepaintLaws.BoldRowReached | internal/vt/grid/grid.go:363-404 | that screen is what a new 2x1 terminal shows after a bold code and two letters |
| SgrLaws.SgrExact | internal/vt/render/render.go:166-209 | for any two styles, a terminal in the first that reads the bytes of the difference is in the second, with nothing else changed, if and only if their hyperlinks agree once a reset is allowed for |
| SgrLaws.OneColor | internal/vt/render/render.go:212-234 | the codes printed for any colour, foreground or background and in each of its forms, are read back as that colour and nothing else |
| DrawLaws.LinkDrawsBackslash | internal/vt/grid/parser.go:740-759 | whatever the address, the renderer's bytes for a hyperlink open it and also draw a backslash |
| DrawLaws.FeedRow | internal/vt/render/render.go:86-106 | the bytes of one row, read on an empty row, leave exactly its cells and its last style, and the cursor after the last |
| TextLaws.PrintedIsLaidOut | internal/vt/grid/grid.go:363-494 | whatever paragraphs of whole characters, wide ones and marks included, are printed on a new terminal with CR LF between them, scrollback and screen together are the rows that laying them out at that width makes: the last ones on the screen, the others in the scrollback, trimmed to its limit |
| TextLaws.FeedPage | internal/vt/grid/grid.go:363-494 | the same of any terminal at the beginning of a row, whatever has been printed before |
| TextLaws.ShortRows | internal/vt/grid/grid.go:439-447 | paragraphs that fit the width are a row each, in order |
| TextLaws.NarrowRows | internal/vt/grid/grid.go:429-437 | a long paragraph of narrow characters is rows of exactly the width and the rest, each but the last marked as carrying on |
| ScreenLaws.MovesVertically | internal/vt/grid/parser.go:424-437 | CUU, CUD, CNL and CPL, from their bytes, move by their count up to the margin that is in the way, or the edge |
| ScreenLaws.MovesAcross | internal/vt/grid/parser.go:428-443 | CUF, CUB, CHA, VPA and CUP, from their bytes, go where they say, brought inside the screen |
| ScreenLaws.OneByDefault | internal/vt/grid/parser.go:415-421 | a count left out, or zero, is one |
| ScreenLaws.SavesAndRestores | internal/vt/grid/grid.go:527-542 | a saved cursor comes back where it was, in the style it was saved with |
| ScreenLaws.ErasesLine | internal/vt/grid/parser.go:467-485 | EL and ECH blank exactly the cells they name, in the background in force |
| ScreenLaws.ErasesScreen | internal/vt/grid/parser.go:444-466 | ED blanks exactly the cells it names |
| ScreenLaws.ShiftsLines | internal/vt/grid/parser.go:585-618 | IL and DL move exactly the rows from the cursor's to the bottom margin, or to the last row, by their count |
| ScreenLaws.ScrollsRegion | internal/vt/grid/grid.go:449-523 | SU and SD move exactly the rows between the margins |
| ScreenLaws.ShiftsChars | internal/vt/grid/parser.go:620-643 | DCH and ICH move exactly the cells from the cursor on, and none while a wrap is owed |
| ScreenLaws.TakesAway | internal/vt/grid/parser.go:647-709 | the codes that end an attribute or a colour end that one and nothing else |
| ScreenLaws.ControlsDo | internal/vt/grid/parser.go:186-220 | BS, SO and SI |
| ScreenLaws.TabDoes | internal/vt/grid/grid.go:180-187 | HT goes to the first stop on the right, or to the edge |
| ScreenLaws.IndexesDo | internal/vt/grid/parser.go:222-314 | IND, RI and NEL move the cursor by one row, or the rows between the margins when it is at the margin |
| ScreenLaws.EscapesDo | internal/vt/grid/parser.go:222-314 | DECSC, DECRC, HTS, RIS and TBC |
| ScreenLaws.ModesDo | internal/vt/grid/parser.go:352-519 | modes 25, 7 and 4 are set and reset |
| ScreenLaws.RegionDoes | internal/vt/grid/parser.go:490-509 | DECSTBM sets a region that is one and sends the cursor home, and ignores any other |
| ScreenLaws.InsertsCharacter | internal/vt/grid/grid.go:363-404 | in insert mode the rest of the row moves over by one |
| ScreenLaws.NoWrap | internal/vt/grid/grid.go:363-404 | with autowrap off the last column is written over |
| ScreenLaws.ChoosesCharset | internal/vt/grid/charset.go:35-48 | a character set is designated to either place |
| ScreenLaws.DrawsLines | internal/vt/grid/charset.go:51-61 | in the line-drawing set a letter draws its line |
| ScreenLaws.CutShort | internal/vt/grid/parser.go:88-118 | a character cut short is drawn as a replacement before what follows it |
| ScreenLaws.BadByte | internal/vt/grid/parser.go:154-174 | a byte that begins no character is drawn as a replacement |
| ScreenLaws.SwallowsString | internal/vt/grid/parser.go:772-788 | a control string, whatever is in it, leaves the screen as it was |
| ScreenLaws.SwallowsCommand | internal/vt/grid/parser.go:740-759 | so does a command that is not a hyperlink |
| ReflowLaws.ReflowKeepsExactly | internal/vt/grid/reflow.go:31-98 | from a well-formed primary screen a resize leaves the paragraphs - their cells, their ends, and the cursor's place in them - unchanged if and only if the rows the text makes at the new width leave no more above the screen than the scrollback holds, and the cursor's row is on the screen |
| ReflowLaws.ResizeChain | internal/vt/grid/grid.go:313-340 | any chain of sizes, each of which would keep the text as it was at the start, and then a last one, ends with the same terminal as the last size alone |
| ReflowLaws.ReflowableAgain | internal/vt/grid/reflow.go:31-98 | a resize that keeps the text leaves a screen that is well formed for the next |
| AltLaws.AltResizes | internal/vt/grid/grid.go:250-340 | entering the alternate screen, any resizes, and leaving without a restore is one reflow of the hidden text to the last size, with the cursor as it was carried through the sizes |
| AltLaws.AltKeepsExactly | internal/vt/grid/grid.go:250-340 | when the cursor fits every size that is one direct resize to the last size, so it keeps the paragraphs exactly when that does |
| AltRuns.Entered | internal/vt/grid/grid.go:250-268 | the bytes of mode 1049 give a program an empty screen with the cursor where it was, and keep the rows and the cursor |
| AltRuns.Returned | internal/vt/grid/grid.go:250-294 | whatever is written then and however the size changes, as long as nothing leaves that screen, saves over that cursor or starts afresh, the bytes that end it bring back the rows, the scrollback and the cursor; after a resize, the text laid out once for the last size, and the cursor inside it |
| AltRuns.LeavingPlainly | internal/vt/grid/grid.go:271-294 | modes 47 and 1047 bring back the rows and leave the cursor |
| AltRuns.ResizedInPlace | internal/vt/grid/grid.go:297-340 | meanwhile a resize keeps of the drawing what fits, in place |
| Paragraphs.LaidOut | internal/vt/grid/reflow.go:101-210 | paragraphs broken into rows at any width are read back as the same paragraphs, with the cursor at the same place in them |
| Relayout.LogicalLines | internal/vt/grid/reflow.go:101-162 | the loop over scrollback and screen finds the paragraphs and the cursor's offset |
| Relayout.WrapCells | internal/vt/grid/reflow.go:169-210 | the loop that fills and flushes rows breaks a paragraph as the specification says, never inside a wide character, and places the cursor |
| Relayout.ReflowTo | internal/vt/grid/reflow.go:31-98 | the resize in place is the reflow of the screen's value, and shares no storage with what was there |
| Relayout.Resize | internal/vt/grid/grid.go:313-340 | on either screen, the resize in place is that on values |
| Relayout.EnterAlt | internal/vt/grid/grid.go:250-268 | the primary rows are kept behind the alternate ones, and no storage is in both |
| Relayout.LeaveAlt | internal/vt/grid/grid.go:271-294 | the hidden rows come back, reflowed if a resize is owed |
| Machine.Decoder.Feed | internal/vt/grid/parser.go:65-178 | the loop that reads ahead for the rest of a character leaves the terminal and every field of the parser as the one-byte machine does, or stops at the byte at which that puts the cursor outside the screen, exactly when there is one |
| Machine.Decoder.Writes | internal/vt/grid/parser.go:65-178 | a stream that arrives in any pieces leaves the same terminal and parser, or stops for the same reason, as the stream in one piece |
| Machine.LookAhead | internal/vt/grid/parser.go:136-167 | taking a continuation byte at once, while a character is not whole, comes to the same as waiting for it |
| Machine.Decoder.Ground | internal/vt/grid/parser.go:88-178 | text and control bytes, with the replacement owed for a truncated character drawn in the style that follows |
| Machine.Decoder.Escape | internal/vt/grid/parser.go:222-314 | each escape that acts on the screen, the cursor or the parser does in place what it does to their values |
| Machine.Decoder.Csi | internal/vt/grid/parser.go:316-350 | parameters and intermediates are collected, and a final byte carried out, or found to put the cursor outside the screen |
| Machine.Decoder.Dispatch | internal/vt/grid/parser.go:352-575 | every control sequence does in place what it does to the screen's value; only a reset of mode 1048 can put the cursor outside |
| Machine.Decoder.Osc | internal/vt/grid/parser.go:740-759 | a command string grows to its limit and ends at BEL or at ESC alone, and an OSC 8 sets the link that is drawn with |
| Machine.Decoder.Str | internal/vt/grid/parser.go:772-788 | a control string is swallowed up to its end |
| Machine.Sgr | internal/vt/grid/parser.go:647-709 | the loop over the codes, extended colours included, is their meaning one after another |
| ParserLaws.FeedCsi | internal/vt/grid/parser.go:316-352 | the bytes of a control sequence with any parameters do what it means with those parameters, from any quiet parser |
| ParserLaws.FeedRune | internal/vt/grid/parser.go:129-178 | the bytes of a character, one at a time, draw that character |
| Decimal.ParamsJoin | internal/vt/grid/parser.go:718-733 | numbers written with semicolons between them are read back |
| Utf8.DecodeEncode | internal/vt/grid/parser.go:129-178 | every character's encoding is whole exactly at its last byte and decodes to it |
| Utf8.IncompleteCouldComplete | internal/vt/grid/parser.go:949-967 | what the decoder calls not yet whole can always still be completed, so the test for it can never fail there |
| Runs.RunLost | internal/vt/grid/parser.go:352-380 | a run of writes and resizes from any well-formed terminal puts the cursor outside the screen if and only if some byte of it resets mode 1048 while the saved cursor is outside |
| Runs.RunSurvives | internal/vt/grid/grid.go:313-340 | a run in which nothing resets mode 1048 keeps every invariant of the screen - its size, its rows, the cursor, the margins, the tabs - whatever the sizes and screens |
| Runs.SaveResizeRestore | internal/vt/grid/parser.go:370-380 | saving with 1048, resizing and restoring loses the cursor exactly when it does not fit the new size |
| ParserLaws.WriteNeverLost | internal/vt/grid/parser.go:65-84 | while the saved cursor is on the screen no write can put the cursor outside it |
| Screens.Terminal.constructor | internal/vt/grid/grid.go:147-165 | a new terminal is the empty screen of its size, with storage of its own |
| Screens.Terminal.Put | internal/vt/grid/grid.go:350-357 | drawing a rune, a mark or a wide one included, does in place what it does to the screen's value |
| Screens.Terminal.PutString | internal/vt/grid/grid.go:363-404 | the wrap that was waiting, the insertion, the cell and its second half, and the advance |
| Screens.Terminal.Combine | internal/vt/grid/grid.go:406-427 | a mark goes to the character before the cursor, from its second half if that is where the cursor was |
| Screens.Terminal.Wrap | internal/vt/grid/grid.go:429-437 | marks the row as carrying on and moves to the next |
| Screens.Terminal.LineFeed | internal/vt/grid/grid.go:439-447 | down, or a scroll at the bottom margin |
| Screens.Terminal.ScrollUp | internal/vt/grid/grid.go:449-494 | rows leave at the top margin, into the scrollback when that is right, and their storage comes back empty at the bottom |
| Screens.Terminal.ScrollDown | internal/vt/grid/grid.go:515-523 | the same the other way, with nothing remembered |
| Screens.Terminal.MoveVertically | internal/vt/grid/grid.go:555-565 | movement stops at the margins from inside them, and at the screen from outside |
| Screens.Terminal.MoveTo | internal/vt/grid/grid.go:583-587 | movement is clamped to the screen |
| Screens.Terminal.RestoreCursor | internal/vt/grid/grid.go:531-542 | the saved cursor comes back, clamped to the screen there is now |
| Screens.Terminal.InsertLines | internal/vt/grid/parser.go:592-604 | rows move down within the margins, and empty ones come in |
| Screens.Terminal.DeleteLines | internal/vt/grid/parser.go:606-618 | rows move up within the margins, and empty ones come in |
| Screens.Terminal.DeleteChars | internal/vt/grid/parser.go:620-633 | the rest of the row moves left in its own array |
| Screens.Terminal.InsertChars | internal/vt/grid/parser.go:635-643 | the rest of the row moves right in its own array; what the row counts as written does not grow |
| Screens.Terminal.ShiftRight | internal/vt/grid/grid.go:621-635 | the same shift for insert mode |
| Screens.Terminal.EraseInRow | internal/vt/grid/grid.go:743-767 | the cells from one column to another become blanks in the current background |
| History.HistRing.Push | internal/vt/grid/history.go:49-70 | the ring is then the newest lines up to the limit, oldest first, with a copy of the new one last, in the oldest one's storage when that fits |
| History.HistRing.At | internal/vt/grid/history.go:41-41 | index i is the i-th oldest line |
| History.HistRing.SetLimit | internal/vt/grid/history.go:82-98 | a new limit keeps the newest lines that fit it, in order |
| History.HistRing.Reset | internal/vt/grid/history.go:79-79 | nothing is remembered, under the same limit |
| ScrollLaws.ScrollUpAppends | internal/vt/grid/grid.go:449-494 | scrolling the whole primary screen up by n appends n blank rows to scrollback and screen together: the screen is the last rows of that, and the scrollback the rest, trimmed to the limit |
| ScrollLaws.Snapshot | internal/vt/grid/grid.go:788-839 | the view k lines back is the window that starts k lines above the screen, or as far back as there is, fitted to the width |
| Paint.Screen | internal/vt/render/render.go:63-158 | the renderer's loops give exactly the bytes the round trip is about |
| Paint.Sgr | internal/vt/render/render.go:166-209 | the difference of two styles, reset first when something is turned off |
| Layout.Compose | internal/vt/layout/layout.go:57-99 | panes of any place and grid, drawn and blanked cell by cell, are the composed screen, with the focused pane's cursor clipped to it |
| LayoutLaws.ComposedPaintable | internal/vt/layout/layout.go:57-99 | panes inside the screen that do not overlap, with grids of any size, compose to a screen whose every cell is its pane's cell or blank, in which no wide character is split |
| LayoutLaws.ComposedRepaints | internal/vt/layout/layout.go:57-99 | so repainting the composed screen shows exactly it, when the focused cursor is not waiting to wrap |
| LayoutLaws.CursorShown | internal/vt/layout/layout.go:83-97 | the composed cursor is the focused pane's, where it is in the pane, brought to the pane's edge if it is outside |
| TermModes.Tracker.Feed | internal/fabric/termmodes.go:59-81 | the scanning loop is the meaning of what was carried over followed by what came |
| TermModes.Tracker.Escape | internal/fabric/termmodes.go:85-136 | one escape is obeyed, skipped, or found to be cut off |
| TermModes.Tracker.Reset | internal/fabric/termmodes.go:163-177 | gives the bytes that undo the state, and forgets it |
| ModeLaws.CutIgnored | internal/fabric/termmodes.go:59-81 | for every state and every stream so far, cutting there makes no difference to anything that can follow, if and only if the sequence cut off there, with what was carried over before, is no longer than can be carried over |
| ModeLaws.ChunksIgnored | internal/fabric/termmodes.go:59-81 | so in a stream with no sequence too long to carry over, two pieces leave the state, carry included, that they leave joined |
| ModeLaws.LongSequenceLost | internal/fabric/termmodes.go:59-81 | every mode sequence that is too long is lost when cut before its last byte, and obeyed when whole |
| ModeLaws.PreambleRestores | internal/fabric/termmodes.go:147-159 | a preamble takes the defaults to the state it was made from |
| ModeLaws.ResetUndoes | internal/fabric/termmodes.go:163-177 | a reset takes the state it was made from to the defaults |
| ModeLaws.OneModeFed | internal/fabric/termmodes.go:85-136 | each mode that is followed, from its bytes, is set by h and reset by l, and no other is |
| ModeLaws.ReplayRestores | internal/fabric/termmodes.go:147-159 | for every stream, the preamble of it and then any last part of it that does not begin inside a sequence leave the state the whole stream left, carry included |
| ModeLaws.ReplayFromLine | internal/fabric/output.go:502-512 | as does any last part that begins after a newline |
| Replay.ReplayStart | internal/fabric/output.go:502-512 | what is kept begins after the first newline, if that is near enough to the front, and is everything otherwise |
| Replay.Assemble | internal/daemon/attach.go:97-115 | what an attaching client is sent is the preamble and a last part of the stream, and leaves its terminal in the modes of everything ever written if there is a newline near enough to the front of what is kept, or that does not begin inside a sequence |
| Output.Ring.Append | internal/fabric/output.go:168-194 | the ring holds the last bytes of the stream, as many as it has room for, in whichever way the write wraps |
| Output.Ring.Snapshot | internal/fabric/output.go:204-215 | a copy of them, oldest first |
| Output.Subscriber.Offer | internal/fabric/output.go:433-467 | a chunk is queued if it fits the reader's bound and channel, and else the reader is marked as lagging and its channel closed, once |
| Output.Subscriber.Consumed | internal/fabric/output.go:470-477 | the queue's count goes down and not below nothing |
| Output.OutputBuffer.Write | internal/fabric/output.go:79-107 | the stream grows by the write; the readers that stay are those with room for it, and by `Valid()` each has been handed the stream from where it began, without a gap, and those let go a prefix of that |
| Output.OutputBuffer.Attach | internal/fabric/output.go:237-270 | the snapshot is the last bytes written, and the reader's first byte is the next one |
| Output.OutputBuffer.Detach | internal/fabric/output.go:480-489 | one reader's channel is closed and it is forgotten; what it was handed stays |
| Output.OutputBuffer.Close | internal/fabric/output.go:281-302 | every channel is closed, none twice, and nothing is written or attached after |
| Followers.Write | internal/fabric/output.go:79-107 | the buffer's write is the protocol's: every reader is offered the chunk, and those without room lag |
| Followers.Attached | internal/fabric/output.go:237-270 | an attached reader is open, does not lag, and has received or has waiting everything since it attached |
| Followers.Take | internal/fabric/output.go:416-416 | taking a chunk is the protocol's |
| Followers.Close | internal/fabric/output.go:281-302 | closing the buffer is the protocol's: every reader's stream is over, and nothing else of it changes |
| Followers.Detach | internal/fabric/output.go:480-489 | letting one reader go is the protocol's |
| Followers.Attach | internal/fabric/output.go:237-270 | the new reader and the snapshot are the protocol's |
| Followers.Drain | internal/fabric/logfile.go:293-297 | the log writer's chunk is the protocol's step, whatever the disk takes of it |
| Followers.CatchUp | internal/fabric/logfile.go:333-353 | so is its catching up: the same gap, the same note and the same part of the snapshot |
| LogRuns.LogExact | internal/fabric/logfile.go:279-398 | in every interleaving of writes, lagging, draining, attaching again, closing and renaming, once the writer has finished every byte up to `flushed` is in the log once and in order or in a gap of that exact length, if and only if it was not closed between attaching again and catching up with chunks waiting and a snapshot owed; and at every moment bytes given and bytes missed equal bytes written and bytes counted as dropped |
| LogRuns.LogExactUninterrupted | internal/fabric/logfile.go:279-398 | without a close at that moment the log accounts for everything at every moment of the run |
| LogRuns.DrainedWhole | internal/fabric/logfile.go:293-297 | a reader drained to the end has the log up to the whole stream |
| LogRuns.ClosedTooSoon | internal/fabric/logfile.go:309-321 | with a ring of any size there is a run, closed at that moment, whose log lacks a byte it does not own up to |
| LogEnds.EndsExactly | internal/fabric/logfile.go:279-324 | in every run a writer that has finished was told to, or the buffer was closed; one that nobody told goes on after lagging; and at the end of its reader's stream it has written everything if and only if the reader did not lag |
| LogEnds.EndLost | internal/fabric/logfile.go:309-313 | the run in which it lags, the buffer is closed, and the end of the stream is neither in the log nor said to be missing |
| Ledger.GapNoteExact | internal/fabric/logfile.go:344-346 | the line a gap leaves in the log tells its length: two gaps with the same line have the same length |
| Sink.LogSink.CatchUp | internal/fabric/logfile.go:333-353 | a new snapshot, after a gap if it begins too late, brings a log that accounts for everything up to `flushed` to one that does up to the snapshot's end |
| Sink.LogSink.Emit | internal/fabric/logfile.go:363-398 | bytes of the stream go to the files, with what the disk did not take counted |
| Sink.LogSink.Give | internal/fabric/logfile.go:363-398 | the two files together grow by what the disk took; bytes given are bytes written and bytes dropped; while the disk moves files neither file grows over the limit; and a piece that fits is added to the file, with nothing moved aside |
| Sink.LogSink.Ready | internal/fabric/logfile.go:367-388 | the file is moved aside exactly when the piece does not fit and that is not being put off |
| Sink.LogSink.GiveAll | internal/fabric/logfile.go:363-437 | of any pieces given while the disk works, everything is in the two files until more than the limit has been written, and after that at least the newest bytes up to the limit less the longest piece |
| Sink.LogSink.Rotate | internal/fabric/logfile.go:402-437 | the file becomes the earlier one; when it cannot be moved it is kept and not tried again until as much again is written |
| Sink.LogSink.Drain | internal/fabric/logfile.go:293-297 | a chunk that begins where the log ends keeps it accounting for everything |
| Since.SinceStart | internal/fabric/logfile.go:566-588 | the loop finds the last mark not after the moment asked for, and the offset to begin at |
| Since.ReadSince | internal/fabric/logfile.go:627-671 | one answer out of two files, with its limit, and what it says of bytes that have no time |
| Since.LimitNewest | internal/fabric/logfile.go:663-669 | a limit leaves the newest bytes of what the index answers, as many as it allows, and says so when that is not all |
| Since.UnknownRun | internal/fabric/logfile.go:643-661 | after any writing and rotating, the count of bytes said to have no time is the number of those in the answer, if and only if not both files begin without an index and the answer reaches back before the first mark |
| Since.UnknownMissed | internal/fabric/logfile.go:655-656 | two files from before there was an index, written on: two bytes of the answer have no time, and one is counted |
| Since.SinceRun | internal/fabric/logfile.go:566-671 | after any writing and rotating, with an interval of whole seconds, the answer is a suffix of both files that has every byte written in a second later than the one asked for, and no byte older than it by more than the interval |
| Since.FractionMisses | internal/fabric/logfile.go:573-580 | with any other interval there is a run in which the answer leaves out a byte of a later second |
| Lifecycle.RunFromStart | internal/fabric/fabric.go:370-664 | in every interleaving of Add, Ensure, Start, Stop, Restart, Remove, Rename and the loops' own exits and respawns: a service has at most one live supervisor, each of them is in the table or is being stopped by the Restart that holds its lock, and a blocked watcher with no token has missed nothing that is not still to be told |
| Lifecycle.NoDeadlock | internal/fabric/fabric.go:580-600 | whenever a caller is not done some caller or loop can take a step that gets work out of the way, two renames in opposite directions included |
| Lifecycle.CanFinish | internal/fabric/fabric.go:370-664 | from every state a run can reach, every caller can still finish, by steps of callers and loops alone and with no new ones coming |
| Outcomes.DoneAsAsked | internal/fabric/fabric.go:219-664 | in every run, a caller about to let go of its locks that met with no failure has done what it was called for: begun what was to be started, stopped what was to be stopped, put a successor in place, removed the name, or moved the supervisor to the new name and off the old |
| Outcomes.StopsSoon | internal/fabric/supervisor.go:352-539 | a loop that is told to stop is nearer its end after each move it makes, and starts no process but one it was about to |
| Lifecycle.EndedIsOld | internal/fabric/fabric.go:476-499 | from when the successor is in place until it is started, a watcher that reads an ending reads it from a supervisor it looked up before that |
| Lifecycle.EndedWhenLaunching | internal/fabric/fabric.go:476-499 | once the successor is about to be started, a watcher reads an ending if and only if the supervisor it looked up is not the successor and had ever run |
| Lifecycle.StaleEnding | internal/fabric/fabric.go:967-1002 | from every state with a process and its service's lock free, a watcher that did look before is told of an ending although the restart goes through |
| Lifecycle.StaleEndingReached | internal/fabric/fabric.go:967-1002 | it happens from the start, with one service and one watcher that has looked |
| Supervision.Supervisor.Run | internal/fabric/supervisor.go:352-498 | every status published is consistent - Running exactly with a process, Ended only in a final state and never undone, a deadline with every backing off; the loop ends in the state of the first turn that ends it; processes are started exactly when the waits say; and the processes said to be running are the ones there were, in order and counted |
| Supervision.ExitOutcome | internal/fabric/restart.go:61-73 | an exit nobody asked for ends the loop if and only if the policy is never, or on failure and the exit had code 0 and no signal; as exited exactly when it had |
| Supervision.OtherOutcomes | internal/fabric/supervisor.go:352-539 | being told to stop ends it as stopped; without a process only always tries again; and a notice that cannot be written ends it as failed |
| Supervision.StartsWait | internal/fabric/supervisor.go:502-539 | from one start to the next is the run, the wait for as many short runs in a row as there were, and how late the timer was |
| Supervision.WaitDoubles | internal/fabric/restart.go:101-117 | the wait doubles with every short run, up to the longest |
| Supervision.WindowBound | internal/fabric/restart.go:75-85 | starts of one supervisor are a second apart, so t seconds have at most t + 1 of them |
| Supervision.RestartTracker.Died | internal/fabric/restart.go:101-117 | counts the short runs in a row, forgives them after a long one, and waits as long as the count says |
| Supervision.StatusWatchers.Watch | internal/fabric/watch.go:33-53 | a new watcher has an empty channel of its own |
| Supervision.StatusWatchers.Notify | internal/fabric/watch.go:57-66 | every watcher has a token, whether it had one or not |
| Fence.NothingCrosses | internal/daemon/attachclient.go:1690-1763 | for every schedule of the reader and of successive sessions, what has been sent on and obeyed is what was typed up to some point, in its order: keys typed before a command are sent before it is obeyed, once each, and none typed after it are - unless a session ended by itself while fenced |
| Fence.RestIsInOrder | internal/daemon/attachclient.go:654-667 | a run that comes to rest has done everything typed in order, and had no session cut off |
| Fence.EndingCrosses | internal/daemon/attachclient.go:1752-1756 | from every state in order, a session that ends by itself leaves no continuation, up to the next such ending, in which a key overtakes a command or is overtaken, if and only if it was not waiting behind a fence |
| Fence.KeyCrosses | internal/daemon/attachclient.go:1690-1763 | the run from the start in which it happens: a command, its fence taken first, a key, the ending, and the key sent on |
| Fence.CutOffCrosses | internal/daemon/attachclient.go:1752-1756 | in every state with a session behind a fence and a key after it, an ending there lets that key go before its command |
| Fence.MovesOn | internal/daemon/renderedsession.go:253-312 | while anything is on its way some step moves it on: the fence switches the keyboard off for nothing but a command that comes |

## Findings

Where a property that was promised fails, a lemma has the input or the run, and another says exactly when it holds.

- **A repaint with a wrap pending can lose attributes.** The renderer writes a reset after the rows but still compares
  the last cell, which it draws again, with the style before the reset (`internal/vt/render/render.go:108` and
  `internal/vt/render/render.go:124`). `BoldRowNotRepainted` and `BoldRowReached` have the screen and the bytes that
  make it; `RepaintRoundTrip` has the condition.
- **A hyperlink's end is drawn.** The renderer ends a link with ESC backslash (`internal/vt/render/render.go:93`), but the
  emulator ends the command at the ESC and draws the backslash, also when the stream is well formed, which the comment
  there says it does not (`internal/vt/grid/parser.go:745`). `LinkDrawsBackslash`.
- **Mode 1048 can put the cursor outside the screen.** Its restore does not clamp (`internal/vt/grid/parser.go:374`),
  unlike the other restores. `SaveResizeRestore` has the run, `RunLost` the condition. The model calls the terminal lost
  at that moment; the program comes to harm only if a character is drawn before another movement clamps the cursor.
- **Closing the log writer can leave a gap it does not own up to.** If it is closed after attaching again and before
  catching up, chunks already waiting are written without the snapshot before them
  (`internal/fabric/logfile.go:318`). `ClosedTooSoon` has the run, `LogExact` the condition.
- **The end of a stream can be missing without a word.** A writer that has fallen behind when the buffer is closed cannot
  attach again, and what it has not written is in no gap (`internal/fabric/logfile.go:310`). `EndLost` has the run,
  `EndsExactly` the condition.
- **A mode sequence over 64 bytes is lost when it is cut** (`internal/fabric/termmodes.go:73`). `LongSequenceLost` has
  the streams, `CutIgnored` the condition.
- **A marking interval that is not whole seconds loses output.** The search for where to begin rounds the interval down
  (`internal/fabric/logfile.go:577`). With the interval as it is shipped, a minute, nothing is lost. `FractionMisses` and
  `SinceRun`.
- **Bytes without a time are not all counted.** When neither file has an index from its beginning and the answer takes
  in both, the ones in the newer file before its first mark are left out of the count
  (`internal/fabric/logfile.go:655`). `UnknownMissed` has the run, `UnknownRun` the condition.
- **A restart can still be taken for an ending.** What the comment at `internal/fabric/fabric.go:474` promises holds for a watcher that
  looks the service up after the successor is in place. One that has looked it up just before holds the old supervisor
  (`internal/fabric/fabric.go:997`), and reads its ending. `StaleEndingReached` has the run,
  `EndedIsOld` and `EndedWhenLaunching` say when.
- **A session that ends by itself while fenced loses the fence.** The next session listens to the keyboard at once
  (`internal/daemon/attachclient.go:1693`), so keys typed after the waiting command are sent before it.
  `KeyCrosses` has the run, `EndingCrosses` the condition.

## Left out

- Machine.Decoder.Escape: the keypad's mode, which does not affect the cells; `TermModes` follows it.
- Machine.Decoder.Dispatch: replies to the terminal's queries, the table of modes and the counting of unknown sequences.
- Machine.Decoder.Str: the head of a control string that is kept, and the answers made from it.
- Machine.Decoder.Osc: titles, the working directory and colour questions.
- Machine.Decoder.Feed: goes no further once the cursor is outside the screen; how the program goes on from there is not modelled.
- RepaintLaws.RepaintRoundTrip: link-free screens only, since the emulator draws part of a link's end (`LinkDrawsBackslash`).
- Output.OutputBuffer.Write: the picture kept of a full-screen program.
- Output.OutputBuffer.Attach: that picture, drawn for the new reader.
- Replay.Assemble: that picture, sent instead of the snapshot, and a client that asks for no replay.
- Fence.NothingCrosses: the fence's timeout, failed writes, and fences that the picker and the rename prompt leave behind.
- Lifecycle.RunFromStart: reading the registry, its files and its errors are one step that may fail; shutting down, and requests during adoption, are not steps.
- Since.SinceRun: failed writes of the index, a clock that goes back, and intervals under a second.
- Supervision.Supervisor.Run: the process, its exit and the clock are given turn by turn; a turn with an inherited process counts as a start.
- One-column screens: a wide character there runs past the row.
- Parameters of control sequences are unbounded integers; the machine's width of them is not modelled.
- Which runes are combining marks is left open; the wide ranges and the plain ones are concrete.
- The text of the log's error messages, and reading the tail of a log.
- What the reader makes of the prefix key and its table of commands: what is typed is keys and commands, in order.
- Read-only and frozen panes, status lines, layouts kept on disk, and the widths of panes.
- Spawning, signals, control groups, handing over to another daemon, sockets and the command line.
