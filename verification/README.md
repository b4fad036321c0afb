# Verified models of Treeix

Dafny models of the parts of Treeix whose promises hold over whole runs: the PTY daemon's output streams and its
screen snapshots, the app's client of the daemon, and the parsers, protocols and small state machines around them.
`dafny verify dfyconfig.toml` checks the project.

- **Output of a session** (`Stream`, `FlowControl`, `Session`, `Wakeup`). A state machine whose steps are the critical
  sections of `session.rs`: ingest, absorb, flush, attach, detach, ack, resync. Frames continue one another byte by
  byte, credit is a balance, one viewer never disturbs another, a sleeping reader is woken. `Session` is the object with
  the daemon's fields; each of its methods takes exactly one step. The screen is a function of the bytes parsed, so a
  snapshot is the output up to its seq.
- **The app's client** (`Relay`, `EndToEnd`, `AppClient`). Requests by id and the channels that attached. Every channel
  lives the life of a small automaton whatever the others do, and with the streams above this gives the promise end to
  end: what a webview has drawn is a prefix of the PTY's output.
- **Screen snapshots** (`Sgr`, `Text`, `Screen`, `Snapshot`, `Replay`, `Alignment`, `Landing`, `RoundTrip`, `Printed`,
  `Survival`, `Settling`, `Serializer`). The serializer, a terminal that reads its text (deferred wrap, line feeds into
  the history, wide characters and their spacers, marks, SGR, cursor), and the replay theorem: what the text of any
  snapshot brings back and where each cell of it lands, exactly which screens come back as they were, and exactly when a
  second snapshot brings back the same as the first. The `Write…` methods build the text in the serializer's own loops.
- **Escape sequences** (`Osc`, `CwdUrl`). The chunked scanner against a byte by byte automaton, and the file URL of the
  working directory.
- **Git's text** (`GitPath`, `DiffHeader`, `Patch`, `Changes`) and **worktree creation** (`SingleFlight`).
- **Dictation** (`Vocabulary`, `Recording`), **message framing** (`Framing` and `HeaderLine` for language servers,
  `ProtoFrame` for the daemon), **agent status** (`StatusWatch`), **file history** (`History`) and the **settings merge**
  (`Settings`).

Text that the program handles as bytes is a string of characters below 256.

## What does not hold, and exactly when

Where the code falls short of a promise the model keeps the code, proves exactly when the promise is met, and shows a
failing input.

- Output that arrives while no viewer is attached is not queued. If older output is still on its way to the flush, a
  viewer that attaches then misses bytes: `FlowControl.HoleExactly`, `FlowControl.HoleShows`, and from the start
  `FlowControl.HoleIsReached`.
- A resync ends a lag without notifying the reader that waits for credit. If it comes five seconds or more after the
  ack that made it due, the reader sleeps on: `Wakeup.ResyncWakesExactly`, `Wakeup.SlowResyncLosesTheWakeup`.
- A page load while the reader is between taking an attach's reply and letting its channel join the relay leaves that
  channel open for the page that is gone, until a send on it fails: `EndToEnd.PageLoadSilencesExactly`, and from the
  start `EndToEnd.LoadedPageIsSent`, after which the channel has been sent its snapshot and a frame.
- Some styles do not come back (`Sgr.StyleRoundTrips`): two underline kinds (`Sgr.TwoUnderlinesAreLost`), a named
  underline color (`Sgr.NamedUnderlineIsLost`), a named color above 15 (`Sgr.DimColorIsLost`).
- Some screens do not come back as they were (`Survival.SnapshotExactly`), each on two or three columns: one with a
  tab (`Survival.TabIsLost`), with a wrap on its last row (`Survival.LastWrapIsLost`) or above a blank row
  (`Survival.WrapAboveBlankIsLost`), with a row that scrolled in under a colored wrap (`Survival.ColoredWrapIsLost`),
  with a wrap pending behind a wide character (`Survival.WrapBehindWideIsLost`), and with a spacer at the edge whose
  wide character was erased from the row below (`Survival.LostWideIsLost`): there the row below moves up
  (`Survival.LostWideMovesUp`). Printing leaves no such spacer (`Printed.PrintingLeavesWhole`), an erase or a scroll
  can; even then every cell comes back, in order, and none moves down (`Landing.EveryCellLands`,
  `Landing.OrderIsKept`, `Landing.NoneMovesDown`).
- What a snapshot brought back is not always brought back by a second one: a row that wraps above a row of tabs keeps
  its wrap once and loses it the second time (`Settling.SecondSnapshotExactly`, `Settling.TabUnderWrapIsLost`); the
  first time its tab is lost (`Settling.TabUnderWrapIsNotBack`).
- An OSC payload over the limit that is ended by ESC and followed by `]` hides the next sequence or not, by where the
  chunks split: `OscScan.ChunksExactly`, `OscScan.SplitHidesASequence`. Ended by ESC at all, it leaves the scanner in
  one state or another by where they split: `OscScan.StatesExactly`, `OscScan.SplitLeavesEsc`.
- With both sides plain, `diff_path` misreads an old path that holds ` b/` (`DiffHeader.DirectoryIsMisread`), or whose
  first character takes several bytes, which git prints plain only with `core.quotePath` off
  (`DiffHeader.TwoByteStartIsMisread`): `DiffHeader.DiffPathExactly`, and for whole patches `Patch.SplitPathsExactly`.
- A word of the input that has a capital sigma at the end of a word of more than one letter is not replaced, though an
  alias spells it: the alias is put in lower case as a whole, the input character by character
  (`Vocabulary.OccurrenceIsTakenExactly`, `Vocabulary.SigmaIsNotFound`).
- `read_frame` is documented to return `None` on a clean end between frames. It also does when up to three bytes of
  the next length have arrived: `ProtoFrame.CutConnection`, `ProtoFrame.ThreeBytesEndCleanly`. Bodies over `MAX_FRAME`
  are written but not read back (`ProtoFrame.ReadUndoesEncodeExactly`): they are refused
  (`ProtoFrame.OverlongIsRefused`), or cut when their length wraps (`ProtoFrame.WrappedIsMisread`).
- Two patches merged one after the other are not always one merged patch: `Settings.ComposeExactly`,
  `Settings.ReplacedObjectComesBack`.
- Until output or a hook is seen a session keeps the status it was created with:
  `StatusWatch.SkippedPollsChangeNothing`, `StatusWatch.UnseenPollIsSkipped`.
- An agent started in a shell starts fresh once the watch loop has seen the shell at its prompt
  (`StatusWatch.NextAgentStartsFresh`). One started before that is taken for the agent before it and shows as done
  though it has only rested: `StatusWatch.QuickAgentIsDone`.
- A shell's kind and its status are set one after the other. In between a shell shows the status its agent left
  behind: `StatusWatch.ShellIsNoAgent`, `StatusWatch.LeftStatusLingers`.
- In a directory URL, `%+f` reads as an escape: `CwdUrl.PlainPathExactly`, `CwdUrl.PlusIsRead`.

## Model

| member | source | states |
|---|---|---|
| Stream.StepInv | crates/ptyd/src/session.rs:430-449 | every critical section, unless it ingests into a hole, keeps queue and batch contiguous and every viewer's frames exact |
| Stream.RunInv | crates/ptyd/src/session.rs:401-419 | so does every interleaving of them that leaves no hole |
| Stream.FlushInv | crates/ptyd/src/session.rs:536-561 | a flush sends each viewer that is not lagging exactly the stretch of output between what it has and the new frontier |
| Stream.SendChunksExact | crates/ptyd/src/session.rs:547-558 | frames cut from a batch are at most 64 KB each and together append the batch, all of it unless the viewer runs out of credit |
| Stream.AbsorbNoHole | crates/ptyd/src/session.rs:903-914 | taking a chunk into the batch moves no byte and leaves the frontier where it was |
| Stream.AttachInv | crates/ptyd/src/session.rs:605-632 | an attach snapshot starts an exact record, at any moment |
| Stream.ResyncInv | crates/ptyd/src/session.rs:660-680 | a resync makes a lagging record exact again |
| Stream.StreamsAreExact | bench/README.md:45 | over every interleaving without a hole each viewer's frames continue one another byte by byte from its snapshot, and one that does not lag has drawn exactly the output up to the later of its snapshot and the flush frontier |
| FlowControl.RunCredit | crates/ptyd/src/session.rs:33-36 | no viewer ever owes more than 1 MB and one frame, and one that lags owes more than 256 KB or has its resync due |
| FlowControl.LagStarts | crates/ptyd/src/session.rs:547-551 | a viewer starts to lag only in a flush and only when it owes more than 1 MB |
| FlowControl.ResyncFallsDue | crates/ptyd/src/session.rs:643-657 | a resync becomes due only by an ack that leaves a lagging viewer owing 256 KB or less |
| FlowControl.CreditIsTheBalance | crates/ptyd/src/session.rs:643-657 | with honest acks a viewer owes what it was sent since it attached less what it acked |
| FlowControl.LagEnds | bench/README.md:45 | a lagging viewer is sent nothing, and once its acks cover all but 256 KB its one resync brings it level with the screen |
| FlowControl.ViewersAreIsolated | crates/ptyd/src/session.rs:540-558 | dropping all acks and resyncs of other viewers from a run changes nothing about a viewer's record, credit and bytes |
| FlowControl.HoleShows | crates/ptyd/src/session.rs:442-449 | output ingested unqueued over a backlog: a viewer that attaches next is not shown the byte that follows |
| FlowControl.HoleIsReached | crates/ptyd/src/session.rs:442-449 | from the start: a viewer attaches, a byte is queued, the viewer leaves, output arrives, and the next viewer misses the byte after it |
| FlowControl.HoleExactly | crates/ptyd/src/session.rs:442-449 | output with no viewer attached leaves every later viewer exact if and only if nothing older is on its way to the flush |
| Session.Session.constructor | crates/ptyd/src/session.rs:198-234 | a new session goes on from the seq it was restored at, with nothing queued and nobody attached |
| Session.Session.Ingest | crates/ptyd/src/session.rs:430-449 | the reader's critical section is one ingest step |
| Session.Session.Absorb | crates/ptyd/src/session.rs:903-914 | a chunk keeps its seq only in an empty batch and is appended otherwise: one absorb step |
| Session.Session.SendAll | crates/ptyd/src/session.rs:547-558 | the loop over a viewer's bytes sends the chunks of the specification and leaves the record it gives |
| Session.Session.FlushOne | crates/ptyd/src/session.rs:540-558 | one viewer's share of a flush changes its record and its outbox only |
| Session.Session.Flush | crates/ptyd/src/session.rs:536-561 | the loop over the viewers, in any order, is one flush step |
| Session.Session.Attach | crates/ptyd/src/session.rs:605-632 | one attach step: the record starts at the seq of the snapshot that is sent |
| Session.Session.Detach | crates/ptyd/src/session.rs:635-641 | one detach step, and whether the last viewer left |
| Session.Session.Ack | crates/ptyd/src/session.rs:643-657 | one ack step; it tells its caller to resync exactly when it makes a resync due |
| Session.Session.Resync | crates/ptyd/src/session.rs:660-680 | one resync step, which does nothing for a viewer that is gone or not lagging |
| Session.Session.Signal | crates/ptyd/src/session.rs:717-732 | closing is one step |
| Wakeup.NoLostWakeup | crates/ptyd/src/session.rs:422-427 | over every interleaving with prompt resyncs a reader that sleeps has a stuck viewer to wait for or a notification on its way |
| Wakeup.SleepsExactly | crates/ptyd/src/session.rs:100-104 | over every run from the start a check puts the reader to sleep if and only if the session is not closing and some attached viewer lags whose last ack and start of lag lie five seconds back or more |
| Wakeup.SleepsOn | crates/ptyd/src/session.rs:422-427 | a sleeping reader sleeps on through anything but a detach and a notification |
| Wakeup.NotificationsAreConserved | crates/ptyd/src/session.rs:635-657 | over every run from the start the notifications of acks of attached viewers, attaches and closes are each delivered once or still on their way |
| Wakeup.ResyncWakesExactly | crates/ptyd/src/session.rs:660-680 | a resync keeps that exactly unless its viewer was the only stuck one and nothing else wakes the reader |
| Wakeup.LagRun | crates/ptyd/src/session.rs:401-419 | from the start a viewer that acks nothing lags after eighteen full reads |
| Wakeup.SlowResyncLosesTheWakeup | crates/ptyd/src/session.rs:643-680 | from there: an ack of all it was sent, five seconds, the reader's check, and the resync leaves the reader asleep |
| Relay.StepRefines | apps/desktop/src-tauri/src/daemon.rs:187-261 | each step of the client is, for every channel, the step of that channel's own life |
| EndToEnd.RunRefines | apps/desktop/src-tauri/src/daemon.rs:187-261 | over every run a channel is delivered exactly what its own life sends it |
| EndToEnd.DeliveredInOrder | apps/desktop/src-tauri/src/daemon.rs:245-261 | a channel gets its one snapshot first and then the frames read for it in order, all of them while it is relayed |
| EndToEnd.AttachedOnce | crates/ptyd/src/session.rs:623-629 | the daemon puts one snapshot on the outbox of a viewer that attaches once, before anything else |
| EndToEnd.WebviewShowsTheOutput | crates/ptyd/src/session.rs:605-632 | what a webview has drawn is a prefix of the PTY's output, and all of it once everything has arrived and was flushed and the viewer does not lag |
| EndToEnd.RepliesExactly | apps/desktop/src-tauri/src/daemon.rs:118-131 | over every run a request's waiter is given exactly the first response with its id that comes while it waits, and nothing else, whatever is asked besides |
| EndToEnd.ReplyIsTheResponse | apps/desktop/src-tauri/src/daemon.rs:245-260 | a waiter is given the response itself, and nothing after it, unless it is the screen of a wanted attach: then that goes to the channel and the waiter is given the rest, with the response's own seq |
| EndToEnd.RepliesOnce | apps/desktop/src-tauri/src/daemon.rs:245-250 | over every run no request is answered twice, and none before it is asked |
| EndToEnd.GoneIsDetached | apps/desktop/src-tauri/src/daemon.rs:231-242 | over every run each frame for a channel that is not relayed, or whose page is gone, asks once for a detach, and nothing else does but the page's own detach and its reload |
| EndToEnd.DetachesAreConserved | apps/desktop/src-tauri/src/daemon.rs:104-116 | over every run each detach asked for has been written, or is still to be, or was lost with the connection |
| EndToEnd.DetachTakesNoReply | apps/desktop/src-tauri/src/daemon.rs:104-116 | a detach takes a request id of its own, and whatever is replied to it resolves no request |
| EndToEnd.ReloadSilencesExactly | apps/desktop/src-tauri/src/daemon.rs:93 | the second half of a page load silences a channel of its page for good if and only if the reader is not between taking its attach's reply and letting it join |
| EndToEnd.ForgottenIsSilent | apps/desktop/src-tauri/src/daemon.rs:84-92 | an attach that the first half forgets is never sent anything, whatever comes |
| EndToEnd.PageLoadSilencesExactly | apps/desktop/src-tauri/src/daemon.rs:83-93 | a whole page load, with anything between its halves, silences every channel the page asked for or had, except one whose reply was taken before the load and which has not joined before its end |
| EndToEnd.LoadedPageIsSent | apps/desktop/src-tauri/src/daemon.rs:83-102 | from the start: asked, replied to, both halves of a page load, opened, joined, and a frame read: the channel of the page that is gone was sent its snapshot and that frame |
| AppClient.Daemon.Send | apps/desktop/src-tauri/src/daemon.rs:118-131 | a request takes the next id and one ask step |
| AppClient.Daemon.WriteFailed | apps/desktop/src-tauri/src/daemon.rs:137-140 | a request that could not be written is forgotten |
| AppClient.Daemon.Take | apps/desktop/src-tauri/src/daemon.rs:245-253 | a reply's entry is taken before anything is sent, and its waiter gets the response without the snapshot that goes to the channel |
| AppClient.Daemon.Open | apps/desktop/src-tauri/src/daemon.rs:253-254 | the attach's channel gets its snapshot, or it is over |
| AppClient.Daemon.Join | apps/desktop/src-tauri/src/daemon.rs:255-256 | after that, in a lock scope of its own, the channel joins the relay |
| AppClient.Daemon.SendOn | apps/desktop/src-tauri/src/daemon.rs:275-285 | a send delivers to one channel or fails and delivers nothing |
| AppClient.Daemon.RelayFrame | apps/desktop/src-tauri/src/daemon.rs:232-236 | one relay step: delivered, or dropped and to be detached |
| AppClient.Daemon.Detach | apps/desktop/src-tauri/src/daemon.rs:73-80 | the channel leaves the relay and its detach is asked for |
| AppClient.Daemon.DetachChannel | apps/desktop/src-tauri/src/daemon.rs:104-116 | a detach is written under the next request id, or lost if that fails; while disconnected it takes no id and nothing is sent |
| AppClient.Daemon.Connect | apps/desktop/src-tauri/src/daemon.rs:150-153 | a connection gives a writer |
| AppClient.Daemon.ForgetPending | apps/desktop/src-tauri/src/daemon.rs:83-92 | the first half of a page load takes the stream out of its webview's attaches only |
| AppClient.Daemon.ForgetStreams | apps/desktop/src-tauri/src/daemon.rs:93-102 | the second half drops all of its webview's channels and no other, and gives them to be detached |
| AppClient.Daemon.DropStreams | apps/desktop/src-tauri/src/daemon.rs:287-298 | the loop removes exactly the given keys |
| AppClient.Daemon.CloseWriter | apps/desktop/src-tauri/src/daemon.rs:168 | a lost connection takes the writer away |
| AppClient.Daemon.ClearPending | apps/desktop/src-tauri/src/daemon.rs:169 | after that every request is forgotten |
| AppClient.Daemon.ClearStreams | apps/desktop/src-tauri/src/daemon.rs:170 | and after that every channel |
| Sgr.ReadParams | crates/ptyd/src/snapshot.rs:258-301 | reading a printed style leaves its readable part, whatever the pen was before |
| Sgr.StyleRoundTrips | crates/ptyd/src/snapshot.rs:258-301 | a style comes back if and only if its colors are default, 0-15, indexed or RGB, its underline color is not a named one and it has one underline kind at most |
| Sgr.PrintedCodes | crates/ptyd/src/snapshot.rs:287-301 | a color prints nothing if and only if it is a default or a dim one, and a code of its own only if it is one of the sixteen |
| Sgr.TwoUnderlinesAreLost | crates/ptyd/src/snapshot.rs:258-284 | underline and undercurl together do not come back |
| Sgr.NamedUnderlineIsLost | crates/ptyd/src/snapshot.rs:287-301 | a named underline color comes back as the indexed one of its number |
| Sgr.DimColorIsLost | crates/ptyd/src/snapshot.rs:287-301 | a dim color comes back as the default one |
| Text.DigitsRead | crates/ptyd/src/snapshot.rs:304-331 | a number printed in decimal reads back |
| Screen.LexUndoesPrinting | crates/ptyd/src/snapshot.rs:116-155 | a terminal finds in the text exactly the operations that were printed |
| Replay.GridReplays | crates/ptyd/src/snapshot.rs:116-155 | replaying any grid of whole cells on a fresh terminal writes its cells out one behind the other, each where it has space, with a row of its own for every row that does not go on a wrapped one; it never needs more rows, and leaves the cursor behind the last cell |
| Replay.InkRun | crates/ptyd/src/snapshot.rs:140-151 | a cell printed anywhere goes on its row where it has space, and otherwise makes the terminal wrap, leaving a spacer at the edge when a wide character had one column left |
| Alignment.ReflowAligned | crates/ptyd/src/snapshot.rs:116-155 | when every spacer at an edge has its wide character below, as printing leaves it, every row of history and screen comes back on its own row as the image function says |
| Landing.EveryCellLands | crates/ptyd/src/snapshot.rs:116-155 | in any grid of whole cells every cell that is printed is in what comes back, a wide one with its spacer; none is overwritten |
| Landing.OrderIsKept | crates/ptyd/src/snapshot.rs:116-155 | the cells come back in their order, each behind the columns of the one before |
| Landing.NoneMovesDown | crates/ptyd/src/snapshot.rs:116-155 | no cell comes back below its row, or further right in it |
| RoundTrip.SnapshotReplays | crates/ptyd/src/snapshot.rs:48-97 | replaying the snapshot of any terminal of whole cells on any terminal of the size writes its grid out again and puts cursor, pen and pending wrap back |
| RoundTrip.SnapshotTextReplays | crates/ptyd/src/snapshot.rs:48-97 | so does reading its text |
| RoundTrip.SnapshotTextRestores | crates/ptyd/src/snapshot.rs:48-97 | when no spacer at an edge has lost its wide character that gives the restored terminal: the image of each row, the last cell rewritten if the wrap is pending, and the cursor |
| Printed.PrintingLeavesWhole | crates/ptyd/src/snapshot.rs:140-151 | printing leaves no spacer at an edge without its wide character: after any text of characters, marks and style changes, in lines of any length, with rows scrolled away or not, cells are whole, wide characters have their spacers and spacers at an edge their wide characters |
| Printed.SnapshotLeavesLed | crates/ptyd/src/snapshot.rs:48-97 | whatever was snapshotted, in what its text leaves every spacer at an edge has its wide character below |
| Survival.RowSurvivesExactly | crates/ptyd/src/snapshot.rs:116-155 | in any grid of whole cells a row is its own image, its last cell rewritten or not, if and only if its cells print as they are, its wrap is followed by a used row and its unused end was not filled with a color |
| Survival.SnapshotExactly | crates/ptyd/src/snapshot.rs:48-97 | any terminal of whole cells comes back as it was, scrollback past the limit aside, if and only if all its rows and its cursor survive and every spacer at an edge has its wide character below |
| Survival.TabIsLost | crates/ptyd/src/snapshot.rs:231-248 | a screen with a tab does not come back |
| Survival.LastWrapIsLost | crates/ptyd/src/snapshot.rs:116-155 | a screen whose last row wraps does not come back |
| Survival.WrapAboveBlankIsLost | crates/ptyd/src/snapshot.rs:122-154 | a screen with a wrapped row above a blank one does not come back |
| Survival.ColoredWrapIsLost | crates/ptyd/src/snapshot.rs:122-154 | a screen with a row that scrolled in under a wrap and starts in a color does not come back |
| Survival.WrapBehindWideIsLost | crates/ptyd/src/snapshot.rs:304-331 | a screen whose wrap is pending behind a wide character does not come back |
| Survival.LostWideIsLost | crates/ptyd/src/snapshot.rs:140-151 | a screen with a spacer at the edge whose wide character is gone does not come back |
| Survival.LostWideMovesUp | crates/ptyd/src/snapshot.rs:140-151 | from its text the first letter of the row below comes back where the spacer was, and the second one in front of its own row |
| Survival.SnapshotIsStable | crates/ptyd/src/snapshot.rs:48-97 | a terminal that survives prints the same text again once it has come back |
| Settling.RowSettlesExactly | crates/ptyd/src/snapshot.rs:116-155 | a row that came back survives a second snapshot if and only if it does not come back wrapped above an empty row, nor short of the edge under a color |
| Settling.RestoredIsWhole | crates/ptyd/src/snapshot.rs:116-155 | what comes back is again a terminal that printing can leave behind, wide characters and their spacers included |
| Settling.SecondSnapshotExactly | crates/ptyd/src/snapshot.rs:48-97 | for every whole terminal, a second snapshot brings back what the first did if and only if that holds of every row |
| Settling.TabUnderWrapIsLost | crates/ptyd/src/snapshot.rs:116-155 | a row that wraps above a tab comes back wrapped once and not a second time |
| Settling.TabUnderWrapIsNotBack | crates/ptyd/src/snapshot.rs:231-248 | the same screen does not come back as it was from its first snapshot |
| Serializer.WriteColor | crates/ptyd/src/snapshot.rs:287-301 | appends a color's parameters as the specification prints them |
| Serializer.WriteFlags | crates/ptyd/src/snapshot.rs:258-284 | appends the flags' parameters in their order |
| Serializer.WriteSgr | crates/ptyd/src/snapshot.rs:258-284 | is the text of one style change, which StyleRoundTrips reads back |
| Serializer.WriteCell | crates/ptyd/src/snapshot.rs:231-248 | is the text of one cell after the pen, and leaves the cell's style as the pen |
| Serializer.WriteRow | crates/ptyd/src/snapshot.rs:140-151 | is the text of a row's cells up to its end, spacers skipped |
| Serializer.WriteLine | crates/ptyd/src/snapshot.rs:122-154 | is the text of a row and of what goes between it and the row above |
| Serializer.WriteGrid | crates/ptyd/src/snapshot.rs:116-155 | is the text of the operations that GridReplays replays |
| Serializer.WriteRewrite | crates/ptyd/src/snapshot.rs:304-331 | writes the last cell of a row again when its wrap is pending |
| Serializer.WriteCursor | crates/ptyd/src/snapshot.rs:304-331 | is the text that positions the cursor and sets its pen |
| Serializer.Serialize | crates/ptyd/src/snapshot.rs:48-97 | is the text of the operations that SnapshotReplays replays |
| OscScan.OscScanner.ScanChunk | crates/ptyd/src/osc.rs:38-86 | the loop that jumps over bytes finds what the byte by byte automaton finds, from the ground exactly the payloads that stand in the chunk, and ends in its state, and terminates though one of its steps consumes nothing |
| OscScan.FindsTheStretches | crates/ptyd/src/osc.rs:38-86 | the payloads found in any stream are exactly its stretches of at most 4096 bytes between an ESC and `]` and the BEL, or the ESC and backslash, that close them; an ESC that ends a longer one opens none |
| OscScan.OneSequence | crates/ptyd/src/osc.rs:50-79 | one whole sequence from the ground: BEL and ESC backslash find its payload, CAN and SUB and a payload over 4096 bytes find none, and each leaves the scanner on the ground |
| OscScan.ChunksExactly | crates/ptyd/src/osc.rs:38-86 | all splits of all prefixes of a stream, ended by a BEL or not, find the payloads one scan finds if and only if no payload over the limit is ended by ESC and followed by `]` |
| OscScan.StatesExactly | crates/ptyd/src/osc.rs:38-86 | all splits of all prefixes find the same payloads and end in the same state as one scan if and only if no payload over the limit is ended by ESC |
| OscScan.SplitLeavesEsc | crates/ptyd/src/osc.rs:65 | a split in front of such an ESC leaves the scanner behind it, no split leaves it on the ground, and both found the same |
| OscScan.SplitHidesASequence | crates/ptyd/src/osc.rs:65 | on such a stream a split in front of the ESC finds the next sequence and no split misses it |
| CwdUrl.ReadCwd | crates/ptyd/src/osc.rs:126-148 | the index loop decodes the path behind the host |
| CwdUrl.CwdRoundTrips | crates/ptyd/src/osc.rs:125-148 | any absolute path comes back from its URL, whatever the host and whatever was escaped besides percent signs |
| CwdUrl.PlainPathExactly | crates/ptyd/src/osc.rs:132-146 | a path sent without escapes is read as it is if and only if no percent sign stands in front of what reads as a byte |
| CwdUrl.PlusIsRead | crates/ptyd/src/osc.rs:132-146 | `%+f` reads as one byte |
| GitPath.TakeOctal | crates/core/src/git.rs:316-328 | at most three octal digits are taken, and their value is read |
| GitPath.UnquotePath | crates/core/src/git.rs:304-341 | the loop with its lookahead computes the unquoting |
| GitPath.UnquoteUndoesQuote | crates/core/src/git.rs:303-341 | unquoting undoes git's C-style quoting of every byte string, with core.quotePath on or off |
| GitPath.OctalRead | crates/core/src/git.rs:316-328 | a backslash and one to three octal digits read as one byte, and what follows is read on its own |
| GitPath.OtherEscapeRead | crates/core/src/git.rs:329-338 | any other escaped character stands for itself, and a backslash at the end for nothing |
| GitPath.FindClosingQuote | crates/core/src/git.rs:344-356 | the flag loop gives the length up to a quote that closes at the very end |
| GitPath.ScanIsWellQuoted | crates/core/src/git.rs:343-356 | it accepts exactly the insides made of plain characters and escaped pairs, so no other quote closes first |
| GitPath.QuoteIsWellQuoted | crates/core/src/git.rs:343-356 | everything git quotes is such an inside |
| DiffHeader.DiffPathExactly | crates/core/src/git.rs:358-393 | the new path comes back from every header with a quoted side, and from a plain one if and only if the old path holds no ` b/` past its first byte and starts with a one-byte character |
| DiffHeader.DirectoryIsMisread | crates/core/src/git.rs:375-393 | the header of `a b/c` renamed to `x` does not give `x` |
| DiffHeader.TwoByteStartIsMisread | crates/core/src/git.rs:375-393 | the header of a path of one two-byte character, printed plain and renamed to `x`, does not give `x` |
| Patch.ReturnsGo | crates/core/src/git.rs:414-415 | a line that ends in a carriage return and a newline is read without either |
| Patch.HeaderPathExactly | crates/core/src/git.rs:395-400 | a header's path between quotes is unquoted, and any other is taken as it is |
| Patch.MatchesMissNothing | crates/core/src/git.rs:403-407 | searching on behind each match finds every line that starts a file |
| Patch.DescribeFile | crates/core/src/git.rs:412-440 | one file's patch is described from exactly its own headers and hunks |
| Patch.SplitUndoesConcat | crates/core/src/git.rs:402-442 | the patches of many files come apart into exactly those texts, in order, with paths, status and exact line counts |
| Patch.SplitPathsExactly | crates/core/src/git.rs:358-442 | each of them has the new path of its file if and only if its header tells it, and a rename's old path in any case |
| Changes.SplitGivesTheChanges | crates/core/src/git.rs:402-442 | for the patches git prints of any new, deleted, renamed, edited and binary files the split gives, in order, each one's kind as its status, its old path, the number of lines added and removed, and its own text unless it is binary |
| SingleFlight.StepKeeps | crates/core/src/git.rs:911-937 | every lock scope and cell operation keeps map, cells and calls consistent |
| SingleFlight.OneCreationPerKey | crates/core/src/git.rs:906-908 | over every interleaving one call at most creates for a key, and the key has an entry exactly while it does |
| SingleFlight.JoinersReturnTheOwnersResult | crates/core/src/git.rs:916-929 | a call that finds an entry returns what that entry's owner returns |
| SingleFlight.CreatorsReturnTheirOwn | crates/core/src/git.rs:930-936 | a creating call returns the outcome of its own creation, whatever happens in between |
| SingleFlight.NoStaleResult | crates/core/src/git.rs:932-935 | once a creation's call has returned, the calls that ever hold its cell are those that had joined it by then, whatever is called afterwards |
| SingleFlight.WaitsEnd | crates/core/src/git.rs:927-929 | behind every wait is a set cell or a call that is about to set it |
| SingleFlight.CreationEnds | crates/core/src/git.rs:930-936 | a creation that has finished sets its cell, returns its outcome and frees its key by its call's next two steps, whatever others do in between |
| SingleFlight.JoinerReturns | crates/core/src/git.rs:927-929 | a joined call's next step returns the outcome once it is set |
| SingleFlight.EntersExactly | crates/core/src/git.rs:916-926 | a call joins the creation under way for its key and creates if and only if there is none |
| SingleFlight.Registry.Enter | crates/core/src/git.rs:916-926 | the first lock scope joins or inserts: one step |
| SingleFlight.Registry.Publish | crates/core/src/git.rs:931 | setting the cell is one step, and a set cell keeps its value |
| SingleFlight.Registry.Wait | crates/core/src/git.rs:927-929 | a joined call returns the cell's value once it is set: one step |
| SingleFlight.Registry.Remove | crates/core/src/git.rs:932-936 | the second lock scope removes the entry: one step |
| Vocabulary.MatchIgnoringCase | apps/desktop/src-tauri/src/voice.rs:865-880 | gives n exactly when the first n characters lower to the key, and there is no other such n |
| Vocabulary.Collect | apps/desktop/src-tauri/src/voice.rs:825-834 | dropping a key before pushing it leaves exactly the entries of a map in which later definitions win |
| Vocabulary.SortIsSort | apps/desktop/src-tauri/src/voice.rs:835-836 | the replacements are put in order of length, none lost or added |
| Vocabulary.FirstFit | apps/desktop/src-tauri/src/voice.rs:842-847 | the loop gives the first entry that spells up to the end of a word, or shows there is none |
| Vocabulary.FirstIsLongest | apps/desktop/src-tauri/src/voice.rs:835-836 | that entry is the longest whole word of the map from there |
| Vocabulary.ApplyVocabulary | apps/desktop/src-tauri/src/voice.rs:824-862 | the scan gives the corrected text: from each word start the longest key that ends a word is replaced, all else copied |
| Vocabulary.OneSegmentation | apps/desktop/src-tauri/src/voice.rs:823-862 | there is exactly one such segmentation of the input, and its rendering is the corrected text |
| Vocabulary.LastDefinitionWins | apps/desktop/src-tauri/src/voice.rs:831-832 | of several definitions of a key the last counts, and what nothing defines is no key |
| Vocabulary.OrderIsIrrelevant | apps/desktop/src-tauri/src/voice.rs:835-836 | terms without a repeated key may come in any order |
| Vocabulary.OccurrenceIsTakenExactly | apps/desktop/src-tauri/src/voice.rs:823-862 | a whole word that is an alias in any case is replaced where it stands if and only if no capital sigma ends a word of it |
| Vocabulary.OccurrenceIsTaken | apps/desktop/src-tauri/src/voice.rs:823-862 | beside other terms such a word is replaced by its own or a longer one |
| Vocabulary.WordIsCorrectedExactly | apps/desktop/src-tauri/src/voice.rs:823-862 | an input that is one such word becomes the term if and only if no capital sigma ends a word of it, and stays as it is otherwise |
| Vocabulary.SigmaIsNotFound | apps/desktop/src-tauri/src/voice.rs:828-829 | two capitals of which the second is a sigma stay as they are, though they are an alias |
| Vocabulary.LoneSigmaIsFound | apps/desktop/src-tauri/src/voice.rs:828-829 | a capital sigma on its own is replaced |
| Framing.ReadMessages | apps/desktop/src-tauri/src/lsp.rs:130-161 | the nested loop delivers what the reader's specification says, and whether it was refused |
| Framing.FrameIsFramed | apps/desktop/src-tauri/src/lsp.rs:125-127 | a framed body is a message the reader takes, whatever it holds |
| Framing.ExtraHeadersAllowed | apps/desktop/src-tauri/src/lsp.rs:139-147 | other header lines may stand in front of the length and behind it |
| HeaderLine.LengthExactly | apps/desktop/src-tauri/src/lsp.rs:143-151 | a header line named content-length in any case gives a number if and only if it spells that number between blanks, with a plus sign or zeros in front or not, and it fits 64 bits; any other line leaves the length as it was |
| Framing.ReadUndoesFraming | apps/desktop/src-tauri/src/lsp.rs:129-161 | any concatenation of framed messages is delivered whole and in order, whatever follows |
| Framing.CutDeliversAPrefix | apps/desktop/src-tauri/src/lsp.rs:135-155 | a stream cut at any byte delivers whole bodies in order only, and every message that is whole in it |
| Framing.RefusalStops | apps/desktop/src-tauri/src/lsp.rs:156-158 | over any stream a receiver gets what a willing one gets, up to and with the first body it refuses |
| ProtoFrame.Encode | crates/proto/src/lib.rs:386-392 | the frame is the length cut to 32 bits, least significant byte first, and the body |
| ProtoFrame.ReadUndoesEncodeExactly | crates/proto/src/lib.rs:402-423 | a frame reads back if and only if its body is at most MAX_FRAME long; a wrapped length lets none through |
| ProtoFrame.FramesRoundTrip | crates/proto/src/lib.rs:402-423 | any sequence of such frames reads back in order, whatever follows |
| ProtoFrame.CutConnection | crates/proto/src/lib.rs:401-415 | a stream cut at any byte gives exactly its whole frames, and a clean end if and only if fewer than four bytes are left |
| ProtoFrame.ThreeBytesEndCleanly | crates/proto/src/lib.rs:401-415 | three bytes of a length read like an end between frames |
| ProtoFrame.OverlongIsRefused | crates/proto/src/lib.rs:402-423 | a body one byte too long is refused |
| ProtoFrame.WrappedIsMisread | crates/proto/src/lib.rs:386-392 | a body of 2^32 and one bytes reads back as one byte |
| StatusWatch.Watcher.Poll | crates/ptyd/src/hooks.rs:228-285 | one poll of the watcher is one step of the specification, whatever the session's kind has become meanwhile |
| StatusWatch.Watcher.SetLiveStatus | crates/ptyd/src/session.rs:834-853 | a status is set only for the kind it was found for, and never over one that is not live |
| StatusWatch.Watcher.Drop | crates/ptyd/src/hooks.rs:218-221 | what was seen is dropped: one step |
| StatusWatch.Watcher.SetKind | crates/ptyd/src/session.rs:505-519 | the kind found in the foreground is set: one step |
| StatusWatch.Watcher.SetShellStatus | crates/ptyd/src/session.rs:770-780 | a shell's status is set after that, in a step of its own, which does nothing once an agent is in front |
| StatusWatch.SkippedPollsChangeNothing | crates/ptyd/src/hooks.rs:256-262 | skipping polls leaves the status that carrying all of them out gives, if and only if output or a hook was seen, nothing was polled, or the first status is none of running, needing its user and watched over |
| StatusWatch.UnseenPollIsSkipped | crates/ptyd/src/hooks.rs:263-265 | a session created as running that has put nothing out stays running, where a poll carried out finds it idle |
| StatusWatch.ScreenStatus | crates/ptyd/src/hooks.rs:59-95 | after any polls an agent read off its screen needs its user if the last screen shows a prompt, runs if it shows work and no prompt, and rests otherwise; resting it is done if and only if a screen since the first output showed either, or it was done already |
| StatusWatch.HookStatus | crates/ptyd/src/hooks.rs:59-95 | an agent with hooks needs its user on the last poll's input, runs on working, is watched over if the screen then counts what was left running, and rests otherwise; resting it is done if and only if a hook said so since it last did anything else, or it was done before that |
| StatusWatch.EndIsFinal | crates/ptyd/src/session.rs:834-850 | no poll changes the status of a session that has ended |
| StatusWatch.ShellIsNoAgent | crates/ptyd/src/session.rs:831-853 | over every run, whatever polls were under way when its agents left, a live shell whose status has been set since the last of them left is idle or running |
| StatusWatch.LeftStatusLingers | crates/ptyd/src/session.rs:753-781 | between setting the kind and setting the status it still shows what its agent left behind, and no longer |
| StatusWatch.NextAgentStartsFresh | crates/ptyd/src/hooks.rs:215-221 | once the loop has seen the shell at its prompt, the status of the next agent is that of its own polls, and done only if it worked or asked itself |
| StatusWatch.QuickAgentIsDone | crates/ptyd/src/hooks.rs:215-221 | an agent started before that is done after its first poll because the one before it worked |
| History.SnapshotIds | crates/core/src/history.rs:72-88 | the ids of a folder, each once, newest first |
| History.FileHistory.SnapshotBeforeSave | crates/core/src/history.rs:91-118 | the version on disk goes into the folder if and only if there is one and the newest kept is a minute old or more and differs, and then the oldest past a hundred goes; otherwise the folder is unchanged; so after any saves it holds the last hundred of the versions kept |
| History.SaveIs | crates/core/src/history.rs:91-118 | the versions kept say the same of every save, told by the folder before and after it |
| History.FileHistory.Prune | crates/core/src/history.rs:114-116 | the loop deletes exactly the ids past the newest ninety-nine |
| History.KeptIsSpaced | crates/core/src/history.rs:98-109 | versions kept are a minute apart or more and differ from their neighbours, whatever the clock does |
| History.AnySaves | crates/core/src/history.rs:90-118 | from an empty folder, after any saves at any times: at most a hundred versions, neighbours a minute apart and different, and all that was dropped older than all that is left |
| Settings.MergeInto | crates/core/src/settings.rs:430-439 | the loop over the patch's keys, in any order, computes the merge |
| Settings.MergeIsIdempotent | crates/core/src/settings.rs:429-439 | merging a patch twice is merging it once |
| Settings.UnreachedIsUntouched | crates/core/src/settings.rs:430-439 | every path the patch does not reach stays as it was, there or not |
| Settings.SetIsSet | crates/core/src/settings.rs:430-439 | whatever the patch sets is set |
| Settings.ComposeExactly | crates/core/src/settings.rs:430-439 | two merges are one merge of the merged patches, whatever the settings, if and only if wherever the second patch holds an object the first holds one or nothing |
| Settings.ReplacedObjectComesBack | crates/core/src/settings.rs:430-439 | an object replaced by a scalar and then by an object: its old key is gone after two merges and there after one |
| Recording.Recorder.Start | apps/desktop/src-tauri/src/voice.rs:1221-1257 | one start step, refused unless idle |
| Recording.Recorder.Pause | apps/desktop/src-tauri/src/voice.rs:1264-1287 | one pause or resume step |
| Recording.Recorder.Stop | apps/desktop/src-tauri/src/voice.rs:1290-1312 | one stop step, which stores the elapsed time |
| Recording.Recorder.End | apps/desktop/src-tauri/src/voice.rs:1100-1112 | a saved or failed recording leaves the recorder idle |
| Recording.TimeIsConserved | apps/desktop/src-tauri/src/voice.rs:1259-1262 | over any run with a clock that does not go back, the stored durations, the time elapsed so far and what was recorded of recordings given up are the time spent recording |
| Recording.StoredIsWhatWasRecorded | apps/desktop/src-tauri/src/voice.rs:1290-1312 | a recording is stored with the time it recorded between its start and its stop, pauses left out |
| Recording.StartedExactlyWhileRecording | apps/desktop/src-tauri/src/voice.rs:1248-1287 | a start time is set if and only if the phase is recording |

## Left out

- The terminal library: the alternate screen, scroll regions, hyperlinks, charsets, mode strings, the saved cursor, and
  what its parser does with sequences the serializer never prints.
- In the terminal model a wide character's halves are only written whole, the width of a character is a parameter, and a
  code the serializer never prints is read as no change.
- RoundTrip.SnapshotReplays: where making a pending wrap again writes over the spacer of a wide character, the terminal
  library takes that character away too and the model leaves it. It can only have moved up there behind two or more
  spacers whose wide characters are gone.
- RoundTrip.SnapshotTextReplays: the same.
- `spans`, the rows for the phone page: a field by field translation of cells.
- `clear`, `resize` and `load_snapshot`, which change the screen without output bytes, and the settling of synchronized
  updates, which can change it without a new seq.
- The time the coalescer waits for: absorb and flush may come in any order and at any time.
- Processes, PTYs, sockets, files, git commands and wall clocks: their results and times are inputs. Request timeouts
  in the app's client, which leave its maps as they are.
- The server's session and client maps: a connection that ends is a detach of its viewers. Connection setup and upgrade.
- UTF-8: where a text has to be valid, whether it is is a parameter or the model stops at its bytes.
- EndToEnd.RepliesExactly: a reply counts as given when the reader takes it; that the waiter of an attach is woken only
  after its channel has joined is not modelled.
- Framing.ReadMessages: only ASCII white space is trimmed off header lines; a line of other Unicode spaces ends a header
  block in the program and not in the model.
- What an OSC payload other than a directory means: a case analysis of its fields.
- `parse_status` and the other porcelain parsers.
- A creation that panics, which would leave its map entry and its joiners waiting.
- What the watcher's patterns find on a screen: their answers are a function of the seq, and blank at seq 0.
- Bodies too long for memory, and integers of 64 bits in seqs, counters and times, which are unbounded here.
- The encodings inside the daemon's frames.
- Settings.MergeInto: returns the merged value; that the program writes it in place is not modelled.
- Vocabulary.SortIsSort: the order among keys of one length is left open, since two of them cannot both match.
- StatusWatch.Watcher.Poll: reads the status it starts from and sets the one it finds in two lock scopes, here in one
  step; in between only a shell that takes over the foreground and hands it back can change a live status.
- Recording.Recorder.Start: checks the phase, asks the helper and updates in separate lock scopes, here in one step.
- Recording.Recorder.Pause: the same.
- Recording.Recorder.Stop: the same.
- Session.Session.Ack: that a resync due is carried out by the same caller right after is not part of the object; the
  streams hold for any delay between the two.
