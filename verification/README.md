# A verified model of the relay's terminal streams

This Dafny project models the parts of the terminal relay that decide whether a shell's bytes
arrive whole: the publisher beside the shell, the connection that carries many shells, the
relay's memory and database, and the small machines around them. `dafny verify dfyconfig.toml`
checks all of it.

## What it models

| file | models |
|---|---|
| `Bytes.dfy`, `Results.dfy` | a stream as a sequence of bytes, pieces of it at their offsets; results |
| `Stream.dfy` | `Retained` and `Outgoing`: offsets, retention, the answers to an attach and to a refusal |
| `Publish.dfy` | one pass of the driver's loop as a function, and theorems over every run of it |
| `Drive.dfy` | the driver's loop over its mutable state, proved to be those passes |
| `Ring.dfy` | the bounded replay buffer over a growable circular array |
| `Store.dfy` | the rows of `terminal_output`, the checkpoint transaction, the reload |
| `Terminal.dfy` | a terminal in the relay: append, checkpoint, durability, back pressure, subscribers |
| `Flush.dfy` | the checkpoint task over all resident terminals, and a caller that goes away |
| `Answers.dfy` | what the driver owes the relay and its owner, and sends |
| `Transport.dfy` | the driver's pieces through the connection to the relay's append |
| `Session.dfy` | an output frame's whole path through a publisher connection, and acknowledgements |
| `Relay.dfy` | memory, database and all transactions under way, waited for or not |
| `Protocol.dfy` | driver, network and relay together, as a state machine, and what each step keeps |
| `Runs.dfy` | the theorems over every run of it |
| `Progress.dfy` | no run is stuck: what every run can still come to |
| `FailingRuns.dfy` | three runs that reach what the theorems exclude |
| `Multiplexer.dfy` | one relay connection shared by many terminals |
| `Limits.dfy` | token buckets, and the sweep that drops idle ones |
| `Input.dfy` | keystrokes: sequence numbers, refusals and delivery |
| `Keys.dfy` | signing-key rotation, refresh and pruning |
| `Paging.dfy` | keyset pagination and its cursors |
| `Wire.dfy` | length-prefixed fields, the statement that is signed, the check before signing |
| `Ipc.dfy` | frames between a hosted shell and the daemon |

The central result is `Runs.RunsAreFaithful`. Its state machine, `Protocol.Next`, lets any
contiguous piece of any frame ever sent reach the relay at any time and any number of times,
lets any event on its way back be lost, lets a flush be abandoned between any two of its steps
and its transaction commit or fail at any later time, lets the relay crash between any two
steps of a checkpoint and restart from its rows, and lets a terminal be replaced by an empty
one at any time. It may begin with whatever an earlier process left at the relay, committed or
not. The daemon between driver and relay, its restarts and the second split are all instances
of that. Under all of it, no byte anywhere differs from what the shell's owner handed over.
`Runs.RunsAreResumable` adds, for runs in which the relay keeps the terminal and the driver
begins on secured ground, that the driver always still holds what the relay can ask for;
`CommittedStartIsSafe` has both for every run that starts with everything committed.
`AcknowledgedWasStored` says when an acknowledged byte has been stored, which is not always.

A driver that said nothing would be faithful too. `Answers.EverythingArrives` says that it does
speak: from the moment the relay names an offset the driver holds, everything the driver sends
over any run, carried in order, is accepted and takes the relay to the end of the stream, until
the relay names an offset again; `Transport.RunReachesRelay` takes it through a connection
shared with other terminals to the relay's own append, and `Answers.GoneIsClosed` to the close.
`Progress.NoRunIsStuck` is the same of whole runs: wherever one stands, there are steps after which
everything handed over is committed and acknowledged.
At the other end `RelayTerminal.SubscribedHears` says exactly how many of the next events a new
subscriber hears before it is dropped, and `HeardIsStream` what they add up to.

An offset is *secured* when no crash can take the relay below it, now or after any transaction
still under way. While no abandoned transaction commits late the rows tile exactly what the
offsets say, secured offsets are committed ones, and `OffsetsAreOrdered`, `DurableNeverFalls`,
`CrashLeavesTheCommitted` and `CloseMeansDurable` follow.

Where the source updates objects in place the model is a class whose methods are proved
against functions on values; the theorems over runs are about those functions.

## What the code does that its text does not say

- A reduced replay capacity is applied to a live ring without the back pressure
  (`server/src/relay/terminal.rs:643-654`), so it can evict bytes not yet committed, against
  `server/README.md:659-662`. `ShrinkKeepsDirtyIff` says exactly when, and
  `ShrinkCanLoseDirty` shows it for every reduction the settings allow. The publisher holds
  those bytes only until the next checkpoint: it stores what is left, moves the durable offset
  past the rest, and its acknowledgement makes the publisher release bytes no row has ever
  held, against `server/README.md:382-384`. `CheckpointStoresDirtyIff` is the exact condition
  for one checkpoint, `ShrunkIsAcknowledgedUnstored` the failure, and `AcknowledgedWasStored`
  what holds over runs.
- A frame larger than the window has the same effect on its own beginning
  (`OversizedIsAcknowledgedUnstored`), and until the next flush
  `earliest_offset <= durable_offset` (`server/README.md:639-642`) fails.
- The flush lock is said to keep the chunks of a terminal from ever overlapping
  (`server/src/relay/flush.rs:103-104`). A flush runs inside whatever awaits it: the handler of
  `POST /v1/admin/flush` (`server/src/http/admin.rs:173-191`), which is dropped with its
  connection, and the deadline of a shutdown (`server/src/server.rs:409-419`). Its transaction
  runs on in `spawn_blocking` (`server/src/db/mod.rs:207-222`) and commits, while the lock is
  freed and memory is told nothing. The terminal's next checkpoint begins where memory stands,
  and the unique index refuses it: exactly when it begins below what is committed
  (`CheckpointsConflictIff`), so never if no flush is abandoned (`CheckpointsNeverConflict`),
  and otherwise on every retry until a restart or until the window has moved past everything
  committed (`StuckUntilTheWindowPasses`). It takes the whole batch with it, so that no resident
  terminal is stored (`FlushRefusedIff`). `AbandonedFlushRun` is such a run.
- Such a transaction may also wait its turn and commit after later ones. It then sets the
  offsets of its own checkpoint, so that the durable offset moves back, against
  `server/README.md:664-667`, and `next_offset` may resume beyond it; and it can leave a gap, so
  that no restart can load the terminal. `LateCommitRestartsIff` is the exact condition and
  `LateCommitRun` a run. No byte is ever wrong for it, and no acknowledged offset is asked for
  again (`RunsAreFaithful`, `AcknowledgedIsKept`).
- An earlier process may have left bytes at the relay that are not committed. A driver told to
  begin behind them cannot resume after a crash takes them back; it then gives the terminal up
  (`CrashLosesPlaceIff`, and `UncommittedStartLosesPlace` for a run). References are minted
  afresh for every hosted shell, so the shipped program always begins with nothing before it
  (`CommittedStartIsSafe`).
- The sweep of idle rate-limit buckets assumes they have refilled, which holds only for
  windows of at most ten minutes; the hourly limits of `server/src/http/terminals.rs:267-277`
  are forgotten after ten idle minutes. `SweepUnnoticedIff` is the exact condition.
- The settings allow an overlap (60 s) shorter than a token's lifetime (900 s,
  `server/src/settings/defs.rs:182-200`). `EarlyMintCoveredIff` and `UncoveredIsLost` say
  exactly which tokens then lose their key early, and `LateMintCoveredIff` the same for tokens
  minted between the two halves of a rotation.
- The comment on `next_input_sequence` (`server/src/relay/terminal.rs:317-318`) says the
  sequence counts delivered frames; an undeliverable frame uses one up too
  (`GapIffUndelivered`).
- A second answer to one open with a different id would lose the first
  (`AnswerConservesIff`); the relay's opens are idempotent by reference, so a fair relay never
  gives one.

## Conventions

Offsets are unbounded naturals; the source's are `u64`, and no stream comes near that. Token
buckets are over the reals. Limits that the source converts from whole settings are naturals,
so its comparison of limits up to a machine epsilon is equality. Times are parameters that
never run backwards. Identifiers, text and keys are opaque values or the bytes they are
written as. In `Keys.dfy` a token's `until` is its expiry plus the clock skew allowed.

## Model

| member | source | states |
|---|---|---|
| `Stream.AttachMeaning` | `publisher/src/stream.rs:164-203` | Answering an attach is one of three, split exactly by where the relay is: below the retained bytes (unrecoverable), among them (the rest is resent, byte for byte, and the end of the stream does not move), or ahead (continue there); after the first attach only the last case changes what is held |
| `Stream.MismatchMeaning` | `publisher/src/stream.rs:224-245` | A refusal is answered from retained bytes or not at all, moves nothing, and the same refusal is never answered twice |
| `Stream.AcknowledgeMeaning` | `publisher/src/stream.rs:218-220` | An acknowledgement releases exactly the bytes below it and never more than is held |
| `Stream.SendMeaning` | `publisher/src/stream.rs:207-215` | A sent chunk is the stream's continuation, and everything retained is still the end of the stream |
| `Stream.DetachMeaning` | `publisher/src/stream.rs:157-160` | A detach keeps every byte, lets nothing be sent, and forgets which refusal was answered last |
| `Stream.Retained.ReleaseThrough` | `publisher/src/stream.rs:53-60` | Releases exactly what lies below the durable offset; the end of the buffer stays |
| `Stream.Retained.From` | `publisher/src/stream.rs:66-72` | Answers exactly for offsets inside the buffer or at its end, with the bytes from there on |
| `Stream.Outgoing.Unacked` | `publisher/src/stream.rs:142-144` | Is the number of retained bytes: `next_offset` is always the end of the buffer |
| `Stream.Outgoing.MaySend` | `publisher/src/stream.rs:147-149` | Positioned and fewer bytes retained than the window |
| `Stream.Outgoing.Attached` | `publisher/src/stream.rs:164-203` | The in-place update denotes the specification function whose meaning `AttachMeaning` gives; the end-of-buffer invariant is kept |
| `Stream.Outgoing.Send` | `publisher/src/stream.rs:207-215` | Refused exactly when not positioned; otherwise the chunk goes behind what is retained and its offset is the old end |
| `Stream.Outgoing.Acknowledge` | `publisher/src/stream.rs:218-220` | The in-place release denotes the function `AcknowledgeMeaning` is about |
| `Stream.Outgoing.Mismatch` | `publisher/src/stream.rs:224-245` | The in-place update denotes the function `MismatchMeaning` is about |
| `Stream.Outgoing.Detached` | `publisher/src/stream.rs:157-160` | Nothing is framed until the relay speaks again; nothing held is lost |
| `Publish.SlicesAreAccepted` | `publisher/src/publish.rs:280-301` | A relay standing at the start takes every slice in order, and together they are the bytes, for any positive limit |
| `Publish.ResplitIsAccepted` | `publisher/src/session.rs:784-810` | Splitting each slice again changes nothing about what is accepted; `Transport.FramedIsResplit` shows this split to be the connection's own |
| `Publish.SlicesAreAt` | `publisher/src/publish.rs:280-301` | Every slice is the stream's own bytes at its own offset |
| `Publish.AttachConverges` | `publisher/src/stream.rs:164-203` | From any relay offset the driver still covers, its answer through both splits in order is accepted completely by a log that takes a frame exactly at its end |
| `Publish.MismatchConverges` | `publisher/src/stream.rs:224-245` | The same for the first answer to a refusal |
| `Publish.PassConserves` | `publisher/src/publish.rs:157-171` | One pass neither loses, repeats nor reorders an owner byte: held before plus taken is sent plus held after |
| `Publish.ClosedStaysSilent` | `publisher/src/publish.rs:173-181` | After its close the driver sends no output and no second process_exited close, whatever events arrive; a notice that it lost its place may still follow |
| `Publish.CloseMeansAcknowledged` | `publisher/src/publish.rs:173-181` | A pass closes only with nothing held, nothing unacknowledged and nothing newly taken |
| `Publish.PassStaysBounded` | `publisher/src/publish.rs:248-270` | A pass keeps retained bytes below window plus one chunk, at most one chunk waiting, and never moves `next_offset` back |
| `Publish.RunConserves` | `publisher/src/publish.rs:138-273` | Over every run: owner bytes are exactly sent bytes followed by the one waiting chunk |
| `Publish.RunClosesOnce` | `publisher/src/publish.rs:138-273` | Over every run: at most one process_exited close, and no output after it |
| `Publish.RunStaysBounded` | `publisher/src/publish.rs:138-273` | Over every run: the bound on held bytes |
| `Answers.AttachIsAnswered` | `publisher/src/publish.rs:190-216` | An attach at an offset still held makes the driver send everything from there to its end, in frames of the size agreed, and a relay there accepts all of it; ahead nothing is sent; below it gives up |
| `Answers.MismatchIsAnswered` | `publisher/src/publish.rs:218-231` | So does the first refusal at an offset, and its echoes nothing |
| `Answers.OthersAreHeard` | `publisher/src/publish.rs:217-238` | Every other event is heard in silence: an acknowledgement releases, a detach stops the sending, an end stops the driver |
| `Answers.HeldChunkLeaves` | `publisher/src/publish.rs:157-171` | The held chunk goes exactly when the relay takes more, whole and at its place |
| `Answers.OwnerIsServed` | `publisher/src/publish.rs:246-270` | A chunk that may go goes at once and whole, one that may not is held, a size always goes |
| `Answers.ClosesIff` | `publisher/src/publish.rs:173-181` | A pass closes exactly when the owner is gone and all it gave has been acknowledged |
| `Answers.GoneIsClosed` | `publisher/src/publish.rs:173-181` | An owner that leaves is followed by the close, in the pass in which the last acknowledgement is heard or the next |
| `Answers.PassAnswers` | `publisher/src/publish.rs:156-216` | One pass sends what was held back and then the answer the relay is owed, with which the relay stands at the end of the stream |
| `Answers.EverythingArrives` | `publisher/src/publish.rs:138-273` | From the moment the relay names an offset, everything the driver sends over any run, carried in order, is accepted and takes the relay to the end of the stream, until the relay names an offset again |
| `Drive.MirrorDriver.SendOutput` | `publisher/src/publish.rs:280-301` | The splitting loop emits exactly the specified slices |
| `Drive.MirrorDriver.ReleaseWaiting` | `publisher/src/publish.rs:157-171` | The held chunk goes out when it may, else stays held |
| `Drive.MirrorDriver.CloseWhenDone` | `publisher/src/publish.rs:173-181` | The close latch |
| `Drive.MirrorDriver.Answer` | `publisher/src/publish.rs:190-216` | Retransmit, continue, or give the terminal up |
| `Drive.MirrorDriver.Handle` | `publisher/src/publish.rs:186-238` | Every relay event, in place |
| `Drive.MirrorDriver.Accept` | `publisher/src/publish.rs:246-270` | Every owner message, in place |
| `Drive.MirrorDriver.OnePass` | `publisher/src/publish.rs:156-272` | One iteration of the loop is the pass the run theorems are about |
| `Drive.DriveAll` | `publisher/src/publish.rs:138-273` | The loop over any script asks the transport exactly what the run function says, so the run theorems hold of it |
| `Transport.FramesAreSlices` | `publisher/src/session.rs:784-810` | The connection's split of a request, under the terminal's own id, is the driver's split at the connection's limit |
| `Transport.FramedIsResplit` | `publisher/src/session.rs:784-810` | The same over all requests of a terminal |
| `Transport.OthersDoNotMatter` | `publisher/src/session.rs:784-810` | Whatever the connection carries for other terminals in between, the relay reads the same frames for this one |
| `Transport.FramedIsNotForOthers` | `publisher/src/session.rs:800-809` | What is framed for one terminal carries no other's id |
| `Transport.Forward` | `publisher/src/session.rs:784-810` | A driver's requests through the connection's output branch put exactly those frames on the wire |
| `Transport.TakeAllIsAcceptAll` | `server/src/relay/terminal.rs:366-419` | The relay's append, frame after frame, takes exactly what a log that ends there takes, and shows it |
| `Transport.AttachReachesRelay` | `publisher/src/publish.rs:190-216` | After an attach at the relay's own offset, what the driver sends, through a connection shared with others, is all taken by the relay's append, and both stand at the same offset with the same bytes |
| `Transport.MismatchReachesRelay` | `publisher/src/publish.rs:218-231` | The same for the first answer to a refusal |
| `Transport.RunReachesRelay` | `publisher/src/publish.rs:138-273` | And for the whole run after it: as long as the frames are carried in order, the relay takes all of them and keeps up to the end of the stream |
| `ReplayRing.NewestShows` | `server/src/relay/ring.rs:27-39` | Keeping the newest bytes of a contiguous suffix leaves a contiguous suffix ending at the same offset |
| `ReplayRing.AppendShows` | `server/src/relay/ring.rs:83-104` | After an append the window shows the longer stream's end |
| `ReplayRing.SetCapacityShows` | `server/src/relay/ring.rs:63-75` | A capacity change keeps the newest bytes and the end |
| `ReplayRing.ReadShows` | `server/src/relay/ring.rs:107-127` | A read inside the window is the stream's slice |
| `ReplayRing.HistoryKeepsASuffix` | `server/src/relay/ring.rs:63-104` | Through any appends and capacity changes: a contiguous suffix of everything, and evicted plus retained equals initial plus appended |
| `ReplayRing.FixedCapacityIsNewest` | `server/src/relay/ring.rs:83-104` | With one capacity: exactly the last `capacity` bytes |
| `ReplayRing.Deque.Grow` | `server/src/relay/ring.rs:11-15` | The circular array grows without changing its contents |
| `ReplayRing.Deque.PushBack` | `server/src/relay/ring.rs:92-102` | A byte goes behind the others, across the wrap-around |
| `ReplayRing.Deque.Drain` | `server/src/relay/ring.rs:69-73` | The oldest bytes leave, the rest keeps its order |
| `ReplayRing.Deque.Extend` | `server/src/relay/ring.rs:92-102` | All bytes go behind the others, growing when needed |
| `ReplayRing.Ring.FromRetained` | `server/src/relay/ring.rs:27-39` | Rebuilding trims to the newest bytes that fit and keeps the end |
| `ReplayRing.Ring.SetCapacity` | `server/src/relay/ring.rs:63-75` | In place, the newest bytes that fit stay; the result counts the evicted |
| `ReplayRing.Ring.Append` | `server/src/relay/ring.rs:83-104` | In place, all three branches leave the newest `capacity` bytes; the result counts the evicted |
| `ReplayRing.Ring.ReadRange` | `server/src/relay/ring.rs:107-127` | Some exactly inside the window, and then the bytes of that range, across the two halves |
| `Store.CommitKeepsIntact` | `server/src/db/repo.rs:639-731` | A checkpoint that continues the rows always commits and leaves rows that tile exactly [earliest, durable) with the stream's bytes |
| `Store.TrimTiles` | `server/src/db/repo.rs:662-695` | The range delete and the one straddler rewrite cut the tiling off exactly at the new earliest offset |
| `Store.InsertBehind` | `server/src/db/repo.rs:645-657` | A chunk at or above the end goes behind all rows and never collides with the unique index |
| `Store.LoadHasNoHole` | `server/src/db/repo.rs:575-617` | For rows that merely agree with the stream, overlapping or not, a reload that succeeds is a contiguous slice |
| `Store.LoadIsExact` | `server/src/db/repo.rs:575-617` | On intact rows the reload never reports a gap and returns exactly stream[earliest..durable] |
| `Store.BatchKeepsIntact` | `server/src/db/repo.rs:639-731` | A sound batch commits whole: all terminals intact, the named ones where their checkpoints say, every other untouched |
| `Store.FirstLeaveAlone` | `server/src/db/repo.rs:642-728` | A terminal the batch has not named yet is as it was |
| `Store.OneRefusedBlocksAll` | `server/src/db/repo.rs:639-731` | One refused checkpoint fails the whole transaction, whatever else is in it |
| `Store.UnknownBlocksIff` | `server/src/db/repo.rs:645-657` | A chunk for a terminal the database does not know fails the transaction; without a chunk such a checkpoint changes nothing |
| `Store.CommitKeepsClosed` | `server/src/db/repo.rs:696-726` | The first checkpoint that says so closes the record with its reason, and one without a close leaves it as it was |
| `Store.CommitRefusedIff` | `server/src/db/schema.sql:91-97` | Over any rows that agree with the stream, overlapping or not: a checkpoint is refused exactly when its start is taken, or the offset at which a row reaching across its earliest offset would have to begin |
| `Store.CommitHolds` | `server/src/db/repo.rs:642-728` | Over any such rows: from its earliest offset on, a commit adds exactly its chunk and loses nothing |
| `Store.LoadIffGapless` | `server/src/db/repo.rs:575-617` | Over any such rows: the reload reports a gap exactly when some byte is missing below the last one stored |
| `Store.LoadShows` | `server/src/db/repo.rs:575-617` | What it otherwise gives is the stream from the earliest offset to beyond every row, each byte of it stored |
| `Store.Database.CommitCheckpoints` | `server/src/db/repo.rs:639-731` | The transaction applies the whole batch or nothing |
| `Store.Database.Apply` | `server/src/db/repo.rs:642-728` | The statements of one checkpoint, in order, with their failures, the table's CHECK among them, which change nothing |
| `Store.Database.LoadTerminalOutput` | `server/src/db/repo.rs:575-617` | The loop over the selected rows computes the function the reload lemmas are about |
| `RelayTerminal.AppendMeaning` | `server/src/relay/terminal.rs:366-419` | A frame is taken whole exactly at the end of an open terminal's stream, and otherwise changes nothing |
| `RelayTerminal.CheckpointContinues` | `server/src/relay/terminal.rs:535-571` | What a checkpoint takes is the stream's bytes up to its end and continues the stored rows where these end at memory's durable offset, also after an oversized frame |
| `RelayTerminal.CheckpointRefusedIff` | `server/src/relay/flush.rs:103-104` | When more may be committed than memory was told, a checkpoint is refused exactly when it begins below what is committed; otherwise memory and database agree after it, told or not |
| `RelayTerminal.UntoldBlocksTheNext` | `server/src/relay/flush.rs:139-152` | After a commit memory was not told of, the terminal's next checkpoint is refused exactly until the window has moved past what was committed |
| `RelayTerminal.RestoreIsSound` | `server/src/relay/terminal.rs:239-279` | Recovery resumes at the durable offset with the newest committed bytes that fit |
| `RelayTerminal.RestoreShows` | `server/src/relay/terminal.rs:239-279` | From any rows without a gap, recovery resumes where they end and shows the stream, with what lies beyond the durable offset dirty |
| `RelayTerminal.CheckpointTakenIff` | `server/src/relay/terminal.rs:535-571` | There is a checkpoint to take exactly while bytes are dirty or a close waits, and it carries that close |
| `RelayTerminal.CloseIsFinal` | `server/src/relay/terminal.rs:574-605` | Once the checkpoint of a closing terminal commits, memory and every restart have it closed for that reason, at the end of what was accepted, and it accepts nothing more |
| `RelayTerminal.AppendKeepsDirtyIff` | `server/src/relay/publisher.rs:474-509` | An append evicts an uncommitted byte exactly when the dirty bytes and the frame do not both fit |
| `RelayTerminal.BackpressureProtects` | `server/src/relay/publisher.rs:474-509` | What the back pressure lets in evicts no uncommitted byte, except the beginning of a frame larger than the window |
| `RelayTerminal.HeadroomMeaning` | `server/src/relay/publisher.rs:484-502` | The dirty bytes fit the headroom exactly when there are none or when they and the frame fit both the window and the unacknowledged limit |
| `RelayTerminal.WaitTargetSuffices` | `server/src/relay/publisher.rs:504-509` | Reaching the offset waited for is reaching the headroom |
| `RelayTerminal.ShrinkKeepsDirtyIff` | `server/src/relay/terminal.rs:643-654` | A capacity reduction keeps every uncommitted byte exactly when they fit the new window |
| `RelayTerminal.ShrinkCanLoseDirty` | `server/src/relay/terminal.rs:643-654` | Every reduction the settings allow, to less than what is uncommitted, evicts uncommitted bytes |
| `RelayTerminal.CheckpointStoresDirtyIff` | `server/src/relay/terminal.rs:535-571` | A checkpoint stores everything it lets be acknowledged exactly when no uncommitted byte has been evicted; otherwise the evicted ones were in no row before and are in none after |
| `RelayTerminal.ShrunkIsAcknowledgedUnstored` | `server/src/relay/terminal.rs:643-654` | After such a reduction the next checkpoint lets bytes be acknowledged that no row has ever held |
| `RelayTerminal.OversizedIsAcknowledgedUnstored` | `server/src/relay/terminal.rs:544-550` | So does the checkpoint after any frame larger than the window, for the frame's beginning |
| `RelayTerminal.HeardIsStream` | `server/src/relay/terminal.rs:436-509` | A subscriber's replay followed by its live events is the stream from where it asked, with no seam |
| `RelayTerminal.OfferKeepsSeam` | `server/src/relay/terminal.rs:667-698` | A subscriber that takes an event has missed nothing; one that cannot is dropped |
| `RelayTerminal.FanOutKeepsSeam` | `server/src/relay/terminal.rs:667-698` | The same for everyone who still listens after an event |
| `RelayTerminal.OfferIffRoom` | `server/src/relay/terminal.rs:667-698` | A subscriber hears an event, behind all it had, exactly when it is there and has a place and room for its bytes; otherwise it is dropped |
| `RelayTerminal.OfferAllIffRoom` | `server/src/relay/terminal.rs:667-698` | A run of events is heard whole and in order exactly when it fits the channel and the byte bound |
| `RelayTerminal.EachHearsAlone` | `server/src/relay/terminal.rs:667-698` | Each subscriber stays or goes by its own room alone, and the others keep their order |
| `RelayTerminal.SubscribedHears` | `server/src/relay/terminal.rs:477-487` | A new subscriber hears the next events exactly as long as they are no more than the places and bytes it was given |
| `RelayTerminal.ToldIsNews` | `server/src/relay/terminal.rs:574-605` | A published checkpoint is told to everyone with room: an offset that is news, then the close |
| `RelayTerminal.TerminalHandle.constructor` | `server/src/relay/terminal.rs:239-279` | A handle is built from any row and bytes as specified, and is valid when the record was intact |
| `RelayTerminal.TerminalHandle.Append` | `server/src/relay/terminal.rs:366-419` | In place: only the exact next offset is accepted, and an accepted frame is queued to every subscriber |
| `RelayTerminal.TerminalHandle.TakeCheckpoint` | `server/src/relay/terminal.rs:535-571` | Takes the dirty range cut to what is retained, and the close while closing |
| `RelayTerminal.TerminalHandle.CommitDurable` | `server/src/relay/terminal.rs:574-605` | Moves `durable` forward only, then publishes a close, and subscribers hear both in order; a checkpoint of the terminal's own keeps the handle valid |
| `RelayTerminal.TerminalHandle.BeginClose` | `server/src/relay/terminal.rs:517-527` | Only an open terminal starts closing |
| `RelayTerminal.TerminalHandle.ShrinkToCapacity` | `server/src/relay/terminal.rs:643-654` | Only ever reduces, and keeps the newest bytes |
| `RelayTerminal.TerminalHandle.Subscribe` | `server/src/relay/terminal.rs:436-509` | Ahead of the stream is refused, below the window is a reported gap, the replay ends exactly where live events begin, and the subscriber gets the places and bytes asked for |
| `RelayTerminal.TerminalHandle.Unsubscribe` | `server/src/relay/terminal.rs:511-514` | Exactly the subscriber under this number leaves; numbers are never given twice |
| `RelayTerminal.TerminalHandle.Replay` | `server/src/relay/terminal.rs:465-475` | The retained bytes from the start on, in order, in non-empty pieces of at most the chunk size |
| `RelayFlush.CommitWithRetry` | `server/src/relay/flush.rs:192-234` | The batch is committed, once, exactly when some attempt is not let down and the database accepts it; otherwise nothing changes |
| `RelayFlush.CheckpointCommits` | `server/src/relay/flush.rs:105-149` | A taken checkpoint commits exactly when it does not begin below what is committed, and the database backs memory after it, whether memory is told or not |
| `RelayFlush.FlushOnce` | `server/src/relay/flush.rs:105-190` | On a handle: committed exactly when the storage lets it and the database accepts it; memory's `durable` moves only then, and only if the caller is still there; no other terminal is touched |
| `RelayFlush.FlushRefusedIff` | `server/src/relay/flush.rs:105-149` | The transaction over all resident terminals is refused exactly when one of them would write below what is committed, and that one keeps all others from being stored |
| `RelayFlush.FlushStoresAll` | `server/src/relay/flush.rs:105-149` | Accepted, it stores each terminal up to its end and touches none that had nothing to write |
| `RelayFlush.PublishedMeaning` | `server/src/relay/flush.rs:139-149` | A terminal that is told is durable to its end, and closed when it was closing |
| `RelayFlush.FlushAll` | `server/src/relay/flush.rs:105-190` | The whole flush, in place on all resident handles: collect, commit all or nothing, and only then, if the caller is still there, tell every handle its own checkpoint and nothing else |
| `RelaySession.AdmittedEvictsOnlyCommitted` | `server/src/relay/publisher.rs:474-509` | Letting a frame in moves the window no further than what is committed, however the capacity has changed; a frame larger than the window is let in only over a clean terminal |
| `RelaySession.Limits.Effective` | `server/src/relay/publisher.rs:47-59` | The largest limits within both those negotiated and those now set: reductions apply at once, increases never |
| `RelaySession.ApplyBackpressure` | `server/src/relay/publisher.rs:474-537` | Admits exactly when nothing is dirty or the dirty bytes and the frame fit both the window and the unacknowledged limit, after waiting through any flushes only if they did not; changes no byte |
| `RelaySession.WaitForDurable` | `server/src/relay/terminal.rs:609-623` | Waits through flushes and changes nothing itself; it ends before the flushes do only when the target is reached or the terminal is not open any more, and at once when that is so already |
| `RelaySession.Connection.OnBinary` | `server/src/relay/publisher.rs:360-467` | The whole path of a frame: what is accepted starts at the stream's end, evicts nothing uncommitted and leaves no more dirty than the negotiated limit, the window or itself; it is held back only when it would; every refusal leaves the stream; the connection ends on malformed, third oversized, or unrelieved |
| `RelaySession.Acknowledge` | `server/src/relay/publisher.rs:979-1009` | Acknowledgements rise strictly, are offsets found durable, and leave nothing seen unsaid |
| `RelayProcess.TakingKeepsRelay` | `server/src/relay/flush.rs:108-128` | A taken checkpoint is the stream's own and begins within what is stored or retained, however much later it is committed |
| `RelayProcess.CommitKeepsRelay` | `server/src/relay/flush.rs:139-149` | A commit in flight leaves rows of the stream's own bytes that reach from the window to all that anyone was told |
| `RelayProcess.LateCommitKeepsRelay` | `server/src/db/mod.rs:207-222` | So does a commit that nobody waits for any more, whatever has been committed since |
| `RelayProcess.PublishKeepsRelay` | `server/src/relay/flush.rs:142-149` | Only after a commit does memory's `durable` move |
| `RelayProcess.CrashKeepsRelay` | `server/src/relay/registry.rs:730-764` | A relay rebuilt from any rows without a gap shows the stream again and stands at no less than what is secured |
| `RelayProcess.LandingKeepsSecured` | `server/src/db/repo.rs:642-728` | What no crash can take back stays so under every commit, waited for or late, though the database's own offsets may fall |
| `RelayProcess.TakenRefusedIff` | `server/src/relay/flush.rs:103-104` | While nothing commits late, a checkpoint on its way is refused exactly when it begins below what is committed |
| `RelayProcess.LateCommitLoadsIff` | `server/src/db/repo.rs:575-617` | A late commit takes the durable offset back to its own; a restart can rebuild the terminal after it exactly when it leaves no gap |
| `Protocol.ArrivalKeepsRelay` | `server/src/relay/publisher.rs:423-467` | Any piece of the stream arriving at any time leaves the relay showing the stream |
| `Protocol.PassIsStream` | `publisher/src/publish.rs:138-273` | Whatever a pass hears, what it sends is the stream and what it keeps is the stream's end |
| `Protocol.StepKeepsFaith` | `publisher/src/stream.rs:162-245` | Every step of client, network and relay, abandoned and late transactions included, keeps every byte everywhere equal to the stream |
| `Protocol.StepKeepsResuming` | `publisher/src/stream.rs:162-245` | Every step keeps the driver holding every byte the relay can still ask for |
| `Runs.RunsAreFaithful` | `server/src/relay/publisher.rs:423-467` | In no run, from any sound state an earlier process left, under any loss, delay, repetition, splitting, reconnect, abandoned flush, late commit, crash or replacement, does a byte anywhere differ from the stream |
| `Runs.RunsAreResumable` | `publisher/src/stream.rs:162-245` | In every run in which the relay keeps the terminal and the driver begins on secured ground, the driver can resume |
| `Runs.AcknowledgedIsKept` | `server/README.md:664-667` | An acknowledged offset is never taken back: in every run in which the relay keeps the terminal, no later relay stands below it |
| `Runs.CommittedStartBeginsSaved` | `server/src/relay/registry.rs:655-764` | A run that starts with everything committed, as every terminal nobody had before does, begins on secured ground |
| `Runs.CommittedStartIsSafe` | `server/src/relay/registry.rs:655-764` | So in every such run in which the relay keeps the terminal, every state is faithful and resumable, with no further condition |
| `Runs.CrashLosesPlaceIff` | `publisher/src/stream.rs:173-181` | A driver that has begun loses its place in a restart of the relay exactly when what the restart brings back ends below the bytes it holds; while nothing has committed late, that is the committed offset |
| `Runs.AcceptedIsWhatWasWritten` | `server/src/relay/publisher.rs:423-467` | Every byte the relay ever accepted at an offset is the byte the shell's owner handed over at that place |
| `Runs.MirroredInOrder` | `server/src/relay/terminal.rs:408-413` | Between two restarts every byte is mirrored exactly once and in order: the pieces accepted are those that took the relay from where it was to where it is |
| `Runs.PieceMirrors` | `server/src/relay/terminal.rs:366-419` | A piece is mirrored exactly when it begins at the end of an open terminal, and answered with that end exactly when it does not |
| `Runs.NoOffsetHasTwoBytes` | `server/README.md:664-667` | No offset ever carries two different bytes, before or after a crash |
| `Runs.ReplayIsWhatWasWritten` | `server/README.md:664-667` | What can be replayed is the stream, before and after a crash, which takes back nothing memory knew to be durable |
| `Runs.CrashLeavesTheCommitted` | `server/README.md:664-667` | While nothing commits late, every crash is survived and leaves the stream up to the committed offset |
| `Runs.CheckpointsConflictIff` | `server/src/relay/flush.rs:103-104` | While nothing commits late, a checkpoint on its way is refused exactly when it has bytes to write and begins below the committed offset |
| `Runs.CheckpointsNeverConflict` | `server/src/relay/flush.rs:103-104` | In a run in which no flush is abandoned, no checkpoint is ever refused by the database's constraints |
| `Runs.AnyCheckpointRefusedIff` | `server/src/db/schema.sql:91-97` | In every run, late commits included: the exact condition on the rows under which a checkpoint under way is refused |
| `Runs.AbandonedFlushConflicts` | `server/src/relay/flush.rs:103-104` | From every state with something to write: a flush that commits and is abandoned leaves a checkpoint that the database refuses |
| `Runs.StuckUntilTheWindowPasses` | `server/src/relay/flush.rs:103-104` | After that nothing of the terminal is committed or acknowledged any more, along any run, until a restart or until the window has moved past everything committed |
| `Runs.LateCommitRestartsIff` | `server/src/db/mod.rs:207-222` | What a late commit does to the durable offset, and exactly when a restart can bring the terminal back after it |
| `Runs.DurableNeverFalls` | `server/README.md:664-667` | While nothing commits late, neither durable offset ever moves back, through crashes and reconnects |
| `Runs.OffsetsAreOrdered` | `server/README.md:639-642` | In every reachable state in which nothing has committed late: what the driver has released and memory's durable offset <= database durable <= relay next <= client next |
| `Runs.RunsStayBehind` | `server/README.md:382-384` | And the driver has released only what memory knows to be durable, when it began on that |
| `Runs.EveryWordCanBeAnswered` | `publisher/src/stream.rs:66-72` | Whatever the relay has said, the driver holds the bytes asked for; it never gives up and the relay is never ahead |
| `Runs.CloseMeansSecured` | `publisher/src/publish.rs:173-181` | When the driver has closed, the relay stands at the end of everything handed over and no crash or transaction under way takes it back |
| `Runs.CloseMeansDurable` | `publisher/src/publish.rs:173-181` | While nothing commits late, the committed offset has then reached that end, and the rows hold the retained part of it |
| `Runs.AdmittedIsCareful` | `server/src/relay/publisher.rs:474-509` | The back pressure admits only frames that fit the window together with what is dirty, if they fit it at all |
| `Runs.CarefulRunsStayClean` | `server/README.md:659-662` | If every frame taken and every reduction leaves room for what is dirty, and nothing commits late, no uncommitted byte is evicted in any world of the run |
| `Runs.AcknowledgedWasStored` | `server/README.md:382-384` | In every careful run, late commits included, every byte that is or could be acknowledged, or has left the window, has been in a committed row as it is in the stream |
| `Runs.ForgottenIsNotSpliced` | `publisher/src/publish.rs:303-317` | A terminal the relay replaced by an empty one, when anything of it had been released, is given up, not continued with other bytes at old offsets |
| `Progress.NoRunIsStuck` | `server/README.md:659-667` | In every run in which nothing commits late, wherever the relay keeps an open terminal and knows of every commit, there are steps after which all that the owner has handed over is in the stream, committed and acknowledged, and the driver has closed if its owner is gone; no frame comes while anything is dirty, so the back pressure holds none up |
| `Progress.RestartGoesOn` | `server/README.md:664-667` | Where it does not know of every commit, after an abandoned flush, a restart of the relay is enough for the same |
| `Progress.Reattached` | `publisher/src/publish.rs:190-216` | A connection that comes back brings an answer the relay can take whole |
| `Progress.Flushed` | `server/src/relay/flush.rs:105-149` | A flush of a relay that knows of every commit is accepted, and takes the durable offset to the end |
| `Progress.AllHaveEnded` | `server/src/db/mod.rs:207-222` | What has been abandoned can end without a commit, leaving the rest as it was |
| `FailingRuns.UncommittedStartLosesPlace` | `publisher/src/stream.rs:173-181` | A run in which a driver begins on bytes never committed and a crash makes it lose its place |
| `FailingRuns.AbandonedFlushRun` | `server/src/http/admin.rs:173-191` | A run in which a flush commits, is abandoned, and the next checkpoint is refused |
| `FailingRuns.LateCommitRun` | `server/src/db/mod.rs:207-222` | A run in which everything was committed and acknowledged, an abandoned transaction commits late, and no restart can bring the terminal back |
| `Multiplexing.OrphansAreNotOurs` | `publisher/src/session.rs:733-746` | The sweep closes exactly the listed ids this connection did not open, so never one it carries |
| `Multiplexing.AnswerConservesIff` | `publisher/src/session.rs:863-893` | An answer to an open loses an id exactly when the reference already had a different one that is neither closed nor reported |
| `Multiplexing.ClosingFinishedSettles` | `publisher/src/session.rs:1123-1153` | After closing what has finished, every id is carried for a running terminal, closed, or reported closed |
| `Multiplexing.Multiplexer.LocalRefOf` | `publisher/src/session.rs:396-401` | Finds a terminal exactly when one carries the id |
| `Multiplexing.Multiplexer.DeliverTo` | `publisher/src/session.rs:411-445` | An event reaches the one terminal that carries the id and changes no other; a full queue marks it for closing |
| `Multiplexing.Multiplexer.OnOpened` | `publisher/src/session.rs:863-893` | The terminal gets its id and hears it, the id is remembered for the sweep, no other terminal changes; a fair answer keeps the conservation invariant |
| `Multiplexing.Multiplexer.OnClosed` | `publisher/src/session.rs:953-965` | Exactly the terminal with that id is taken out |
| `Multiplexing.Multiplexer.OnError` | `publisher/src/session.rs:1026-1082` | An error naming a terminal touches that one alone; a refused offset only informs it; only an error naming none ends the connection |
| `Multiplexing.Multiplexer.OnOpen` | `publisher/src/session.rs:756-783` | Hosted exactly below the limit and under an unused reference |
| `Multiplexing.GivenMeaning` | `publisher/src/session.rs:418-446` | An owner with room gets the event behind all others; a full one has its terminal marked for closing |
| `Multiplexing.GivenWhileRoom` | `publisher/src/session.rs:418-446` | As many events as there is room for are all given, in order; one more marks the terminal |
| `Multiplexing.ClampedMeaning` | `publisher/src/session.rs:938-955` | A size asked for by the relay is brought into what a terminal can have |
| `Multiplexing.FramesAreOutputOf` | `publisher/src/session.rs:800-809` | A terminal's output goes out under its own id, in frames within the limit |
| `Multiplexing.Multiplexer.OnOutput` | `publisher/src/session.rs:784-810` | Frames of an attached terminal's output, under its own id and within the limit, and nothing otherwise |
| `Multiplexing.Multiplexer.SplitOutput` | `publisher/src/session.rs:800-809` | The loop emits exactly the specified frames |
| `Multiplexing.Multiplexer.OnClose` | `publisher/src/session.rs:830-838` | The first reason to close stays, the id stays, no other terminal changes |
| `Multiplexing.Multiplexer.OnResize` | `publisher/src/session.rs:811-829` | The size is kept for a reopen and told at once when attached |
| `Multiplexing.Multiplexer.CloseFinished` | `publisher/src/session.rs:1130-1153` | Exactly the terminals that have finished and are named are taken out, and exactly one close for each, with its reason, is sent |
| `Multiplexing.Multiplexer.SweepOrphans` | `publisher/src/session.rs:733-746` | The loop sends exactly the specified closes |
| `Multiplexing.Multiplexer.OnRequest` | `publisher/src/session.rs:748-852` | What each request from the local side changes, and nothing else |
| `Multiplexing.Multiplexer.OnMessage` | `publisher/src/session.rs:854-1024` | What each message from the relay changes: the terminal it names hears it, and no other |
| `Multiplexing.Multiplexer.OnWake` | `publisher/src/session.rs:657-731` | One wake-up of the loop is one of the two; the invariant survives every one a fair relay sends |
| `Multiplexing.Multiplexer.RunConnection` | `publisher/src/session.rs:657-731` | Over any messages and requests up to an unfair answer or the error that ends the connection, each taken in a pass of its own that changes what it names and nothing else: every id opened here is carried for a running terminal, was closed, or was reported closed, also when the terminal ended before it was named |
| `Multiplexing.Multiplexer.Disconnect` | `publisher/src/session.rs:477-484` | No terminal keeps an id across a lost connection |
| `Multiplexing.Multiplexer.Reconnect` | `publisher/src/session.rs:672-677` | Exactly the terminals still wanted are opened again, each once |
| `Limits.GrantedWithinBudget` | `server/src/relay/mirror.rs:687-703` | For any limits on the way and any starting level: at most the first limit and what flowed in since |
| `Limits.IntervalBound` | `server/src/relay/mirror.rs:687-703` | In any interval of length t under a limit of C: at most C + C*t/window |
| `Limits.GrantsWithinBudget` | `server/src/app.rs:202-226` | Whoever else asks, and however often idle buckets are swept, one caller is let through at most its limit, and as often again for each window's length that passes |
| `Limits.FirstIsGranted` | `server/src/app.rs:202-226` | A caller that has asked nothing yet is let through unless its limit is off, and nobody else pays for it |
| `Limits.BoundIsReached` | `server/src/relay/mirror.rs:687-703` | The bound is tight |
| `Limits.Bucket.Take` | `server/src/relay/mirror.rs:687-703` | The in-place refill and draw, tokens staying within the limit across limit changes |
| `Limits.SweptRunAnswersAlike` | `server/src/app.rs:202-232` | With windows of at most 600 s, dropping idle buckets changes no answer in any run |
| `Limits.LongWindowForgets` | `server/src/http/terminals.rs:267-277` | With a longer window, as the hourly callers use, a concrete run is answered differently |
| `Limits.SweepUnnoticedIff` | `server/src/app.rs:228-232` | The sweep changes no answer of any run exactly when no window exceeds 600 s |
| `Limits.RateLimiter.CheckWindow` | `server/src/app.rs:202-226` | The bucket map after one request, and its answer |
| `Limits.RateLimiter.Sweep` | `server/src/app.rs:229-232` | Exactly the buckets idle for 600 s or more go |
| `SigningKeys.RunsStaySound` | `server/src/app.rs:45-106` | Through any run at most one stored key is active, and exactly one from the first loaded on |
| `SigningKeys.TokensStayVerifiable` | `server/src/app.rs:145-174` | Through any interleaving of rotations, refreshes, restarts and prunes, a token covered when it was minted stays verifiable until it expires, if no lifetime exceeds the overlap |
| `SigningKeys.StaysInStep` | `server/src/app.rs:145-174` | The signing key is the stored active one except between the two halves of a rotation |
| `SigningKeys.InStepCovers` | `server/src/app.rs:125-130` | Outside that gap every minted token is due to be outlived by its key |
| `SigningKeys.InStepRunsCoverAll` | `server/src/app.rs:125-130` | In a run that mints nothing between the halves of a rotation, every minted token is covered |
| `SigningKeys.AllTokensStayVerifiable` | `server/src/app.rs:145-174` | So every token of such a run, none left out, stays verifiable until it expires |
| `SigningKeys.EarlyMintCoveredIff` | `server/src/db/repo.rs:1091-1112` | A token minted before a rotation keeps its key exactly when the overlap is long enough |
| `SigningKeys.LateMintCoveredIff` | `server/src/app.rs:164-168` | A token minted inside the gap keeps its key exactly when gap plus lifetime fits the overlap |
| `SigningKeys.UncoveredIsLost` | `server/src/app.rs:51-58` | A token that is not covered does lose its key while still in time |
| `SigningKeys.FreshKeyIsDueIff` | `server/src/app.rs:145-168` | A new key is due for rotation exactly once it is older than the interval |
| `SigningKeys.RefreshedSigns` | `server/src/app.rs:45-106` | After a refresh that does not fail there is a key to sign with, the stored active one |
| `SigningKeys.PruningIsUnnoticed` | `server/src/db/repo.rs:1114-1121` | Pruning takes exactly the keys past their overlap, and no later load differs for it |
| `SigningKeys.TokenService.InsertSigningKey` | `server/src/db/repo.rs:1091-1112` | Both statements or neither; one active key after it |
| `SigningKeys.TokenService.LoadEntries` | `server/src/app.rs:49-74` | The loop loads every stored key but those past their overlap |
| `SigningKeys.TokenService.Refresh` | `server/src/app.rs:45-106` | Loads, minting a first key when none is active; fails, changing nothing, when a key does not open or the first one cannot be stored |
| `SigningKeys.TokenService.Mint` | `server/src/app.rs:125-130` | Signs with the active loaded key, or fails without one |
| `SigningKeys.TokenService.RotateIfNeeded` | `server/src/app.rs:145-174` | Rotates exactly when due; a second half that fails leaves the new key stored and the old one loaded |
| `Paging.CursorRoundTripIff` | `server/src/db/repo.rs:1219-1240` | A cursor is read back as written exactly when its timestamp holds no bar |
| `Paging.SplitOnce` | `server/src/db/repo.rs:1232-1234` | Splits at the first bar; nothing to split exactly when there is none |
| `Paging.ListingAscends` | `server/src/db/repo.rs:504-545` | The list is strictly ascending and holds exactly the matching rows |
| `Paging.ListingPastCursor` | `server/src/db/repo.rs:197-235` | What the database answers past any cursor is what the whole list holds past it |
| `Paging.NextPageIsTheRest` | `server/src/http/devices.rs:285-292` | The next cursor stands exactly for what the page left out |
| `Paging.List` | `server/src/http/terminals.rs:121-133` | The first `limit` rows past the cursor, a cursor exactly when more are left, an error for a malformed one |
| `Paging.Followed` | `server/src/http/terminals.rs:121-133` | From any valid cursor, following cursors ends and gives everything past it |
| `Paging.PagesAreTheList` | `server/src/http/devices.rs:276-292` | Following the cursors from the start gives every matching row once and in order |
| `Paging.DevicesListed` | `server/src/db/repo.rs:197-235` | A device list, page by page, is exactly its owner's devices that are not revoked, oldest first |
| `Paging.TerminalsListed` | `server/src/db/repo.rs:504-545` | A terminal list is exactly its owner's, of the device and state asked for, oldest first |
| `Paging.PagesAreFull` | `server/src/http/devices.rs:285-292` | Every page but the last is full, and only the last gives no cursor |
| `Paging.ResolveLimit` | `server/src/http/devices.rs:378-390` | Out-of-range limits are refused; what is accepted is at least one |
| `RelayInput.HandledStaysInOrder` | `server/src/relay/mirror.rs:474-594` | One frame: accepted only as the next sequence, and a refusal changes neither sequence nor what was handed over |
| `RelayInput.RunsStayInOrder` | `server/src/relay/mirror.rs:441-595` | Over any run: client sequences handed over are exactly 1..k, k is what is accepted through, relay sequences rise strictly |
| `RelayInput.HandedIsAcked` | `server/src/relay/mirror.rs:545-572` | What the publisher was handed is exactly what the subscriber saw acknowledged |
| `RelayInput.AnsweredBecause` | `server/src/relay/mirror.rs:474-594` | Which answer a frame gets, and which refusal wins when several apply |
| `RelayInput.HandledSpends` | `server/src/relay/mirror.rs:507-513` | What a frame takes out of the two buckets: nothing when it is refused before them, and no bytes when no frame is left |
| `RelayInput.GapIffUndelivered` | `server/src/relay/mirror.rs:545-594` | A relay sequence is claimed exactly for the next frame of a subscription that may type it, within the limits, and used up without a delivery exactly when no publisher takes it |
| `RelayInput.HandedWasAllowed` | `server/src/relay/mirror.rs:474-572` | Over any run, every keystroke handed over is the payload of an arrival that was allowed: input on, the scope held, the publisher opted in, the terminal open, the size within bounds |
| `RelayInput.RunsStayWithinLimits` | `server/src/relay/mirror.rs:512-526` | Over any run, no more frames and no more bytes are handed over than both limits let flow in |
| `RelayInput.InputState.WithinLimits` | `server/src/relay/mirror.rs:512-526` | Both buckets, the byte bucket only when the frame bucket grants |
| `RelayInput.InputState.HandleInputFrame` | `server/src/relay/mirror.rs:441-595` | The in-place handling of a frame: a sequence is claimed and a keystroke handed over only for one that is allowed; one that cannot be decoded ends the connection and changes nothing |
| `RelayInput.Counter.NextInputSequence` | `server/src/relay/terminal.rs:319-325` | Every claim is new |
| `Wire.NumberOfBigEndian` | `publisher/src/crypto.rs:48-53` | Reading a big-endian number undoes writing it |
| `Wire.EncodedParses` | `publisher/src/crypto.rs:74-94` | Encoded fields parse to themselves |
| `Wire.ParsedIsEncoded` | `publisher/src/crypto.rs:74-94` | Any bytes that parse are the one encoding of what they parse to |
| `Wire.ParseUndoesEncodeIff` | `publisher/src/crypto.rs:74-94` | Parsing undoes encoding exactly for up to 64 fields of under 2^32 bytes |
| `Wire.EncodingIsUnique` | `server/src/util.rs:33-56` | Different fields never encode alike |
| `Wire.LengthPrefixed.Append` | `server/src/util.rs:38-43` | The builder's buffer is the encoding of the fields given |
| `Wire.ParseLengthPrefixed` | `publisher/src/crypto.rs:74-94` | The cursor loop computes the recursive definition, its 64-field limit included |
| `Wire.NamesDiffer` | `server/src/crypto.rs:229-238` | No two operations share a name |
| `Wire.StatementIsBound` | `server/src/crypto.rs:264-282` | A signing input determines every one of its fields |
| `Wire.VerifyBinding` | `publisher/src/api.rs:310-353` | The check before signing, over the parsed fields |
| `Wire.SignsIffMeant` | `publisher/src/api.rs:310-353` | The relay's statement passes the publisher's check exactly when operation, key and owner are the ones meant |
| `Wire.BindsIff` | `publisher/src/api.rs:310-353` | Of any fields, exactly nine pass, the first of them the relay's own context: what another protocol asks to be signed is refused |
| `Wire.BindsOnlyFields` | `publisher/src/api.rs:310-353` | Bytes that are not length-prefixed fields are refused outright |
| `Ipc.EncodedIsRead` | `publisher/src/ipc.rs:194-225` | A frame sent the right way and not too long is read back, leaving exactly what follows |
| `Ipc.ReadIsEncoded` | `publisher/src/ipc.rs:194-225` | Whatever is read is the one encoding of what it was read as |
| `Ipc.RefusedBecause` | `publisher/src/ipc.rs:194-225` | Which error a frame is refused with, its length judged before its bytes are awaited and its kind after |
| `Ipc.ReadsBackIff` | `publisher/src/ipc.rs:165-225` | A list of frames is read back whole exactly when each goes the right way and is within the limit, the offset counted |
| `Ipc.AllReadAreEncoded` | `publisher/src/ipc.rs:194-225` | Bytes read to the end are the concatenated encodings of the frames read |
| `Ipc.FramingIsUnique` | `publisher/src/ipc.rs:165-190` | No two lists of frames look the same on the wire |
| `Ipc.Reader.ReadFrame` | `publisher/src/ipc.rs:194-225` | The reads in order: kind, length, the size limit before the payload, the direction after it |
| `Ipc.Reader.ReadFrames` | `publisher/src/ipc.rs:194-225` | Reading on until the peer hangs up |

## Left out

- HTTP, WebSocket and TLS transport, listener supervision, logging, metrics, the command line, pseudo-terminals, windows and files: input and output with nothing to prove here; where they can lose, delay or repeat a frame, the state machine does.
- The daemon's own loops (`publisher/src/daemon.rs`): their effect on a stream is loss, delay and repetition, which `Protocol` allows in full; spawn limits and labels are not part of this model.
- Cryptographic primitives, base64, JSON text and SQL text: values, or the bytes they are written as. A transaction is one step that applies or does not.
- Fixed-offset headers of `server/src/relay/frames.rs` and `publisher/src/protocol.rs`: easy codecs beside the ones modelled.
- `android/`: a harness around the same protocol.
- Real-time liveness: timeouts appear as what is found when they end. That the steps `NoRunIsStuck` finds are taken is the network's and the scheduler's part. That mismatch answers die out while stale frames and new output keep flowing is not claimed.
- Protocol.Next: the relay's receipt of a frame and its mismatch answer are one step, and a frame and its answer on a superseded connection are not told apart from those on the current one; a driver's queues to its transport do not close under it, a driver whose transport is gone just takes no further steps.
- Drive.DriveAll: keystroke and size notices to the owner are abstracted to whether they were taken; their contents do not touch the stream.
- Runs.CloseMeansDurable: is about the driver's own close; the relay only sees a reason that other shutdowns share.
- RelayFlush.FlushAll: a transaction that outlives its caller ends before the flush returns; the one that ends later is a step of its own in `Protocol`. Back-off times, counters and triggers are left out.
- RelayProcess.CommitKeepsRelay: of the batch only the terminal's own checkpoint is shown; that another terminal's is refused is for this one a flush that fails.
- RelayProcess.CrashKeepsRelay: a closed terminal that is dropped from memory and loaded again without a restart of the process is not part of this model; transactions abandoned before a restart end with the process.
- RelayTerminal.TerminalHandle.Subscribe: the channel's receiving end is what `Listened` lets it be; termination signals and their texts are left out.
- RelaySession.ApplyBackpressure: real time is left out: the flushes that finish before the deadline are given. Which message a timeout is answered with is left out too.
- RelaySession.Connection.OnBinary: control messages (`on_open`, `on_resize`, `on_close`) and their validation are left out, and the lookup of a terminal is whether it is known.
- Store.CommitRefusedIff: of several rows that reach across the earliest offset, which late commits can leave, the source trims the one its query finds first; here it is the one that begins first.
- Store.Database.Apply: the timestamps and the row count a checkpoint also writes are left out.
- Multiplexing.Multiplexer.RunConnection: requests to open a terminal and their answers, pings, takeover by another publisher and back-off are left out, as is what is stashed while disconnected, where unique references and the limit are not enforced by the code. A terminal taken out leaves with its queue, so the last event given to its owner is not shown. One-shot `in_reply_to` and exactly one `Ended` are not claimed: the code does not keep them.
- SigningKeys.TokenService.Refresh: the order of the loaded keys is left out; at most one is active, so it is not observable.
- Limits.RateLimiter.CheckWindow: the scope and key of a caller are one key.
- Paging.List: over a table that does not change while it is paged; a cursor's base64 is left off.
- Wire.VerifyBinding: compares bytes; the source compares text decoded with replacement characters.
- Ipc.Reader.ReadFrame: what a read cut short by the end of the stream had already consumed is gone; control payloads are not parsed.
