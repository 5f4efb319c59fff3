# Dirijor session engine, in Dafny

Dirijor runs coding agents behind a daemon. A *holder* process owns each agent's terminal and
writes everything it prints to a bounded, rotating log; the *daemon* follows that log, feeds a
headless terminal emulator, works out each agent's status, and replicates the emulator's grid
and the daemon's events to clients that may be slow, absent, or newly attached. This project
models those parts and proves what they promise over every input and every run.

| file | what it is |
|---|---|
| `Streaming.dfy`, `Bytes.dfy`, `BigEndian.dfy` | what the streaming decoders share: a reader that never changes its mind gives the same items however its input is cut |
| `ExitMarker.dfy`, `InputFilter.dfy`, `FilterOutput.dfy` | the two byte filters between the log and the emulator: exit markers stripped, mode 2026 removed, and what the filtered stream reads as (control sequences as in section 5.4 of ECMA-48) |
| `SpillFile.dfy`, `SyncPoints.dfy`, `OutputLog.dfy`, `HolderServer.dfy` | the rotating log, from the holder's side and from the daemon's |
| `SessionLog.dfy`, `SessionRuns.dfy` | the drain loop, and whole runs of holder, daemon, checkpoints and restarts |
| `GridReplica.dfy`, `HeadlessGrid.dfy`, `GridSinks.dfy` | row diffs, broadcasts, dropped frames and repairs |
| `GridCodec.dfy`, `GridWire.dfy`, `GridLayout.dfy`, `Frames.dfy` | the binary form of grid updates, byte by byte, and the framing around it |
| `EventStream.dfy`, `EventBus.dfy`, `EventResume.dfy`, `DaemonClient.dfy` | the event bus, its subscribers, and resuming a subscription |
| `Reducer.dfy`, `StatusReducer.dfy`, `ReducerLaws.dfy`, `ReducerRuns.dfy` | the status reducer, what each signal does to each status, and what holds over every run of signals |
| `HolderManager.dfy`, `HolderManagerServer.dfy` | the process that hosts the sessions, and its start and exit protocol |
| `Engine.dfy` | the detection rules |
| `Ownership.dfy` | who drives a session and at which size; input and sizes that have to wait |

Where the source changes state in place, a class with the same fields and methods is proved
against functions on values; the theorems over runs are then about those functions. JSON and
base64 decoding of an exit status is a parameter `decode`; time is a parameter; substring and
regular expression matching are parameters of the detection engine.

Some promises are false of the code as it stands. The code is modelled as it is; each promise is
proved to hold exactly under a condition a caller, or the code itself, could check at the time:

- Attaching a client moves the shared diff baseline but sends the new grid to that client only.
  The others stay right if and only if they already hold the current screen
  (`GridReplica.AttachExactly`, `GridReplica.AttachTrap`).
- Repairing a slow client between flushes sends the current screen against an older baseline.
  That is harmless if and only if the baseline is current or void, or nobody is repaired
  (`GridReplica.RetryExactly`, `GridReplica.RetryTrap`).
- A flush that changes no row is sent only when the cursor left where it was last *broadcast*;
  attaches, repairs and full broadcasts send a cursor the gate never hears of. What the gate
  assumes, that every client in step shows the cursor last broadcast, is kept if and only if
  each such step happens while the cursor is there, or reaches nobody in step
  (`GridReplica.CursorExactly`, `GridReplica.CursorsAgree`, `GridReplica.CursorTrap`).
- A drop marker's own arrival can evict an event nobody counts: once for every marker issued
  with exactly one slot left, and never otherwise (`EventStreams.UncountedExactly`); with a queue
  of one it can be the event just published (`EventStreams.NewestIsKept`).
- The range a drop marker reports is the gap if and only if no eviction of the burst found an
  earlier marker at the head of the queue (`EventStreams.RangeNamesTheGap`,
  `EventStreams.MarkerEvictionBlursTheRange`).
- A read-only log's read subtracts below zero exactly when the file was rotated past the
  requested range (`OutputLogs.UnderflowExactly`), and a run gets there
  (`SessionRuns.TrapIsReachable`).
- An exit marker written while another was left open is read as part of it; the exit is then
  acted on if and only if the joined payload decodes (`ExitMarker.SwallowedMarker`,
  `SessionRuns.FinalMarkerIsSeen`).
- The filter's output reads as the same tokens without mode 2026 if and only if no sequence is
  dropped between a lone ESC and a bracket (`FilterOutput.FilteredStreamReads`); where one is,
  the output can spell the sequence anew (`FilterOutput.JoinCanSpellIt`).
- A launcher may give up on a manager it spawned if and only if that manager is not still
  starting, and has not bound the socket while the pid file names an older one yet to clean up
  (`HolderManagers.GivingUpExactly`, `HolderManagers.DangersArise`).
- The child starts at its owner's size if and only if the owner told none, or its last one is
  also the last anyone told before the exec (`Ownership.AgentSession.LaunchReady`,
  `Ownership.ResizeDuringLaunch`, `Ownership.ResizeByTheOther`).

## Model

| member | source | states |
|---|---|---|
| Streaming.ParseConcat | Sources/DirijorHolderKit/HolderProtocol.swift:250-285 | a drain of one part, then of the held tail with the next part, is a drain of both at once |
| Streaming.ChunkingIsInvisible | Sources/DirijorDaemonKit/AgentSession.swift:603-605 | for every stable decoder and every cutting of a stream, the items and the final held tail are those of the whole |
| ExitMarker.ScanIsStable | Sources/DirijorHolderKit/HolderProtocol.swift:256-283 | what has been classified as text or as a marker is never reclassified when more bytes arrive |
| ExitMarker.ScanLossless | Sources/DirijorHolderKit/HolderProtocol.swift:252-285 | text, markers and held tail, spelled out, are the input byte for byte |
| ExitMarker.HeldTail | Sources/DirijorHolderKit/HolderProtocol.swift:263-282 | what is held back is one unterminated marker, or else the longest suffix that is a proper prefix of the marker prefix |
| ExitMarker.AppendedMarker | Sources/DirijorHolderKit/HolderProtocol.swift:242-248 | a marker appended whole is recognised after any bytes that leave no marker open, and bytes held before it turn out to be text |
| ExitMarker.DrainIsChunkIndependent | Sources/DirijorHolderKit/HolderProtocol.swift:250-285 | for every cutting of every stream, draining chunk by chunk gives the output, the last decodable exit and the held tail of one drain of the whole |
| ExitMarker.LongestSuffixOfPrefix | Sources/DirijorHolderKit/HolderProtocol.swift:287-294 | the search returns the longest suffix that is a proper prefix of the marker prefix |
| ExitMarker.Drain | Sources/DirijorHolderKit/HolderProtocol.swift:252-285 | the loop's output, held buffer and exit are the reading's text, tail and last decodable marker |
| ExitMarker.DrainedStream | Sources/DirijorHolderKit/HolderProtocol.swift:242-285 | of any stream of text and markers the text comes out in full but for what may begin a marker, the exit is the last one that decodes, and no marker is left |
| InputFilter.TokensAreStable | Sources/DirijorDaemonKit/HeadlessScreen.swift:531-588 | a token of the filter, once complete, stays so, hence filtering does not depend on how the stream is cut |
| InputFilter.FilterIsChunkIndependent | Sources/DirijorDaemonKit/HeadlessScreen.swift:520-592 | for every cutting of every stream, the outputs together are the whole stream rewritten token by token |
| InputFilter.RewriteModes | Sources/DirijorDaemonKit/HeadlessScreen.swift:619-624 | a numeric mode sequence keeps its other modes in order, loses every 2026, and vanishes when nothing is left |
| InputFilter.RewriteAlters | Sources/DirijorDaemonKit/HeadlessScreen.swift:594-617 | a control sequence is altered if and only if it sets or resets numeric private modes with 2026 among them |
| InputFilter.FilterDeletes | Sources/DirijorDaemonKit/HeadlessScreen.swift:520-521 | the output with the undecided tail is a subsequence of the input |
| InputFilter.PlainRun | Sources/DirijorDaemonKit/HeadlessScreen.swift:547-562 | copying a whole run of text at once is the same as taking its bytes one at a time |
| FilterOutput.OutputReads | Sources/DirijorDaemonKit/HeadlessScreen.swift:514-521 | for every list of tokens, the output read again is the tokens sent on, if and only if no lone ESC is followed, past dropped sequences, by a bracket |
| FilterOutput.FilteredStreamReads | Sources/DirijorDaemonKit/HeadlessScreen.swift:537-592 | the same for the tokens of any stream |
| FilterOutput.NothingLeftToRemove | Sources/DirijorDaemonKit/HeadlessScreen.swift:610-624 | without such a join the output holds no sequence the filter would still alter |
| FilterOutput.JoinCanSpellIt | Sources/DirijorDaemonKit/HeadlessScreen.swift:564-573 | where the first join is followed by the bytes of a mode sequence with 2026, the output holds that sequence |
| InputFilter.RemovalCanSpellTheSequence | Sources/DirijorDaemonKit/HeadlessScreen.swift:564-573 | a stream with such a join, and its output |
| InputFilter.HeadlessTerminalInputFilter.Filter | Sources/DirijorDaemonKit/HeadlessScreen.swift:537-592 | the state machine outputs each token's rewriting and holds exactly the undecided tail, from any state and for any chunk |
| FilterOutput.TextPasses | Sources/DirijorDaemonKit/HeadlessScreen.swift:547-562 | text before the first ESC comes out as it is, followed by the rest filtered |
| FilterOutput.EscapePasses | Sources/DirijorDaemonKit/HeadlessScreen.swift:564-573 | an ESC that no bracket follows comes out as it is |
| FilterOutput.ModesAreFiltered | Sources/DirijorDaemonKit/HeadlessScreen.swift:594-624 | the bytes of a numeric mode sequence, anywhere after text, lose 2026 and nothing else |
| FilterOutput.WithoutParts | Sources/DirijorDaemonKit/HeadlessScreen.swift:619-624 | every 2026 goes, and every other mode stays, as often and where it was |
| FilterOutput.OthersPass | Sources/DirijorDaemonKit/HeadlessScreen.swift:575-588 | every other control sequence, complete or longer than is waited for, comes out as it is |
| FilterOutput.UnfinishedWaits | Sources/DirijorDaemonKit/HeadlessScreen.swift:537-592 | what may still become a sequence is held, in full |
| SpillFile.RecoverImage | Sources/DirijorHolderKit/HolderOutputLog.swift:96-106 | reopening a written file finds the base and the bytes that were written |
| SpillFile.HeaderBytes | Sources/DirijorHolderKit/HolderOutputLog.swift:33-39 | each of the sixteen header bytes: the magic word, version 1, the base from its highest byte to its lowest |
| SpillFile.HolderOutputLog.constructor | Sources/DirijorHolderKit/HolderOutputLog.swift:23-45 | opening adopts the stream a recoverable file shows, whatever its version word, else starts an empty one |
| SpillFile.HolderOutputLog.Append | Sources/DirijorHolderKit/HolderOutputLog.swift:53-63 | the history grows by the data at gapless offsets, the file stays within its bound, and a replaced file still shows everything up to then |
| SpillFile.HolderOutputLog.RotateToHalf | Sources/DirijorHolderKit/HolderOutputLog.swift:71-94 | rotation keeps the newest half under a new file, raises the base, and changes no offset |
| SyncPoints.ResetsExactly | Sources/DirijorDaemonKit/OutputLog.swift:164-190 | the list of resets is increasing and holds exactly the positions of ESC c and CSI 2 J in the range |
| SyncPoints.NewestExactly | Sources/DirijorDaemonKit/OutputLog.swift:181-186 | the points kept are the longest suffix within the bound and above the base |
| SyncPoints.NewestRebase | Sources/DirijorDaemonKit/OutputLog.swift:276-280 | dropping points below a new base is keeping the newest above it |
| SyncPoints.ResetsSoFar | Sources/DirijorDaemonKit/OutputLog.swift:158-162 | new output can only reveal resets that begin in the last three bytes, so scanning carry and chunk misses none and repeats none |
| OutputLogs.OutputLog.constructor | Sources/DirijorDaemonKit/OutputLog.swift:195-219 | opening shows the whole stream a recoverable file holds, in either mode |
| OutputLogs.OutputLog.Append | Sources/DirijorDaemonKit/OutputLog.swift:69-85 | ring, spill file, carry and remembered resets stay those of the history plus the data |
| OutputLogs.OutputLog.ScanForSyncPoints | Sources/DirijorDaemonKit/OutputLog.swift:157-191 | after any chunk the points are the last 64 resets since open at or above the base, wherever chunks were cut |
| OutputLogs.OutputLog.TruncateToHalf | Sources/DirijorDaemonKit/OutputLog.swift:256-281 | truncation keeps the newest half of the history and exactly the resets still at or above the new base |
| OutputLogs.OutputLog.Read | Sources/DirijorDaemonKit/OutputLog.swift:91-107 | a read returns exactly the history from the clamped start up to its budget, from ring or spill, in both modes |
| OutputLogs.OutputLog.RefreshFromDisk | Sources/DirijorDaemonKit/OutputLog.swift:127-146 | a refresh takes over the base and length of the file behind the handle and reports whether either changed; a missing, short or foreign file changes nothing |
| OutputLogs.OutputLog.PreferredReplayStart | Sources/DirijorDaemonKit/OutputLog.swift:111-117 | replay starts at the newest reset within the budget, else that many bytes back, clamped |
| OutputLogs.UnderflowExactly | Sources/DirijorDaemonKit/OutputLog.swift:285-296 | a read traps if and only if the log is read-only and its end falls below a base rotated past the range |
| HolderServers.HolderServer.constructor | Sources/DirijorHolderKit/HolderServer.swift:44-49 | the epoch is the tail before the child writes anything |
| HolderServers.HolderServer.DrainPTY | Sources/DirijorHolderKit/HolderServer.swift:109-121 | what the child wrote is appended to its part of the stream in order |
| HolderServers.HolderServer.Finish | Sources/DirijorHolderKit/HolderServer.swift:212-237 | one exit marker is appended, after all the child's output, and nothing is written after it |
| SessionLog.TakeChunkOk | Sources/DirijorDaemonKit/AgentSession.swift:589-629 | one chunk keeps fed bytes, accumulator and acted-on exits those of the bytes consumed |
| SessionLog.TurnOk | Sources/DirijorDaemonKit/AgentSession.swift:598-603 | so does one turn of the loop wherever the reader stands, reading, skipping or stopping |
| SessionLog.AgentSession.TakeTurn | Sources/DirijorDaemonKit/AgentSession.swift:589-629 | a turn of the loop over the log is the turn the run theorems are about |
| SessionLog.ChunkAttributed | Sources/DirijorDaemonKit/AgentSession.swift:594-597 | never reading across the boundary in one chunk makes attribution by chunk the same as attribution by marker |
| SessionLog.AgentSession.DrainLog | Sources/DirijorDaemonKit/AgentSession.swift:586-637 | the loop feeds exactly the stripped stream; a reader inside the retained window reaches the tail without a trap or a skip |
| SessionRuns.EmulatorSeesTheStream | Sources/DirijorDaemonKit/AgentSession.swift:453-483 | through every interleaving of append, rotate, refresh, drain, checkpoint and restart that skips nothing, what was fed and held is the stripped stream from the start to the read offset |
| SessionRuns.RestartPosition | Sources/DirijorDaemonKit/AgentSession.swift:453-483 | a restarted daemon resumes a usable checkpoint as it was left, else starts empty at the later of the file's base and the budget before its end |
| SessionRuns.CheckpointResumes | Sources/DirijorDaemonKit/AgentSession.swift:465-483 | a checkpoint saved is taken up where it was, whatever steps come between, as long as the stream has not outrun the budget |
| SessionRuns.WindowProgress | Sources/DirijorDaemonKit/AgentSession.swift:589-603 | inside the retained window a turn never traps and always advances |
| SessionRuns.ExitsByEpoch | Sources/DirijorDaemonKit/AgentSession.swift:617-628 | in every run the daemon acts on an exit if and only if it has read a marker that ends beyond the incarnation boundary, and on no other |
| SessionRuns.TrapIsReachable | Sources/DirijorDaemonKit/OutputLog.swift:285-296 | a run of append, restart, rotate and refresh in which the next read traps |
| ExitMarker.SwallowedMarker | Sources/DirijorHolderKit/HolderProtocol.swift:263-272 | a marker appended while another is open reads with it as one marker, whose payload joins the two |
| SessionRuns.FinalMarkerIsSeen | Sources/DirijorHolderKit/HolderServer.swift:221-222 | beside earlier exits, one is acted on if and only if what the last marker is read as, alone or joined to one left open, decodes |
| SessionRuns.ExitsAreOwn | Sources/DirijorDaemonKit/AgentSession.swift:617-628 | with the boundary where the incarnation began, nothing left open and a child that spells no marker prefix, every exit acted on is the one in that incarnation's marker |
| GridReplica.PatchDiff | Sources/DirijorDaemonKit/HeadlessScreen.swift:341-355 | patching the baseline with a diff gives the screen inside the diffed range |
| GridReplica.DiffInRange | Sources/DirijorDaemonKit/HeadlessScreen.swift:330-339 | a diff limited to a range covering every changed row is the full diff |
| GridReplica.FlushAgrees | Sources/DirijorDaemonKit/AgentSession.swift:672-702 | after a flush every sink not flagged holds the emulator's rows, and the baseline does too |
| GridReplica.FlushRepairs | Sources/DirijorDaemonKit/AgentSession.swift:695-702 | from any state, a flush leaves in step everyone drained when repairs go out, and flags only who was slow then and had fallen behind |
| GridReplica.FlushFlags | Sources/DirijorDaemonKit/AgentSession.swift:672-702 | after a flush a sink is flagged if and only if it is slow when repairs go out and was flagged before, or was too slow for rows or a cursor it had to be told |
| GridReplica.DrainedSinkIsRepaired | Sources/DirijorDaemonKit/AgentSession.swift:736-747 | every drained sink, flagged before or not, shows the emulator's rows and cursor after the flush |
| GridReplica.SendFullReaches | Sources/DirijorDaemonKit/AgentSession.swift:780-794 | a full broadcast flags the slow, and everyone in step shows the screen |
| GridReplica.RetryReaches | Sources/DirijorDaemonKit/AgentSession.swift:716-747 | a retry gives exactly the flagged sinks that drained the screen and drops exactly their flags |
| GridReplica.AttachReaches | Sources/DirijorDaemonKit/AgentSession.swift:1305-1315 | the new sink shows the screen, the baseline is the screen, and nobody else is sent anything |
| GridReplica.UpdateCarries | Sources/DirijorDaemonKit/HeadlessScreen.swift:311-362 | an update is full when asked or when no baseline of the geometry exists; its rows are all rows, or exactly those that differ, each once, top to bottom |
| GridReplica.AttachExactly | Sources/DirijorDaemonKit/AgentSession.swift:1305-1315 | attaching keeps the other sinks consistent with the baseline if and only if they hold the current screen |
| GridReplica.RetryExactly | Sources/DirijorDaemonKit/AgentSession.swift:716-721 | a retry keeps consistency if and only if the baseline is current or void, or nothing is repaired |
| GridReplica.RunAgrees | Sources/DirijorDaemonKit/AgentSession.swift:672-747 | over every run whose attaches and retries meet those conditions, sinks not flagged hold the baseline |
| GridReplica.ReplicasAgree | Sources/DirijorDaemonKit/AgentSession.swift:780-794 | after any such run and a flush, every sink not flagged shows the emulator's rows, whatever was dropped or repaired |
| GridReplica.AttachTrap | Sources/DirijorDaemonKit/AgentSession.swift:1315-1315 | attaching over dirty rows leaves another sink wrong through the next flush |
| GridReplica.RetryTrap | Sources/DirijorDaemonKit/AgentSession.swift:734-747 | after a retry with an old baseline, a row that changes back is never resent |
| GridReplica.CursorExactly | Sources/DirijorDaemonKit/AgentSession.swift:684-692 | every step keeps the cursor the flush gate assumes if and only if attaches, full broadcasts and repairs outside a flush deliver the cursor last broadcast, or reach nobody in step |
| GridReplica.CursorsAgree | Sources/DirijorDaemonKit/AgentSession.swift:684-692 | after any such run and a flush, every sink not flagged shows the emulator's cursor |
| GridReplica.CursorTrap | Sources/DirijorDaemonKit/AgentSession.swift:684-692 | once a sink in step shows another cursor than the one last broadcast, a return to it is never sent |
| HeadlessGrid.RangeIsEnough | Sources/DirijorDaemonKit/HeadlessScreen.swift:307-310 | inside a covering range, diff and new baseline are those of the whole screen |
| HeadlessGrid.SplitRow | Sources/DirijorDaemonKit/HeadlessScreen.swift:344-354 | storing one row in the flat buffer leaves every other row as it was |
| HeadlessGrid.HeadlessScreen.GridUpdate | Sources/DirijorDaemonKit/HeadlessScreen.swift:311-362 | the update carries exactly the rows that differ from the baseline, or all of them on a full or resized update, and the baseline becomes the screen |
| HeadlessGrid.HeadlessScreen.ScanRow | Sources/DirijorDaemonKit/HeadlessScreen.swift:343-354 | a row counts as changed if and only if forced or different, and the baseline row becomes the screen's |
| HeadlessGrid.HeadlessScreen.Resize | Sources/DirijorDaemonKit/HeadlessScreen.swift:102-122 | a resize leaves no baseline, so the next update is full |
| HeadlessGrid.HeadlessScreen.FullSnapshot | Sources/DirijorDaemonKit/HeadlessScreen.swift:368-378 | a snapshot carries every row and leaves the baseline alone |
| GridSinks.AgentSession.FlushGrid | Sources/DirijorDaemonKit/AgentSession.swift:672-702 | a flush diffs, broadcasts when rows or cursor changed, and repairs the flagged sinks that drained: the step the run theorems are about |
| GridSinks.AgentSession.BroadcastGrid | Sources/DirijorDaemonKit/AgentSession.swift:780-794 | slow sinks are flagged and skipped, flagged ones skipped, all others get the update |
| GridSinks.AgentSession.ResyncGridSinks | Sources/DirijorDaemonKit/AgentSession.swift:736-747 | exactly the flagged sinks that drained get a full snapshot and lose their flag |
| GridSinks.AgentSession.RetryDesyncedSinks | Sources/DirijorDaemonKit/AgentSession.swift:716-721 | a retry repairs without moving the baseline |
| GridSinks.AgentSession.Attach | Sources/DirijorDaemonKit/AgentSession.swift:1305-1315 | a new sink gets the whole screen and the baseline moves with it |
| GridSinks.AgentSession.Detach | Sources/DirijorDaemonKit/AgentSession.swift:1327-1330 | a sink leaves with its flag |
| GridCodec.UnpackPacked | Sources/DirijorProtocol/Grid.swift:19-37 | packing a colour is inverted exactly |
| GridCodec.PackedUnpack | Sources/DirijorProtocol/Grid.swift:29-37 | a word is some colour's packed form if and only if it has no bits to spare |
| GridCodec.ExpandRuns | Sources/DirijorProtocol/Grid.swift:117-134 | the runs of a row expand to the row |
| GridCodec.RunsAreMaximal | Sources/DirijorProtocol/Grid.swift:120-126 | runs are never empty, and one ends only where the cell changes or at 65535 |
| GridCodec.GetRowPut | Sources/DirijorProtocol/Grid.swift:140-165 | a row read back is the row written, whatever follows it |
| GridCodec.DecodedEncoded | Sources/DirijorProtocol/Grid.swift:187-233 | decoding an encoded update gives it back, with only the cursor clamped to 16 bits |
| GridWire.RunEnd | Sources/DirijorProtocol/Grid.swift:120-126 | the inner loop finds the end of the maximal run |
| GridWire.AppendRow | Sources/DirijorProtocol/Grid.swift:115-137 | the encoding loop appends exactly the row's run form |
| GridWire.Encode | Sources/DirijorProtocol/Grid.swift:188-204 | the encoder writes exactly the update's binary form, laid out byte by byte as documented |
| GridLayout.EncodedIsLaid | Sources/DirijorProtocol/Grid.swift:99-107 | each byte of the binary form: columns, rows, clamped cursor, flag bits, row count; then each row's number, run count and sixteen bytes a run, to the end |
| GridLayout.RunBytes | Sources/DirijorProtocol/Grid.swift:148-160 | what the decoder makes of each of a run's sixteen bytes, and that it asks for no more |
| GridLayout.DecodedFromBytes | Sources/DirijorProtocol/Grid.swift:206-233 | whatever the payload, what the decoder makes of its first eleven bytes, and that fewer are refused |
| GridWire.ReadRow | Sources/DirijorProtocol/Grid.swift:140-165 | the reading loop returns the row and advances past it, or fails exactly on short payloads, never out of bounds |
| GridWire.ReadField | Sources/DirijorProtocol/Frames.swift:176-191 | the shift-and-or loop reads the big-endian field |
| GridWire.Decode | Sources/DirijorProtocol/Grid.swift:206-233 | decoding an arbitrary payload stays in bounds and agrees with the codec |
| Frames.FramesAreStable | Sources/DirijorProtocol/Frames.swift:145-158 | a complete frame is the same whatever follows it |
| Frames.PrefixIsGood | Sources/DirijorProtocol/Frames.swift:147-153 | a good stream cut anywhere is never mistaken for a corrupt one |
| Frames.FramesRoundTrip | Sources/DirijorProtocol/Frames.swift:134-160 | frames encoded, run together and cut anywhere are read back as they were |
| Frames.FrameBytes | Sources/DirijorProtocol/Frames.swift:134-140 | a frame is its type, four length bytes from the highest, and its payload |
| Frames.RefusedHeaders | Sources/DirijorProtocol/Frames.swift:145-153 | a header is refused if and only if its type is outside 1 to 10 or its length bytes say more than 16 MiB |
| Frames.UpdatesRoundTrip | Sources/DirijorProtocol/Frames.swift:58-60 | grid updates encoded, framed and cut anywhere arrive as they were sent |
| Frames.FrameCodec.Append | Sources/DirijorProtocol/Frames.swift:142-160 | every complete frame is taken, the rest kept, and an unknown type or oversized frame reported with its header left in place |
| EventStreams.NothingLostUnaccounted | Sources/DirijorDaemonKit/EventBus.swift:197-228 | over every run, admitted events and markers are, as a multiset, those received, queued, evicted with a report, and evicted by a marker's own yield; reports add up |
| EventStreams.AccountingFromTheStart | Sources/DirijorDaemonKit/EventBus.swift:200-214 | the same from a fresh subscription, with the queue within its bound |
| EventStreams.NewestIsKept | Sources/DirijorDaemonKit/EventBus.swift:189-196 | the event just published is received or queued unless the queue bound is one, the queue empty, nobody waits and a marker is owed; then it is lost |
| EventStreams.ConsumerSeesOrder | Sources/DirijorDaemonKit/EventBus.swift:141-148 | whatever is evicted, real events reach the consumer in publication order, each at most once |
| EventStreams.FilteredOrClosed | Sources/DirijorDaemonKit/EventBus.swift:197-200 | an event the filter refuses changes nothing, and one offered to a closed stream ends the subscription |
| EventStreams.DeliveredInOrder | Sources/DirijorDaemonKit/EventBus.swift:197-228 | with room, an admitted event comes next, and after it the marker that was owed |
| EventStreams.EvictedAndCounted | Sources/DirijorDaemonKit/EventBus.swift:200-214 | with no room the oldest goes, counted and named, and the event is queued last |
| EventStreams.ConsumerSeesAdmitted | Sources/DirijorDaemonKit/EventBus.swift:197-200 | over every run a subscription is handed only what its filter admits |
| EventStreams.UncountedExactly | Sources/DirijorDaemonKit/EventBus.swift:200-214 | over every run, exactly one element goes uncounted for each marker issued with one slot left |
| EventStreams.RangeNamesTheGap | Sources/DirijorDaemonKit/EventBus.swift:215-218 | over every run, what the owed marker will report is the lost events, as many, first to last, if and only if no eviction since the last marker found a marker at the head of the queue |
| EventStreams.MarkerEvictionBlursTheRange | Sources/DirijorDaemonKit/EventBus.swift:215-218 | a run from a fresh subscription that ends with a report of one loss up to number 0, and one event uncounted |
| EventBuses.RetainedIsLongest | Sources/DirijorDaemonKit/EventBus.swift:168-174 | what is retained fits both bounds and no longer suffix does |
| EventBuses.RetainedSnoc | Sources/DirijorDaemonKit/EventBus.swift:158-174 | what is retained next depends only on what is retained now |
| EventBuses.ReplayNeverDrops | Sources/DirijorDaemonKit/EventBus.swift:109-113 | a replay no larger than the queue bound is queued whole |
| EventBuses.ReplayHolds | Sources/DirijorDaemonKit/EventBus.swift:236-245 | an event is replayed if and only if it is live, numbered above the given number, and admitted |
| EventBuses.ReplayKeepsOrder | Sources/DirijorDaemonKit/EventBus.swift:236-245 | a replay is in the ring's order, each event once |
| EventBuses.EventBus.constructor | Sources/DirijorDaemonKit/EventBus.swift:117-125 | capacities are clamped, and by default a queue holds any replay |
| EventBuses.EventBus.Archive | Sources/DirijorDaemonKit/EventBus.swift:158-186 | exactly the events whose parameters encode are archived, as they are; the live slots are the longest suffix of all archived events within both bounds, the byte count is their sum, and slots shifted by compaction never exceed evictions |
| EventBuses.EventBus.EvictOldest | Sources/DirijorDaemonKit/EventBus.swift:169-173 | eviction removes exactly the oldest live entry and its bytes, inside the array |
| EventBuses.EventBus.Absorb | Sources/DirijorDaemonKit/EventBus.swift:197-228 | one delivery follows the stream's outcome: enqueue and settle the owed marker, count an eviction, or end the subscription |
| EventBuses.EventBus.Publish | Sources/DirijorDaemonKit/EventBus.swift:141-148 | events are stamped 1, 2, 3, …, archived if and only if they encode, and delivered to every subscriber once |
| EventBuses.EventBus.Subscribe | Sources/DirijorDaemonKit/EventBus.swift:232-251 | a new stream starts with what the ring still holds after the given number that the filter admits, in order |
| EventResume.LogIsInOrder | Sources/DirijorClient/DaemonClient.swift:605-610 | over every run of publishes, reads, losses and resumptions the client's log is in publication order, no event twice |
| EventResume.ReplayIsExact | Sources/DirijorDaemonKit/EventBus.swift:236-245 | a resumption replays exactly what was missed if and only if the ring still holds the next event, or nothing newer was published |
| EventResume.ResumeIsGapless | Sources/DirijorClient/DaemonClient.swift:636-641 | without overflow and with the next event still held at each resumption, the client's log is at all times a contiguous piece of the published sequence, whatever was queued or on the wire when connections were lost |
| DaemonClients.DaemonClient.RouteEvent | Sources/DirijorClient/DaemonClient.swift:605-610 | the resume number stays the highest sequence number ever routed |
| DaemonClients.DaemonClient.Since | Sources/DirijorClient/DaemonClient.swift:636-641 | a subscription resumes from the highest number routed, or from nowhere before the first |
| DaemonClients.DaemonClient.Request | Sources/DirijorClient/DaemonClient.swift:149-178 | a request is in flight, or answered at once when it does not encode or there is no connection, never both and never neither |
| DaemonClients.DaemonClient.Resolve | Sources/DirijorClient/DaemonClient.swift:596-622 | only the first of response and timeout is heard |
| DaemonClients.DaemonClient.FailPending | Sources/DirijorClient/DaemonClient.swift:624-632 | a lost connection fails exactly the requests in flight |
| StatusReducers.StatusReducer.Reduce | Sources/DirijorDetection/Reducer.swift:51-97 | status, belief and outcome after a signal are the reducer function's, in every authority mode |
| StatusReducers.StatusReducer.HandleScreen | Sources/DirijorDetection/Reducer.swift:276-323 | a scan is held, ignored or applied as the reducer function says |
| ReducerLaws.WorkIsEntered | Sources/DirijorDetection/Reducer.swift:119-128 | the parent's work hook puts any session still alive to work: turn in flight, no blocker, no idle candidacy |
| ReducerLaws.EntersWorking | Sources/DirijorDetection/Reducer.swift:51-97 | what leaves a session working, signal by signal, and nothing else does |
| ReducerLaws.QuestionIsAsked | Sources/DirijorDetection/Reducer.swift:203-247 | a hook or a new scan that asks leaves the session needing that input, with its detail reported and the idle candidacy gone |
| ReducerLaws.EntersIdle | Sources/DirijorDetection/Reducer.swift:149-171 | what leaves a session idle, signal by signal, and nothing else does |
| ReducerLaws.FiresExactly | Sources/DirijorDetection/Reducer.swift:164-171 | a turn completes if and only if work ends on a strong idle, signalled now or before |
| ReducerLaws.TableIsRight | Sources/DirijorDetection/Reducer.swift:51-97 | the status after any signal is that of a table of status and signal |
| ReducerLaws.SignalIsRecorded | Sources/DirijorDetection/Reducer.swift:276-289 | what each signal leaves on record: last scan and belief, skipping, subagents, the time of the last signal |
| ReducerLaws.WorkBegins | Sources/DirijorDetection/Reducer.swift:51-97 | over every run a session is put to work if and only if by the parent's work hook, a new scan of work that neither a held blocker nor the startup grace stops, or first output when only the process counts |
| ReducerLaws.QuestionBegins | Sources/DirijorDetection/Reducer.swift:203-301 | over every run a session comes to ask for permission or an answer if and only if a hook of the parent asks that or a new scan shows it |
| ReducerLaws.StartupIsOver | Sources/DirijorDetection/Reducer.swift:314-344 | over every run, exactly what ends startup: exit, the agent's own hooks, a new scan of a question, or of work or idleness after the grace |
| ReducerLaws.RunFollowsTable | Sources/DirijorDetection/Reducer.swift:51-97 | over every run every status follows the table |
| ReducerRuns.SoundAt | Sources/DirijorDetection/Reducer.swift:101-171 | over every run: a held blocker means the session needs input or has exited, working means a turn is in flight, and a pending completion means a strong idle |
| ReducerRuns.FireHasCause | Sources/DirijorDetection/Reducer.swift:130-171 | every completed turn is a working-to-idle step with an end-of-turn signal received while working, and no work, blocker or question since |
| ReducerRuns.CausesAreDistinct | Sources/DirijorDetection/Reducer.swift:119-128 | two completions never share an end-of-turn signal, and the session entered working again in between |
| ReducerRuns.StrongIdleFiresOnce | Sources/DirijorDetection/Reducer.swift:367-379 | a strong idle left alone until a tick ends in idle with exactly one completion |
| ReducerRuns.BlockerIsHeld | Sources/DirijorDetection/Reducer.swift:291-312 | a screen blocker is left if and only if by exit, the parent's own work, or the last of enough fresh scans in a row without it |
| ReducerRuns.QuietIdleIsConfirmed | Sources/DirijorDetection/Reducer.swift:149-162 | without a strong idle, work turns to idle if and only if on the last of enough fresh idle scans, or on scans spanning the cap, at least two when the cap is positive |
| ReducerRuns.SubagentsDoNotInterfere | Sources/DirijorDetection/Reducer.swift:180-192 | two runs that differ only in subagents' signals, anywhere, end alike and answer the parent's signals alike, while neither goes stale |
| ReducerRuns.SubagentsNeverStale | Sources/DirijorDetection/Reducer.swift:367-373 | with a clock that never runs back, only the parent's own run has to stay fresh |
| HolderManagers.OneEachStep | Sources/DirijorHolderKit/HolderManager.swift:161-203 | every step keeps one worker for each active session, and nothing changes once shutting down |
| HolderManagers.AtMostOneWorker | Sources/DirijorHolderKit/HolderManager.swift:149-203 | in every interleaving a session has a worker if and only if it is active, never two, and none ever again after shutdown |
| HolderManagers.LaunchStartsAWorker | Sources/DirijorHolderKit/HolderManager.swift:161-184 | a launch and its start leave the session active with exactly one worker, one more than before unless it was active, and no other session touched |
| HolderManagers.EndFreesTheSession | Sources/DirijorHolderKit/HolderManager.swift:197-245 | a session whose worker ends is active no longer, has no worker, and was the last if and only if the manager may then stop |
| HolderManagers.StepIsSafe | Sources/DirijorDaemonKit/HolderLauncher.swift:30-68 | every patient step keeps the lock, socket and pid file in agreement with who is starting, serving and cleaning up |
| HolderManagers.LiveManagerIsReachable | Sources/DirijorDaemonKit/HolderLauncher.swift:35-51 | in every interleaving of patient launchers, a live manager owns socket and pid file and is the only one |
| HolderManagers.CleanupUnlinksItsOwn | Sources/DirijorHolderKit/HolderManager.swift:253-270 | an exiting manager unlinks only files that name it, with nobody else listening or starting |
| HolderManagers.OneWorkerAnywhere | Sources/DirijorHolderKit/HolderManager.swift:155-184 | across all managers a session has at most one worker, and it is the live manager's |
| HolderManagers.GivingUpExactly | Sources/DirijorDaemonKit/HolderLauncher.swift:41-50 | a launcher's timeout is harmless, whatever follows, if and only if the manager it spawned is not still starting, nor bound while the pid file names an older one yet to clean up |
| HolderManagers.HarmlessRunOwns | Sources/DirijorDaemonKit/HolderLauncher.swift:30-68 | in every interleaving whose timeouts are harmless, a live manager owns socket and pid file |
| HolderManagers.LosesToALatecomer | Sources/DirijorDaemonKit/HolderLauncher.swift:41-50 | after a timeout on a manager still starting, a second one serves and then loses its socket to the first |
| HolderManagers.LosesToAnOlder | Sources/DirijorHolderKit/HolderManager.swift:256-270 | after a timeout on a bound manager, an older one named in the pid file unlinks the new socket |
| HolderManagers.DangersArise | Sources/DirijorDaemonKit/HolderLauncher.swift:35-51 | runs from an empty registry that reach both dangers |
| HolderManagerServers.HolderManagerServer.constructor | Sources/DirijorHolderKit/HolderManager.swift:82-92 | a manager binds the socket, whoever held it, and writes its pid |
| HolderManagerServers.HolderManagerServer.Handle | Sources/DirijorHolderKit/HolderManager.swift:139-195 | an unsupported version, a missing or a bad spec is refused; a sound launch makes its session active with exactly one worker, new unless it was active; a ping changes nothing |
| HolderManagerServers.HolderManagerServer.Finished | Sources/DirijorHolderKit/HolderManager.swift:197-203 | the ended session is no longer active, and the idle timer is asked for when none is |
| HolderManagerServers.HolderManagerServer.StopIfIdle | Sources/DirijorHolderKit/HolderManager.swift:230-245 | the manager stops listening if and only if nothing is active |
| HolderManagerServers.HolderManagerServer.CleanupControlFiles | Sources/DirijorHolderKit/HolderManager.swift:256-270 | the control files go if and only if the pid file names this process |
| Engine.SortOrdered | Sources/DirijorDetection/ManifestSchema.swift:181-188 | the rules are ordered by descending priority, ties in manifest order |
| Engine.OneMoreMember | Sources/DirijorDetection/ManifestSchema.swift:64-67 | one more member, anywhere, can only help `any` and only hurt `all` |
| Engine.DeMorgan | Sources/DirijorDetection/ManifestSchema.swift:64-69 | none of these is all of their opposites, and not all of these is one of their opposites |
| Engine.MoreFound | Sources/DirijorDetection/ManifestSchema.swift:54-71 | a predicate without `not` never loses a match to a matcher that finds more |
| Engine.JoinedSplits | Sources/DirijorDetection/Engine.swift:51-52 | a region's text, split at its newlines, is the region's lines |
| Engine.SortMember | Sources/DirijorDetection/ManifestSchema.swift:181-188 | sorting neither loses nor invents a rule |
| Engine.FirstMatchIsBest | Sources/DirijorDetection/Engine.swift:59-69 | the first match in sorted order has the greatest priority of all matches, and is the earliest among ties |
| Engine.ContextFor | Sources/DirijorDetection/Engine.swift:44-57 | a cached region gives the same context as a fresh extraction |
| Engine.EvaluateImpl | Sources/DirijorDetection/Engine.swift:37-71 | the early-exit, memoised evaluation picks the naive evaluation's one best rule, the only rule that matches if it is alone, or none when nothing matches |
| Ownership.AgentSession.LaunchReady | Sources/DirijorDaemonKit/AgentSession.swift:371-409 | queued input goes first, and the child starts at its owner's size if and only if the calls before and during the launch fit: the owner told no size, or its last is the last anyone told before the exec |
| Ownership.HeardIs | Sources/DirijorDaemonKit/AgentSession.swift:1113-1130 | what a session has on record of its clients is what their calls say: roles and sizes from all of them, the launch size from those before the exec |
| Ownership.ResizeDuringLaunch | Sources/DirijorDaemonKit/AgentSession.swift:350-387 | a viewport that comes during the launch does not fit |
| Ownership.ResizeByTheOther | Sources/DirijorDaemonKit/AgentSession.swift:1122-1130 | nor does the phone's, told first, when the Mac told another before the exec |
| Ownership.AgentSession.Reattach | Sources/DirijorDaemonKit/AgentSession.swift:423-451 | an adopted child is hibernated if and only if its record says so |
| Ownership.AgentSession.Write | Sources/DirijorDaemonKit/AgentSession.swift:949-952 | until the end, bytes sent and bytes queued are the bytes received, in order, and all are sent while the child runs |
| Ownership.AgentSession.Hibernate | Sources/DirijorDaemonKit/AgentSession.swift:848-869 | a session hibernates if and only if a running child could be stopped, with its record |
| Ownership.AgentSession.Wake | Sources/DirijorDaemonKit/AgentSession.swift:873-899 | waking sends the queued input in order and applies the queued size; a failed signal changes nothing |
| Ownership.AgentSession.Resize | Sources/DirijorDaemonKit/AgentSession.swift:1113-1143 | the role's size is recorded; a running holder is given the owner's size, a frozen one has it queued; during a launch nothing is applied |
| Ownership.AgentSession.ApplyOwnership | Sources/DirijorDaemonKit/AgentSession.swift:1355-1369 | the owner's size is in force or queued, and a change of owner is announced exactly once |
| Ownership.AgentSession.Attach | Sources/DirijorDaemonKit/AgentSession.swift:1305-1325 | a phone that opens takes control, a hibernated session wakes, the owner's size is in force, and nothing else changes |
| Ownership.AgentSession.Detach | Sources/DirijorDaemonKit/AgentSession.swift:1327-1339 | the sink leaves; the Mac's hold ends when a phone leaves or no Mac is left, so that control falls back to whoever remains |
| Ownership.AgentSession.SetOwner | Sources/DirijorDaemonKit/AgentSession.swift:1344-1350 | the Mac reclaims, or the phone does if one is attached |
| Ownership.AgentSession.Terminate | Sources/DirijorDaemonKit/AgentSession.swift:1262-1286 | ending a hibernated session wakes it and drops its record |
| Ownership.AlternatesMore | Sources/DirijorDaemonKit/AgentSession.swift:1364-1368 | announcing only changes keeps the announced values strictly alternating |

## Left out

- File-system failures, disk syncs and log pruning: writes and rotations succeed and are atomic.
- The emulator: a picture of rows with a dirty range. `HeadlessGrid.HeadlessScreen.GridUpdate` assumes, as the source does, that the range covers every changed row; `Feed` shows what keeps that true.
- How a client applies an update is not part of the repository's Swift code; the model follows the comments at Sources/DirijorProtocol/Grid.swift:73-84 (a full snapshot replaces the grid, otherwise rows are patched).
- Restart claims stop at the bytes handed to the emulator: a checkpoint does not store the filter's partial control sequence.
- Offsets beyond 64 bits, and spill files that other programs write.
- `SessionRuns.ExitsAreOwn` is about a session read from at or below the incarnation boundary; a replay that starts in the middle of the child's output is covered by `SessionRuns.ExitsByEpoch`.
- Event names are counted one byte a character, and a JSON value is known by its encoding, so that a replayed event equals the published one.
- Gapless resumption is about an unfiltered subscription to one daemon whose events all encode.
- Texts inside a needs-input detail (summaries, redaction, risk hints, scraped options), and the excerpt captured after a rule has won.
- Region extraction, substring search and regular expressions: parameters of the detection engine.
- The launcher is a step machine, not a method: its polling loops are nondeterministic steps, pings are truthful about the listener the path leads to, and process ids are not reused.
- A manager whose accept loop ends on any other error than its own shutdown.
- Session workers a pre-manager holder already serves are adopted, not modelled further.
- Timers (flush pacing, retry, resize settling, blank-screen recovery, wake jiggle, delayed Enter, prompt injection): steps that may come at any time, or absent.
- 16-bit traps on geometry outside the wire range, and a launch below two rows or columns, where the emulator's size and the recorded one differ until the next resize.
- Registry, migration, scanners, command line, browser and ssh plumbing, network transports, and the Rust crates.
