# FreeSWITCH core: a Dafny model of its hand-written state

The project models the parts of the FreeSWITCH core whose correctness rests on small pieces of
mutable state, and proves what those pieces are for, over all inputs and whole runs. Each module
follows one source component; code that updates fields or arrays in place is a class or a method
with loops, proved against a specification function, and the laws are lemmas about that function.
`Common` holds the few types several modules share.
The session thread, where other actors call in between any two steps, is a transition system.

| module | component | main results |
|---|---|---|
| `SlidingBuffer` | byte buffer with moving head, lazy compaction and growth | every run of calls answers as a plain FIFO queue; the accepted stream is the removed stream followed by the queue; `read_loop` plays the content exactly max(1, k) times |
| `Chunking`, `FrameWriter` | re-packetising of written frames | encoder inputs depend only on the byte stream, not on its framing, and nothing is lost, whatever fails in any call |
| `FilePreBuffer` | pre-buffered file writing | over whole recordings, blocks handed to the file are the written bytes cut at the block size; an exact condition for nothing being dropped by the sample-count division |
| `MediaBugReader` | reading and mixing a media bug's two streams | all-or-nothing consumption of one frame per side; the mix is the saturated sum, although the code boosts overflowing sums first |
| `MediaBugPrune` | pruning flagged bugs | exactly the flagged bugs go, in order, although `last` is stale after each restart |
| `MatchSort` | pointer-rewiring bubble sort of console matches | the result is the unique stable sort, although the half-sorted list can be cyclic at its tail |
| `PortAllocator` | RTP port table, even ports | outstanding ports stay distinct, even and in range; a request fails exactly when all are out and otherwise grants the first port whose probe passes; at most four sweeps fail before each probe; a freed port is stepped over exactly four times before it is reissued |
| `ChannelState`, `SessionRun` | channel states and the session thread | over every interleaving: hangup handlers once, then reporting once, then `CS_DESTROY`; nobody can hold the thread back once `CS_HANGUP` is reached |
| `StateHandlers` | handler table and dispatch order | the macro's loops equal the declared order; over every run the table is a gap-free prefix exactly if each refused add was followed by a clear with NULL |
| `DeviceLegs`, `DeviceRecords` | leg statistics; shared, reference-counted device records | over every interleaving: refs and hash agree, legs say what their channels do, one final leg per record, no dangling pointer at destruction, no leak |
| `DeviceState` | device state, interval timers | at most one interval is open; reported talk times are exactly the maximal talking periods |
| `InetPton4`, `InetPton6` | address text parsers | exact acceptance for both; every 16-byte address survives printing and parsing |
| `CallTimes` | times of the call record | over every call: created <= answered <= hungup across profile changes, none of them ever changed; bill + answer = duration in all three units; no duration is negative or longer than the call |

Where the code and its comments disagree, or a natural law fails, the model follows the code and
the exact condition is proved:

- `inet_pton6` says that "::" in a full address is silently ignored. The shift loop instead clears
  every group behind it (`InetPton6.ParseUndoesPrint`, `InetPton6.GroupsLost`). It also accepts a
  trailing colon (`InetPton6.AcceptsExactly`, `InetPton6.TrailingColon`).
- The talk time in the device event is cut to 32 bits of microseconds before it is divided, so it is
  right exactly below 2^32 microseconds (`DeviceState.CheckAll`, `DeviceState.LongTalk`).
- A file block that is not a whole number of sample frames loses its odd tail
  (`FilePreBuffer.NothingLostIff`, `FilePreBuffer.ThreeChannels`), and a file write whose buffer
  cannot grow loses its bytes and still succeeds (`FilePreBuffer.PreBufferedFile.Write`,
  `FilePreBuffer.GrowthFails`).
- `write_frame` answers success when it finds the channel down, with whole packets still in the
  buffer; it leaves one exactly then (`FrameWriter.FrameWriter.Drain`, `FrameWriter.DownIsNoError`).
- A refused `add_state_handler` still advances the index. The slot stays lost whichever handler is
  cleared, and comes back exactly with `clear(NULL)` (`StateHandlers.RefusalSticks`,
  `StateHandlers.CleanExactlyWhen`); meanwhile a handler can be accepted and never called
  (`StateHandlers.AcceptedButNeverCalled`).
- A `zwrite` or `slide_write` that returns 0 has thrown bytes away, unless the buffer was empty; a
  refused `write` changes nothing (`SlidingBuffer.RefusedKeepsIff`, `SlidingBuffer.RefusedWhen`,
  `SlidingBuffer.WriteIsAllOrNothing`).
- The bubble sort leaves a cycle at the tail after its first pass exactly when that pass moved the
  last of three or more nodes; only the final walk by count repairs it (`MatchSort.Matches.Pass`, `MatchSort.CyclicTail`).
- With both port probes switched on, the verdict of the UDP probe is overwritten by that of the TCP
  probe (`PortAllocator.LastProbeDecides`).

A media bug would take 1280 bytes instead of a frame for frame sizes above 4096
(`MediaBugReader.OneFrameIff`); codec registration rejects such sizes
(src/include/switch_loadable_module.h:497), so this does not arise from a registered codec.

Inputs of the model that stand for the world outside: what the allocator answers, random draws,
clock readings, socket probes, codec, endpoint and file-write outcomes, and which other actor moves next.

## Model

| member | source | states |
|---|---|---|
| SlidingBuffer.CreateFixed | src/switch_buffer.c:55-67 | no buffer exactly when the pool fails; otherwise an empty fixed queue of the given capacity |
| SlidingBuffer.CreateGrowing | src/switch_buffer.c:69-97 | no buffer exactly when an allocation that is asked for fails; otherwise an empty growing queue, without storage exactly when the start length is 0 |
| SlidingBuffer.Buffer.Read | src/switch_buffer.c:189-207 | returns and removes exactly the first min(used, n) bytes; the written prefix stays for replay |
| SlidingBuffer.Buffer.Peek | src/switch_buffer.c:209-225 | returns the bytes a read would return and leaves queue, position and replayable bytes alone |
| SlidingBuffer.Buffer.Toss | src/switch_buffer.c:148-165 | removes the first min(used, n) bytes, returns how many are left, and keeps the replayable bytes |
| SlidingBuffer.Buffer.Zero | src/switch_buffer.c:296-303 | empties the queue, keeping its capacity |
| SlidingBuffer.Buffer.Compact | src/switch_buffer.c:255-259 | the overlapping move changes the layout and not the queue |
| SlidingBuffer.Buffer.Grow | src/switch_buffer.c:275-280 | reallocation keeps the bytes and sets the new capacity |
| SlidingBuffer.Buffer.MakeRoom | src/switch_buffer.c:253-288 | room is found exactly when the bytes fit or growth is allowed and served; head is already at the start when the code resets it |
| SlidingBuffer.Buffer.Store | src/switch_buffer.c:290-292 | appends the bytes behind the live ones |
| SlidingBuffer.Buffer.Write | src/switch_buffer.c:243-294 | refines the queue's append for every head position, gap and growth; by lengths alone, exactly when the bytes are taken and what is returned |
| SlidingBuffer.AppendByLengths | src/switch_buffer.c:243-294 | bytes are taken exactly if they fit, or growth up to the limit is allowed and served; then content, return value and new capacity |
| SlidingBuffer.Buffer.Zwrite | src/switch_buffer.c:305-315 | a refused write is retried on the emptied queue |
| SlidingBuffer.Buffer.SlideWrite | src/switch_buffer.c:317-327 | a refused write is retried after tossing as many bytes |
| SlidingBuffer.Buffer.SetLoops | src/switch_buffer.c:167-170 | changes the loop counter and nothing else |
| SlidingBuffer.Buffer.ReadLoop | src/switch_buffer.c:172-187 | refines one step of a tape player with rewind |
| SlidingBuffer.Drive | src/switch_buffer.c:148-327 | any sequence of calls gives the answers and the final content of the FIFO queue |
| SlidingBuffer.StepConserves | src/switch_buffer.c:148-327 | per call: content plus accepted bytes = removed bytes plus new content, acceptance judged by the return value |
| SlidingBuffer.RunConserves | src/switch_buffer.c:148-327 | per run: initial content plus accepted stream = removed stream followed by the final content |
| SlidingBuffer.WriteIsAllOrNothing | src/switch_buffer.c:249-293 | a non-empty write returns 0 and changes nothing, or appends all its bytes |
| SlidingBuffer.RefusedKeepsIff | src/switch_buffer.c:305-327 | a zwrite or slide_write that returns 0 leaves the queue unchanged if and only if it was empty, and what it leaves otherwise |
| SlidingBuffer.RefusedWhen | src/switch_buffer.c:305-327 | such a call returns 0 exactly when the bytes fit neither at once nor into the emptied or tossed queue |
| SlidingBuffer.FixedRefusesWhen | src/switch_buffer.c:305-327 | on a fixed buffer: exactly when the bytes exceed the capacity |
| SlidingBuffer.RefusedYetEmptied | src/switch_buffer.c:305-327 | a one-byte buffer loses its byte to a refused write of two |
| SlidingBuffer.PlayStep | src/switch_buffer.c:172-187 | one looped read plays the next bytes, is empty only when nothing is left, and never spans a wrap |
| SlidingBuffer.PlayAllConserves | src/switch_buffer.c:172-207 | any run of looped reads plays a prefix of what was to be played and keeps the rest |
| SlidingBuffer.LoopsPlayExactly | src/switch_buffer.c:167-207 | content with loop count k >= 0 is played max(1, k) times, and calls return 0 exactly from then on |
| SlidingBuffer.ReadLoops | src/switch_buffer.c:172-187 | a run of looped reads on the buffer is the run of the tape |
| SlidingBuffer.LoadAndPlay | src/switch_buffer.c:167-207 | the same for a buffer created, written and looped through the calls themselves |
| SlidingBuffer.PlaysForEver | src/switch_buffer.c:172-187 | with a negative count the played bytes are whole rounds plus the part before the position |
| SlidingBuffer.NeverSilent | src/switch_buffer.c:172-187 | with a negative count and content, no call of any run comes back empty |
| Chunking.ChunksConserve | src/switch_core_io.c:1474-1483 | full blocks followed by a rest shorter than a block are the stream |
| Chunking.ChunksSized | src/switch_core_io.c:1474-1483 | every block has exactly the packet length |
| Chunking.ChunksResume | src/switch_core_io.c:1466-1483 | bytes arriving in instalments are cut as if they had arrived together |
| FrameWriter.FrameWriter.Engage | src/switch_core_io.c:1450-1464 | the write buffer is created once, with 50 frames of room and growth by 25, without touching pending bytes |
| FrameWriter.FrameWriter.Drain | src/switch_core_io.c:1472-1616 | encoder inputs are exactly the packets up to the first stop, nothing pending is lost, failure is reported exactly for a packet that failed, and a successful drain leaves a whole packet if and only if the channel was found down before it |
| FrameWriter.FrameWriter.WriteFrame | src/switch_core_io.c:1450-1618 | the same for pending bytes plus the frame, and exactly when a call runs out of memory and changes nothing |
| FrameWriter.DownIsNoError | src/switch_core_io.c:1472-1479 | on a channel that is down a one-packet frame is answered with success while the packet stays in the buffer |
| FrameWriter.WriteFrames | src/switch_core_io.c:1450-1618 | for any sequence of frames with nothing in the way, the encoder inputs and the residue are the cut of the concatenated stream |
| FrameWriter.WriteAnyhow | src/switch_core_io.c:1450-1618 | whatever fails in any of the calls, the encoder inputs are the first packets of the stream of frames taken and the buffer holds all the rest |
| FilePreBuffer.PreBufferedFile.constructor | src/switch_core_file.c:222-226 | an empty pre-buffer of half its growth step, without storage exactly for a one-byte block in one channel; nothing written, nothing handed on |
| FilePreBuffer.PreBufferedFile.Accept | src/switch_core_file.c:442-442 | the unchecked buffer write takes all bytes, or loses them exactly when growth is needed and fails |
| FilePreBuffer.PreBufferedFile.Write | src/switch_core_file.c:433-458 | takes in exactly the bytes given unless growth failed, hands on at most one block, does so exactly when a block is full, counts the samples either way, and reports only a failed file_write |
| FilePreBuffer.GrowthFails | src/switch_core_file.c:442-458 | three bytes for a buffer of two that cannot grow: the call succeeds and counts them, and they never reach the file |
| FilePreBuffer.PreBufferedFile.Emit | src/switch_core_file.c:446-455 | one full block moves from the front of the buffer, and the file gets its whole sample frames |
| FilePreBuffer.PreBufferedFile.DrainOne | src/switch_core_file.c:625-636 | one turn of the drain loop hands on a full block or the short last one, and the file gets its whole sample frames |
| FilePreBuffer.PreBufferedFile.Close | src/switch_core_file.c:620-640 | after close all written bytes have been handed on as full blocks and one shorter last block, unless a file_write failed |
| FilePreBuffer.BlocksConserve | src/switch_core_file.c:437-458 | the blocks together are the written bytes; every block but the last is full |
| FilePreBuffer.Whole | src/switch_core_file.c:448-451 | the two truncating divisions keep exactly the whole sample frames of a block |
| FilePreBuffer.NothingLostIff | src/switch_core_file.c:442-452 | the whole frames of the blocks of a stream are the stream if and only if no block filled up or the block size is a whole number of sample frames |
| FilePreBuffer.Record | src/switch_core_file.c:433-640 | any number of writes and a close on a new file: blocks are the cut of what was taken, and the file holds all of it under exactly that condition; with growth never failing, what was taken is all that was written |
| FilePreBuffer.ThreeChannels | src/switch_core_file.c:442-452 | the default block with three channels: 65538 bytes are written and taken, fewer reach the file |
| MediaBugReader.BoostIsIdle | src/switch_core_media_bug.c:370-377 | the r/2 + w/2 step never changes the saturated sum, which is the 16-bit value nearest to the sum |
| MediaBugReader.NearestIsUnique | src/switch_core_media_bug.c:377-379 | there is only one nearest value, so the mix is determined |
| MediaBugReader.DecodeAt | src/switch_core_media_bug.c:324-328 | a sample is the two's complement value of its two bytes, low byte first |
| MediaBugReader.FillerIs | src/switch_core_media_bug.c:307-308 | filler is 0xFF throughout, which sounds as the sample -1 |
| MediaBugReader.MixMono | src/switch_core_media_bug.c:359-380 | in place, every output sample is the 16-bit value nearest to the sum of its inputs |
| MediaBugReader.Interleave | src/switch_core_media_bug.c:331-357 | stereo output alternates the two streams, zero past their ends |
| MediaBugReader.Take | src/switch_core_media_bug.c:293-322 | one side gives exactly its share, or filler when empty; the framing-error branch is unreachable |
| MediaBugReader.OneFrameIff | src/switch_core_media_bug.c:264-322 | a side that is not short gives exactly one frame if and only if the frame size is at most 4096 |
| MediaBugReader.MediaBug.Gate | src/switch_core_media_bug.c:196-283 | the exact condition for refusing, the pre-buffer count, and the frame size fixed once by the first call that gets so far, refused or not |
| MediaBugReader.MediaBug.Acquire | src/switch_core_media_bug.c:196-322 | False consumes nothing; otherwise each side loses exactly its share, one frame when the frame size is in range; Success exactly when both sides had data |
| MediaBugReader.MediaBug.Render | src/switch_core_media_bug.c:324-381 | the frame holds the mix, or the interleaving in the chosen order |
| MediaBugReader.MediaBug.Read | src/switch_core_media_bug.c:178-400 | the whole call: refusal condition, consumption of one frame per non-empty side, and rendered frame together |
| MediaBugPrune.SessionBugs.CloseBug | src/switch_core_media_bug.c:794-815 | closes exactly when neither lock nor foreign thread forbids it |
| MediaBugPrune.SessionBugs.Dispose | src/switch_core_media_bug.c:901-905 | with lock and thread binding dropped, close cannot refuse |
| MediaBugPrune.SessionBugs.Unlink | src/switch_core_media_bug.c:879-897 | one scan with a stale `last` removes exactly the first flagged bug and keeps the list well formed |
| MediaBugPrune.SessionBugs.PruneOne | src/switch_core_media_bug.c:877-907 | from one restart to the next one flagged bug is removed and closed, or none is left |
| MediaBugPrune.SessionBugs.Prune | src/switch_core_media_bug.c:871-910 | ends, removes exactly the flagged bugs, keeps the others in order, closes each once, returns their number |
| MediaBugPrune.Sides | src/switch_core_media_bug.c:871-910 | every bug is on exactly one side, and the flagged ones are those with SMBF_PRUNE |
| MatchSort.Matches.PushMatch | src/switch_console.c:1791-1812 | appends one node and keeps head, end and count |
| MatchSort.Matches.PushMatchUnique | src/switch_console.c:1777-1789 | appends exactly when no listed value is equal up to case, so no such pair ever arises |
| MatchSort.CaseEqualMeans | src/switch_console.c:1784-1784 | equal up to case: place by place the same character, or a letter in its two cases |
| MatchSort.GreaterMeans | src/switch_console.c:1739-1739 | a proper prefix is smaller, and otherwise the first differing character decides |
| MatchSort.Matches.Exchange | src/switch_console.c:1739-1745 | the pointer rewiring swaps two neighbours and leaves every other link |
| MatchSort.Matches.Step | src/switch_console.c:1737-1761 | one turn exchanges or not, moves the window on, and sets the last link to s3, which sticks at the last node |
| MatchSort.Matches.Turn | src/switch_console.c:1737-1761 | one turn keeps the window in place and carries the larger value on |
| MatchSort.Matches.Pass | src/switch_console.c:1731-1763 | a pass puts the largest remaining value in its final place and is stable; the first pass over three or more nodes leaves a cycle at the tail exactly when it moved the last node |
| MatchSort.CyclicTail | src/switch_console.c:1731-1763 | "c", "b", "a" have a cyclic tail after the first pass |
| MatchSort.Matches.Sort | src/switch_console.c:1719-1775 | a NULL-terminated, sorted, stable permutation of the same nodes with head, end and count right |
| MatchSort.StableSortIsUnique | src/switch_console.c:1719-1775 | two sorted stable rearrangements of one list are equal, so Sort's contract determines its result |
| PortAllocator.Allocator.constructor | src/switch_core_port_allocator.c:76-108 | rounding to even bounds, one slot per even port, nothing out |
| PortAllocator.EvenBounds | src/switch_core_port_allocator.c:76-85 | the bounds are the nearest even ports inside the range; 65535 rounds up to 0 |
| PortAllocator.Allocator.StepOver | src/switch_core_port_allocator.c:162-165 | a slot stepped over warms by one if it was cooling |
| PortAllocator.Allocator.Sweep | src/switch_core_port_allocator.c:161-169 | visits the ring from the start slot, each slot once, up to the first zero slot or all of them |
| PortAllocator.Allocator.Issue | src/switch_core_port_allocator.c:191-195 | the slot's port joins those out; if it had been put to cool it was stepped over exactly four times since |
| PortAllocator.Allocator.Shelve | src/switch_core_port_allocator.c:196-198 | a port whose probe failed is not out; its slot starts to cool |
| PortAllocator.Allocator.Release | src/switch_core_port_allocator.c:236-240 | exactly that slot's port is released and its cool-down starts |
| PortAllocator.Allocator.Attempt | src/switch_core_port_allocator.c:153-199 | a port goes out exactly if one was found and the last probe made passes; a fruitless sweep has warmed every slot that is not out |
| PortAllocator.LastProbeDecides | src/switch_core_port_allocator.c:181-189 | a probe counts exactly if it is switched on, but with both switched on the UDP one does not count |
| PortAllocator.Allocator.NextFind | src/switch_core_port_allocator.c:153-199 | while a port is left, at most four sweeps come up empty before the next find |
| PortAllocator.Allocator.RequestPort | src/switch_core_port_allocator.c:143-216 | fails exactly when all ports are out; otherwise goes through the failing probes to the first that passes, with at most four empty sweeps before each; a granted port is new, even and in range, and had cooled down if it had to |
| PortAllocator.Allocator.FreePort | src/switch_core_port_allocator.c:218-244 | succeeds exactly on an outstanding port (or the odd port above it) and releases only that one |
| PortAllocator.Drive | src/switch_core_port_allocator.c:143-244 | every run of requests and frees is legal step by step and ends with the ports its events say |
| PortAllocator.NeverIssuedTwice | src/switch_core_port_allocator.c:153-240 | between two grants of one port there is a release of it |
| ChannelState.Channel.SetState | src/switch_channel.c:2197-2416 | a call that is not fatal reaches the state asked for, or after CS_HANGUP the later of the two; exactly which changes are fatal, by rank; only NEW and RESET enter teardown this way; cause and order laws are kept |
| ChannelState.AllowedExactly | src/switch_channel.c:2237-2380 | the table by rank: anything from NEW and RESET, otherwise ROUTING to RESET, and INIT from HIBERNATE; in teardown only onwards |
| ChannelState.DefaultCause | src/switch_channel.c:2396-2400 | a channel moved straight to CS_HANGUP is given cause 16 |
| ChannelState.Channel.PerformHangup | src/switch_channel.c:3146-3190 | after any call the channel is over; one call per channel sets state and cause, all others change neither; cause and order laws are kept |
| ChannelState.StepSettles | src/switch_channel.c:2207-2416 | one step keeps: no cause below CS_HANGUP, no way back after it, one cause for good |
| ChannelState.RunSettles | src/switch_channel.c:2207-2416 | the same between any two points of any run that does not abort |
| ChannelState.Drive | src/switch_channel.c:2197-3190 | a channel driven by any calls goes through a run of settled states and aborts only below CS_HANGUP, on a change the table forbids |
| ChannelState.WhoStartsTeardown | src/switch_channel.c:2237-2411 | teardown starts by hangup, or by a change from NEW or RESET only |
| SessionRun.ThreadKeepsInv | src/switch_core_state_machine.c:449-600 | every step of the thread is possible and keeps the invariant |
| SessionRun.SelfHangupKeepsInv | src/switch_core_state_machine.c:695-747 | a hangup on the session's own thread, early handlers included, keeps the invariant |
| SessionRun.ActKeepsInv | src/switch_core_state_machine.c:449-600 | so does anything another actor does in between |
| SessionRun.ExactlyOnce | src/switch_core_state_machine.c:449-600 | over every interleaving: hangup handlers once, reporting once and after them, CS_DESTROY at the exit, two iterations after CS_HANGUP, hangup after at most 500 idle passes in CS_NEW |
| SessionRun.IdleChannelIsHungUp | src/switch_core_state_machine.c:562-571 | left alone the thread counts every pass in CS_NEW and hangs the channel up with WRONG_CALL_STATE on the 500th, after exactly 2001 of its steps |
| SessionRun.ThreadHangsUpOnlyIdle | src/switch_core_state_machine.c:562-571 | a thread step that takes a channel to CS_HANGUP is the one that ends the 500th idle pass |
| SessionRun.StateIsHandled | src/switch_core_state_machine.c:457-467 | a state is handled exactly if it differs from the one handled last or is a teardown state |
| SessionRun.HangupTakes | src/switch_channel.c:3154-3190 | a hangup by anybody takes effect at once, with its cause, and never again |
| SessionRun.SetTakes | src/switch_channel.c:2207-2416 | another actor's state change moves the channel and nothing else, and comes too late after CS_HANGUP |
| SessionRun.EarlyHandlersRun | src/switch_core_state_machine.c:695-747 | with early hangup the handlers run once inside the call and the thread goes on where it was; without it they wait for the loop |
| SessionRun.ThreadNeverAborts | src/switch_core_state_machine.c:488-500 | the loop's own state changes are never the invalid ones |
| SessionRun.ThreadCountsDown | src/switch_core_state_machine.c:449-600 | after CS_HANGUP every thread step comes closer to the exit |
| SessionRun.OthersDoNotDelay | src/switch_channel.c:3154-3172 | after CS_HANGUP the permitted calls of others change nothing |
| SessionRun.TeardownEnds | src/switch_core_state_machine.c:449-600 | after CS_HANGUP fifteen thread steps suffice, whatever happens in between |
| StateHandlers.HandlerTable.Add | src/switch_channel.c:2817-2841 | registers once, in order; a refused add changes only the index |
| StateHandlers.HandlerTable.Get | src/switch_channel.c:2843-2858 | on a clean table: the handler registered at that place, and null exactly from the number of handlers on |
| StateHandlers.HandlerTable.Clear | src/switch_channel.c:2860-2895 | carries over what stays, in order, and blanks the rest |
| StateHandlers.AddToClean | src/switch_channel.c:2823-2836 | an add on a clean table is refused exactly when 29 others are registered, and otherwise keeps it clean |
| StateHandlers.ClearClean | src/switch_channel.c:2867-2892 | clear keeps a clean table clean; by a handler exactly that one goes, by NULL exactly the sticky ones stay |
| StateHandlers.KeptInOrder | src/switch_channel.c:2867-2892 | what stays keeps its order |
| StateHandlers.ClearCleansIff | src/switch_channel.c:2860-2895 | a clear leaves a gap-free table if and only if there was no gap or it clears with NULL |
| StateHandlers.RefusalSticks | src/switch_channel.c:2829-2834 | the slot lost by a refused add comes back if and only if the clear that follows is by NULL |
| StateHandlers.RefusedAgain | src/switch_channel.c:2829-2834 | after a refusal and a clear of one handler the next add is refused although there is room |
| StateHandlers.StepCleanIff | src/switch_channel.c:2817-2895 | one call leaves a gap-free table exactly if it clears with NULL, or there was no gap and it is not refused |
| StateHandlers.CleanExactlyWhen | src/switch_channel.c:2817-2895 | over every run of adds and clears: no gap exactly if every refused add was followed by a clear with NULL |
| StateHandlers.TableIsTheFold | src/switch_channel.c:2817-2895 | over every run the handlers in the table are the accepted ones less the cleared ones, in order; without an unhealed refusal they are the gap-free prefix |
| StateHandlers.Drive | src/switch_channel.c:2817-2895 | a table driven through its calls goes through such a run, with the refusals its return values say |
| StateHandlers.AcceptedButNeverCalled | src/switch_channel.c:2829-2854 | after a refused add and two clears an accepted handler lies behind a gap, where the handler loops never get |
| StateHandlers.CleanIsVisible | src/switch_channel.c:2849-2854 | on a clean table the handler loop sees every registered handler, in order, and nothing else |
| StateHandlers.RunHandlers | src/switch_core_state_machine.c:362-388 | each handler loop calls in order up to and including the first veto |
| StateHandlers.Dispatch | src/switch_core_state_machine.c:356-395 | for any two tables: which callbacks are called, driver before channel before global before standard and each list in order; a driver veto leaves one entry; the standard handler runs exactly if nobody vetoed and the state is unchanged; the state left is the one set last |
| StateHandlers.ExpectedMeans | src/switch_core_state_machine.c:356-395 | the same of the declared order |
| DeviceRecords.DeviceRegistry.SetDeviceId | src/switch_channel.c:5107-5126 | when it answers true the channel is the last, live leg of the record hashed under the id, whose other legs are as before; every other record and channel is unchanged |
| DeviceRecords.DeviceRegistry.ProcessDeviceHup | src/switch_channel.c:4840-4894 | the leg is off the count; if no other leg is off hook the record leaves the hash and the channel is final, otherwise it drops its pointer; nothing else changes |
| DeviceRecords.DeviceRegistry.ClearDeviceRecord | src/switch_channel.c:4775-4830 | the channel goes, and exactly if it is the final leg the record too, without waiting when refs is 0; nothing else changes |
| DeviceRecords.DeviceRegistry.SetCallstate | src/switch_channel.c:265-277 | channel and leg take the call state; nothing else changes |
| DeviceRecords.SetKeepsInv | src/switch_channel.c:5107-5126 | setting a device id before hangup keeps the invariant |
| DeviceRecords.HangKeepsInv | src/switch_channel.c:4840-4894 | so does a leg's hangup |
| DeviceRecords.ClearKeepsInv | src/switch_channel.c:4775-4830 | so does destroying a hung-up channel |
| DeviceRecords.CallKeepsInv | src/switch_channel.c:265-277 | so does a change of call state, which the leg follows |
| DeviceRecords.FinalLegIsAlone | src/switch_channel.c:4782-4825 | at destruction refs is 0, the hash has no entry for the record, and no other channel points into it |
| DeviceRecords.FinalIsDecidedOnce | src/switch_channel.c:4880-4888 | no step gives a record a second final leg |
| DeviceRecords.CountedAndFound | src/switch_channel.c:4775-4894 | over every interleaving refs counts the legs without hup_profile, and a record is hashed exactly while refs > 0 |
| DeviceRecords.LegsFollowChannels | src/switch_channel.c:265-277 | over every interleaving a leg off hook belongs to a live channel and carries its call state and the opposite of its direction |
| DeviceRecords.OneFinalLeg | src/switch_channel.c:4880-4888 | over every interleaving a record's final leg, once decided, is the only one |
| DeviceRecords.RecordIsHeld | src/switch_channel.c:4775-4894 | every live record is pointed at by a leg off hook or by its final leg |
| DeviceRecords.NoRecordLeaks | src/switch_channel.c:4775-4894 | over every interleaving, when the last channel is gone no record and no hash entry is left |
| DeviceRecords.Drive | src/switch_channel.c:4775-5126 | the registry driven through its calls goes through such an interleaving, never waits at destruction, and is empty when the last channel is gone |
| DeviceLegs.FetchDeviceStats | src/switch_channel.c:4698-4773 | every counter of every class, in all and by direction, counts exactly its legs |
| DeviceLegs.StatsMean | src/switch_channel.c:4714-4760 | each counter the state depends on counts the legs its name says; off hook are the legs without hup_profile |
| DeviceLegs.StatsTally | src/switch_channel.c:4706-4770 | all counters, as the counting loop promises them |
| DeviceLegs.StatsPartition | src/switch_channel.c:4706-4770 | the classes partition the leg list |
| DeviceLegs.StatsSplitByDirection | src/switch_channel.c:4706-4770 | every class is the sum of its inbound and outbound parts |
| DeviceState.Device.CheckDeviceState | src/switch_channel.c:4896-5058 | what each state means for the legs, both ways: hung up, one or several talking, ringing, held, or down; all stop times are 0 and the one open interval is that of the state; what is started, kept and reported |
| DeviceState.DeriveShows | src/switch_channel.c:4912-4930 | the state derived from the counters is the one the legs call for |
| DeviceState.CheckAll | src/switch_channel.c:4896-5058 | a run of checks reports a talk exactly when talking stops, from the start of the maximal talking period; with a clock that does not go back its milliseconds are right if and only if it lasted less than 2^32 microseconds |
| DeviceState.MillisExactIff | src/switch_channel.c:4993-4996 | the reported milliseconds are right if and only if the talk lasted less than 2^32 microseconds |
| DeviceState.MillisWrap | src/switch_channel.c:4993-4996 | beyond that they start again from 0 |
| DeviceState.LongTalk | src/switch_channel.c:4993-4996 | two checks 2^32 microseconds apart report a talk of 0 milliseconds |
| InetPton4.Pton4 | src/inet_pton.c:103-140 | the scanner equals splitting at the dots and reading four octets |
| InetPton4.QuadIff | src/inet_pton.c:103-140 | accepted are exactly four non-empty decimal runs of value at most 255 joined by dots, with their values |
| InetPton4.DigitIsPosition | src/inet_pton.c:103-122 | a digit is a character of "0123456789" and its value is its place there |
| InetPton6.ShiftBack | src/inet_pton.c:216-229 | the overlapping shift gives prefix, zeros, suffix, or prefix and zeros when there is nothing to elide |
| InetPton6.ScanLoop | src/inet_pton.c:174-209 | the character loop over the buffer equals the scanner function |
| InetPton6.Pton6 | src/inet_pton.c:156-235 | the parser as written equals the parse function |
| InetPton6.ParseUndoesPrint | src/inet_pton.c:156-235 | parsing gives back the printed address, if and only if "::" stands for at least one group or only zeros follow it |
| InetPton6.FullElisionWipes | src/inet_pton.c:216-229 | a "::" in a full address reads as the groups before it and zeros |
| InetPton6.GroupsLost | src/inet_pton.c:216-229 | "1:2:3:4::5:6:7:8" reads as 1:2:3:4 and four zero groups |
| InetPton6.AcceptsExactly | src/inet_pton.c:156-235 | the accepted texts are exactly the full and elided forms, with dotted tail or trailing colon, each with its meaning |
| InetPton6.TrailingColon | src/inet_pton.c:184-199 | "1::2:" is accepted and read as 1::2 |
| InetPton6.FullRoundTrip | src/inet_pton.c:156-235 | every 16-byte address survives printing in full, plain or with dotted tail |
| InetPton6.ElidedRoundTrip | src/inet_pton.c:156-235 | every 16-byte address survives eliding any of its runs of zero groups |
| InetPton6.HexDigitIsPosition | src/inet_pton.c:158-181 | a hex digit is a character of one of the two alphabets and its value is its place there |
| InetPton6.ParseIgnoresCase | src/inet_pton.c:156-235 | every text, accepted or not, is read as the same text with A..F written as a..f |
| InetPton6.AnyCaseRoundTrip | src/inet_pton.c:156-235 | both round trips hold for addresses printed in any mix of cases |
| CallTimes.CallRecord.SetCallerProfile | src/switch_channel.c:2661-2683 | a later profile inherits created, answered, progress and hangup times and keeps the order, exactly if its bridge time is in the past; a first one keeps its own times, and the order exactly when they are in order |
| CallTimes.CallRecord.MarkAnswered | src/switch_channel.c:3598-3613 | succeeds exactly on a channel that is not over; the first success sets time and flag, later calls change neither |
| CallTimes.CallRecord.MarkRingReady | src/switch_channel.c:3232-3256 | sets the progress time, in the originator's record too, once and not after the answer, never before creation, even on a channel that is over |
| CallTimes.CallRecord.MarkPreAnswered | src/switch_channel.c:3334-3357 | sets the early media time, in the originator's record too, exactly while there was neither early media nor an answer, never before creation |
| CallTimes.CallRecord.PeerRings | src/switch_channel.c:3242-3250 | the originator's record takes the time whatever its own flags are, and stays in order |
| CallTimes.CallRecord.PeerPreAnswers | src/switch_channel.c:3343-3351 | the same for early media |
| CallTimes.CallRecord.SetBridgeTime | src/switch_channel.c:3126-3133 | sets the bridge time and keeps all other times and their order |
| CallTimes.CallRecord.SetHangupTime | src/switch_channel.c:3136-3143 | the hangup time is set once; the order of times is safe afterwards exactly if the channel is over or has no profile |
| CallTimes.CallRecord.HangUp | src/switch_channel.c:3146-3190 | hanging the channel up keeps the record in order |
| CallTimes.CallRecord.SetState | src/switch_channel.c:2197-2416 | so does every state change, with the state it reaches and when it is fatal |
| CallTimes.CallRecord.HangupState | src/switch_core_state_machine.c:719-729 | at teardown the hangup time comes first and the one report is made from it; if this call set the time and the call is short of 2^31 milliseconds, no duration is negative or longer than the call |
| CallTimes.CallRecord.SetTimestamps | src/switch_channel.c:4211-4455 | reports once; no bill without an answer; answer + bill = duration in all three units; each duration below 2^31 milliseconds is non-negative, exact to the unit in seconds, milliseconds and microseconds, and the cast is exact only there |
| CallTimes.InTime | src/switch_channel.c:4417-4455 | with nothing later than the hangup, none of the seven durations is negative or longer than the call |
| CallTimes.Live | src/switch_channel.c:2661-4455 | over every call: created, answered and hangup times never change once set; at most one report is made; it bills the times that last, and no duration in it is negative or longer than the call |
| CallTimes.SpansAddUp | src/switch_channel.c:4417-4442 | truncated differences over adjoining intervals add up exactly, and seconds and milliseconds are within one unit of the microseconds |
| CallTimes.Int32Wraps | src/switch_channel.c:4417-4455 | the cast keeps a difference modulo 2^32 |
| CallTimes.HalfAMinute | src/switch_channel.c:4417-4419 | from 1 s to 31 s is 30 s, 30000 ms, 30000000 us |

## Left out

- SessionRun.ExactlyOnce: the thread is a transition system on values, not a class; a hangup call, a state change, and the test and write of the state inside a hangup are single steps; other actors are taken to move the channel only by hangup or to states below CS_HANGUP; the wait for CF_BLOCK_STATE is the thread standing at the top of the loop.
- SessionRun.TeardownEnds: counts steps of the thread; that handlers return and that a sleeping thread is woken is not modelled.
- ChannelState.Channel.PerformHangup: hold bookkeeping, events, variables, kill signal and thread launch are not modelled.
- PortAllocator.Allocator.RequestPort: what the socket probes find is an input; with probes that never pass the code loops for ever, and this is excluded.
- PortAllocator.Allocator.constructor: SPF_EVEN only; the odd and the mixed mode index the table differently and have no clean range.
- PortAllocator.Allocator.FreePort: a port beyond the table's two spare slots would be read out of bounds and is excluded.
- PortAllocator.Drive: the same two exclusions hold for every call of a run.
- SlidingBuffer.Buffer.Write: sizes are unbounded numbers, so overflow of size_t is not modelled; max_len is not claimed as a bound on capacity, because growth by the block size passes it.
- FrameWriter.FrameWriter.Drain: resampling, codec choice and frame header fields are reduced to whether the packet was encoded and sent; a resampler that cannot be created is one of the failures, since `done` does not write on this path.
- FilePreBuffer.PreBufferedFile.Write: resampling, seeking and the path without pre-buffer are not modelled; what a failing file_write does with its bytes is not part of the model, so `file` holds the bytes it was offered.
- FilePreBuffer.Record: a one-byte block in one channel, with which the first write aborts, is excluded.
- FilePreBuffer.PreBufferedFile.constructor: a pre-buffer whose creation fails (its return value is not looked at, and the path without pre-buffer follows) is not modelled.
- MediaBugReader.MediaBug.Read: the frame's header fields, the copy into the session's recur_buffer, and threads that write between the length test and the read are not modelled; samples are little-endian; a stereo frame whose buffer holds only one packet, which the code accepts and writes past, and one smaller than a side's share are excluded.
- MediaBugReader.MediaBug.Render: the same stereo frame is excluded; for an odd packet length the one stale sample that stereo copies at the end is not modelled.
- MediaBugPrune.SessionBugs.Prune: the prune flag is fixed during the call, and no other thread edits the list between two scans.
- StateHandlers.HandlerTable.Clear: more than one refused add would make it read past the table and is excluded.
- StateHandlers.Dispatch: handlers do not edit the handler lists; the global table has the channel table's lookup, but its own add and remove are not modelled.
- DeviceRecords.DeviceRegistry.SetDeviceId: the node list is a sequence, and pools are numbers; update through aliased node pointers is not modelled.
- DeviceState.Device.CheckDeviceState: bindings and the event itself are reduced to the talk time it carries; one reading of the clock serves each kind of timestamp in a check.
- CallTimes.CallRecord.SetTimestamps: hold, resurrect and profile times, the epoch and text forms, and the variables it sets are not modelled.
- CallTimes.CallRecord.MarkRingReady: a leg is not its own originator; the second copy of the time, into the originator profile this leg holds, is not modelled.
- CallTimes.CallRecord.MarkPreAnswered: the same.
- CallTimes.CallRecord.SetCallerProfile: one clock reading serves both times it sets; cloning a profile, which copies an existing time table aside and gives a profile without one a blank one (src/switch_caller.c:146-150), is not modelled.
- CallTimes.Live: the first profile of a call comes with an unused time table and bridge times are in the past; the originate code that reports on a channel still not hung up after five seconds (src/switch_ivr_originate.c:3597-3601) is not part of the run.
- InetPton6.Pton6: text is a C string without NUL; `errno` is not modelled.
- switch_core_media_bug_remove_all_function and switch_channel_unbind_device_state_handler: they have no "removes exactly" law.
- switch_channel_expand_variables_check: it depends on helpers outside the model.
- Events, presence, logging, XML, SQL, mutexes and condition waits.
- Codecs, G.711 tables, start-up, configuration, language bindings and the fscomm user interface.
