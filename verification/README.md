# NexQuake, modelled and proved

A Dafny model of the parts of NexQuake with the most state and arithmetic, and proofs of what they
promise. `dafny verify dfyconfig.toml` checks all of it. Methods and classes follow the imperative
code; each is proved against functions on values, and the theorems are about those functions.

| files | what they model |
|---|---|
| `Words`, `Bits`, `BitReader`, `Codes`, `Huffman`, `TableFormat`, `TableReaders`, `Lz`, `Lh5Format`, `Lh5`, `Lh5Theorems` | the LH5 decompressor: 64-bit bit reader, canonical Huffman tables in uint16 arithmetic, serialised code tables, LZ77 copier. The format's writer exists only as a specification; decoding is proved to invert it |
| `Replay`, `Recorder` | the instant-replay recorder: `Replay` is the state machine and the file, `Recorder` the byte ring, the circular frame index and the preamble buffer that refine it |
| `Autoscale`, `AutoscaleSystem`, `AutoscaleRuns`, `AutoscaleCap`, `AutoscaleEnd`, `Headroom`, `Picking`, `ServerState` | the autoscaler: one decision pass; one server over every interleaving of passes, launches, despawns, polls and crashes; when the cap bounds it, when an instance is ended, when headroom is kept; least-loaded picks; the methods on the mutable registry |
| `PortIndex` | resolved ports and the index from port to instances |
| `VirtualIps`, `SessionTx`, `Sessions` | tunnel sessions: address allocation and release, the outbound queue and its drain, as interleaved steps, and the methods that take those steps |
| `StateHub`, `HubServer` | the coalescing change signal of the event stream |
| `Manifests` | per-session asset manifests and the shared hash index |
| `PacketRing` | the drop-oldest packet rings of the client |
| `Common` | options, bytes, ports and lists of distinct ids, shared by the others |

Where the code and its own comments disagree, the model follows the code:

- `client/cl_replay.c:240-243` says the boundary message belongs to the live stream. The code returns
  without recording it (lines 270-274), so it is in neither stream.
- `nexus/internal/orch/registry.go:39` says the streak counts polls. It counts passes over the instance,
  and any poll of any instance of the server, or a periodic sweep, makes a pass.
- `serverMaxInstances` is an int, but it is compared with a saturated uint16 count; `AutoscaleCap.CapExact`
  says for which caps it bounds the instances.

A Go panic on an index out of range is an outcome of its own (`Panic`, `Failed`, `Panicked`). Clocks, start and
stop results, poll replies, write results and the order of map iteration are inputs or nondeterministic choices.

## Model

| member | source | states |
|---|---|---|
| Lh5Theorems.SegmentRoundTrip | nexus/quake106/quake106.go:143-155 | any segment that starts with the bits of non-empty legal blocks whose expansion is long enough decodes to exactly the first `outLen` bytes of the LZ77 expansion over an 8 KiB window of spaces |
| Lh5Theorems.PackedRoundTrip | nexus/quake106/quake106.go:143-155 | the same for the blocks' bits packed into bytes: decoding inverts encoding end to end |
| Lh5Theorems.StoredRoundTrip | nexus/quake106/quake106.go:143-155 | every byte string has an encoding (literals under a complete 8-bit code, in blocks of up to 65535) that decodes back to it, so the round trip is not about an empty set of streams |
| Lh5Theorems.SegmentPanics | nexus/quake106/quake106.go:143-155 | on every input, truncated ones included, the decoder returns exactly `outLen` bytes, refuses the bounds, or panics for one of the reasons a header shows |
| Lh5Theorems.BoundsExactly | nexus/quake106/quake106.go:143-147 | the bounds error comes exactly when the segment does not lie in the resource |
| Lh5Theorems.DecodedLength | nexus/quake106/quake106.go:302-335 | a finished run fills the buffer exactly and never changes the bytes it started from |
| Lh5.FaultCauses | nexus/quake106/quake106.go:302-335 | every panic comes from a header: a code length over 16, a temp tree that is a single value over 18, or a position tree that is a single value over 13; with those excluded no index leaves its array |
| Lh5.CTreeNeverPanics | nexus/quake106/quake106.go:271-300 | with temp symbols up to 18 the literal tree has no length over 16 |
| Lh5.NearOffset | nexus/quake106/quake106.go:319-325 | the first 14 position slots stay inside the 8192-byte window |
| Lh5.HeaderFaults | nexus/quake106/quake106.go:306-311 | which headers can fail and how; a header that succeeds has a position tree of at most 14 symbols or a 4-bit single value |
| Lh5.DecodeLH5 | nexus/quake106/quake106.go:302-335 | the loop over the buffer ends on every input and leaves the buffer that the format reading of the bits gives, or panics exactly when that reading fails |
| Lh5.DecodeLH5Seg | nexus/quake106/quake106.go:143-155 | bounds error, panic and result exactly as the format reading of the segment says, over a window of 8192 spaces |
| Lh5.ReadBlockHeader | nexus/quake106/quake106.go:307-311 | a block header gives the count and two tables that represent the trees read, leaves the cursor after them, and fails exactly on a bad header |
| Lh5.ReadOffset | nexus/quake106/quake106.go:318-325 | slot and extra bits give the offset, with the cursor just past them |
| Lh5.CopyMatch | nexus/quake106/quake106.go:326-333 | the copy loop panics exactly when its source starts before the buffer, and otherwise appends the self-overlapping copy |
| Lh5Format.DecodeBlocks | nexus/quake106/quake106.go:302-335 | reading the bits of legal blocks yields the prefix of their expansion, from any block boundary and any output so far |
| Lh5Format.DecodeTokens | nexus/quake106/quake106.go:312-333 | reading a block's tokens applies them; when the output fills up mid-token the rest is cut off |
| Lh5Format.DecodeBlock | nexus/quake106/quake106.go:306-334 | one whole block: header, tokens, and the reader left just past it |
| Lh5Format.ReadHeader | nexus/quake106/quake106.go:307-311 | reading the three tables inverts writing them, and leaves the reader just past the header |
| Lh5Format.ReadToken | nexus/quake106/quake106.go:313-325 | reading a literal or match inverts writing it |
| Lh5Format.ReadOffset | nexus/quake106/quake106.go:319-325 | slot and extra bits of an offset read back as that offset |
| Lz.CopyIsPeriodic | nexus/quake106/quake106.go:326-333 | a match keeps all earlier bytes and repeats the last off + 1 of them, also when it overlaps itself |
| Lz.CopyPrefix | nexus/quake106/quake106.go:327-333 | cutting a match short at the end of the buffer gives a prefix of the full copy |
| Lz.ApplyAllKeeps | nexus/quake106/quake106.go:312-333 | tokens only append |
| TableFormat.PTreeRoundTrip | nexus/quake106/quake106.go:243-269 | serialising any legal length list (3 bits, unary from 7, zero skip after entry `special`) or a single symbol and reading it rebuilds the tree and stops just past its bits |
| TableFormat.CTreeRoundTrip | nexus/quake106/quake106.go:271-300 | the same for the run-length form with temp symbols 0, 1 and 2, whatever tree codes them |
| TableFormat.ReadLengths | nexus/quake106/quake106.go:252-267 | the same from any index of the list |
| TableFormat.ReadLength | nexus/quake106/quake106.go:253-258 | one code length: three bits, or 7 and up to thirteen ones |
| TableFormat.ReadRun | nexus/quake106/quake106.go:281-297 | one turn of the run loop reads one run, clipped at n |
| TableFormat.ReadRuns | nexus/quake106/quake106.go:280-298 | the run loop rebuilds the expanded lengths |
| TableReaders.PTree | nexus/quake106/quake106.go:243-269 | the reader method: same tree, same cursor, same panic as the format reading |
| TableReaders.CTree | nexus/quake106/quake106.go:271-300 | the same for the run-length reader, with any decoding table it is given |
| TableReaders.ReadLengthsInto | nexus/quake106/quake106.go:252-267 | the array loop writes the lengths read and zeros behind them |
| TableReaders.ReadRunsInto | nexus/quake106/quake106.go:280-298 | the run loop does the same, clipped at the array's end |
| TableReaders.SkipZeros | nexus/quake106/quake106.go:293-297 | a zero run stops at its length or at the end, whichever is first |
| TableReaders.ReadOneLength | nexus/quake106/quake106.go:253-256 | one length and its bits |
| TableReaders.ReadRunSize | nexus/quake106/quake106.go:287-292 | 1, 3 to 18 or 20 and more zeros, with the extra bits consumed |
| Codes.DecodeCodeword | nexus/quake106/quake106.go:198-241 | for lengths up to 16 with Kraft sum at most 1, decoding a stream that starts with a symbol's canonical codeword gives that symbol and consumes exactly its length |
| Codes.ScanHitsCodeword | nexus/quake106/quake106.go:225-241 | conversely a decoded symbol's codeword is what the stream starts with |
| Codes.FallbackUnreachable | nexus/quake106/quake106.go:225-241 | the final `return 0` is unreachable on every stream if and only if the Kraft sum is 1, despite the uint16 wrap of `first[16]` |
| Codes.PrefixFree | nexus/quake106/quake106.go:198-223 | codewords of a legal code are prefix-free |
| Codes.CodewordIsSpaceBefore | nexus/quake106/quake106.go:205-208 | each codeword, as a binary fraction, is the total code space of the symbols before it in the order by length, then symbol: an independent definition of the canonical code |
| Codes.KraftIsEnd | nexus/quake106/quake106.go:205-208 | the first codewords and counts end at the Kraft sum |
| Codes.CodesFit | nexus/quake106/quake106.go:205-208 | the codewords of each length fit in that many bits, with a word left over when the code is incomplete |
| Codes.SymbolAtRank | nexus/quake106/quake106.go:215-221 | symbols and (length, rank) pairs determine each other |
| Codes.ScanFinds | nexus/quake106/quake106.go:225-241 | no shorter length catches a prefix of a codeword |
| Codes.FirstFits16 | nexus/quake106/quake106.go:205-209 | the uint16 entry `first[l]` of a legal code is exact, or has wrapped to 0 and then no codeword has that length |
| Codes.FullCodeHits | nexus/quake106/quake106.go:225-241 | in a complete code every 16-bit word is caught |
| Huffman.MkH | nexus/quake106/quake106.go:198-223 | panics exactly on a length over 16; otherwise its uint16 tables represent the canonical code of the lengths |
| Huffman.CountLengths | nexus/quake106/quake106.go:199-204 | for any list: uint16 counts per length, or the panic, exactly on a length over 16 |
| Huffman.FirstCodes | nexus/quake106/quake106.go:205-209 | first codewords modulo 2^16 and first slots of each length |
| Huffman.PlaceSymbols | nexus/quake106/quake106.go:214-221 | each symbol lands in the slot of its length and rank, and none is overwritten |
| Huffman.PlaceKeeps | nexus/quake106/quake106.go:216-221 | writing one symbol keeps all slots filled before |
| Huffman.Dec | nexus/quake106/quake106.go:225-241 | reading with the tables gives the symbol and cursor of the canonical code, the fallback included |
| Huffman.WrapDouble | nexus/quake106/quake106.go:205-208 | the 16-bit arithmetic tracks the exact first codewords modulo 2^16 |
| BitReaders.BitReader.Bits | nexus/quake106/quake106.go:164-178 | for k up to 16 the next k bits, most significant first, of the source followed by endless zeros; the cursor moves by exactly k |
| BitReaders.BitReader.Trues | nexus/quake106/quake106.go:180-187 | the ones before the first zero, at most max, and the bits consumed |
| BitReaders.BitReader.constructor | nexus/quake106/quake106.go:303-303 | a fresh reader stands at bit 0 |
| BitReaders.BitReader.Refill | nexus/quake106/quake106.go:165-173 | one turn of the refill loop keeps the word equal to the pending bits |
| BitReaders.AppendByte | nexus/quake106/quake106.go:171-172 | or-ing the next byte under the pending bits appends it |
| BitReaders.TopBits | nexus/quake106/quake106.go:174-174 | the top k bits of the word are the next k bits |
| BitReaders.DropBits | nexus/quake106/quake106.go:175-176 | shifting drops them and nothing else |
| Bits.WindowOfByte | nexus/quake106/quake106.go:166-170 | eight bits at a byte boundary are that byte, or zero past the end |
| Bits.PackStartsWith | nexus/quake106/quake106.go:164-178 | packing bits into bytes and reading the stream gives the bits back, then zeros |
| Words.BitOrDisjoint | nexus/quake106/quake106.go:171-171 | bitwise or of words without common bits is their sum |
| Replay.LiveExactly | client/cl_replay.c:183-215 | with non-decreasing times and a fixed window the live frames are exactly those pushed since the last drop that are within the window of the newest and beside which every later one found its bytes and a slot |
| Replay.LiveIsSuffix | client/cl_replay.c:183-215 | after any history of resets and captures the live frames are a suffix of those pushed since the last drop, the newest included |
| Replay.LiveWithinWindow | client/cl_replay.c:210-214 | with non-decreasing times and a fixed window every kept frame is within the window of the newest |
| Replay.LiveFits | client/cl_replay.c:193-196 | the live frames always fit the 4 MiB ring and its 8192 slots |
| Replay.PreambleIsSignon | client/cl_replay.c:219-285 | the preamble is exactly the signon messages since the last serverinfo or reset if and only if they fit its buffer; the boundary message at SIGNONS-1 is in neither stream |
| Replay.PreambleExact | client/cl_replay.c:219-233 | the half that gives the contents |
| Replay.PreambleFits | client/cl_replay.c:223-228 | the buffer never overflows, whatever arrives |
| Replay.ReplayFileParses | client/cl_replay.c:328-400 | in every history, parsing the file by its length headers gives the track line, the signon messages that fit the preamble buffer, the live suffix oldest to newest, and one single-byte disconnect frame |
| Replay.FittingFileParses | client/cl_replay.c:328-400 | when the signon messages fit, all of them are in the file |
| Replay.PreambleIsFitting | client/cl_replay.c:219-233 | overflowed or not, the preamble is what a buffer that drops each message that does not fit keeps of the signon messages |
| Replay.ParseConcat | client/cl_replay.c:147-159 | reading frames back from their headers undoes writing them, for any list of frames |
| Replay.LittleLongInverse | client/cl_replay.c:152-153 | the little-endian length header reads back as the length |
| Replay.PushKeepsSuffix | client/cl_replay.c:183-215 | one push keeps the suffix and the newest frame |
| Replay.EvictsPrefix | client/cl_replay.c:192-195 | making room drops the oldest frames only, until the new one fits |
| Replay.RoomExactly | client/cl_replay.c:192-195 | it keeps exactly the frames that, with all after them, fit beside the new one in bytes and slots |
| Replay.TrimsPrefix | client/cl_replay.c:210-214 | trimming drops the oldest frames only, never the last one, until the first is within the window |
| Replay.TrimExactly | client/cl_replay.c:210-214 | frames in order of time are kept exactly if within the window or last |
| Replay.TrimsOnlyOld | client/cl_replay.c:210-214 | whatever the times, every frame trimmed is older than the window |
| Replay.PushExactly | client/cl_replay.c:183-215 | one push keeps exactly the frames that still belong, and adds the new one |
| Replay.DoneIsComplete | client/cl_replay.c:270-280 | the signon counts as complete exactly when its last stage or a later message was seen since the last drop |
| Replay.PlaybackIgnored | client/cl_replay.c:248-251 | messages during playback and empty ones leave no trace |
| Replay.FrameLayout | client/cl_replay.c:147-159 | four length bytes, lowest first, three angles, the body |
| Recorder.Recorder.Capture | client/cl_replay.c:246-285 | the method on the real buffers takes exactly the step of the state machine: bytes, index, signon flag |
| Recorder.Recorder.PushFrame | client/cl_replay.c:183-215 | ring bytes and frame index refine the pushed list through wrap-around; which frames that leaves is `Replay.LiveExactly` |
| Recorder.Recorder.AddFrame | client/cl_replay.c:197-208 | the two ring writes and the index entry append one frame |
| Recorder.Recorder.RingWrite | client/cl_replay.c:163-174 | the bytes land at the write offset, the part past the end at the front, and nothing else changes |
| Recorder.Recorder.EvictOldest | client/cl_replay.c:176-181 | the oldest frame leaves, the others keep their bytes |
| Recorder.Recorder.AppendSignonFrame | client/cl_replay.c:219-233 | appends the framed message or, when it does not fit, changes nothing |
| Recorder.Recorder.Reset | client/cl_replay.c:116-123 | everything captured is dropped |
| Recorder.Recorder.RingFrame | client/cl_replay.c:306-314 | the one or two stretches written are the frame's bytes |
| Recorder.Recorder.Command | client/cl_replay.c:328-393 | refuses exactly without connection, in playback, without preamble or without frames; otherwise the bytes written are the file of the state machine's state |
| Recorder.WriteAppends | client/cl_replay.c:163-174 | a wrapped write appends to the last bytes as long as old and new fit together |
| Recorder.FrameBytes | client/cl_replay.c:306-314 | a frame is one stretch of the ring, or its end and its beginning |
| Recorder.IndexPush | client/cl_replay.c:201-206 | a new slot keeps all others pointing at their frames |
| Recorder.IndexEvict | client/cl_replay.c:176-181 | so does dropping the first |
| AutoscaleRuns.LaunchExactly | nexus/internal/orch/autoscale.go:259-266 | in any run a pass starts a launch if and only if none is in flight, some capacity is known, fewer slots are free than needed, fewer instances run than the cap, each counted up to 65535, and the last successful launch is thirty seconds back |
| AutoscaleRuns.UpsAreSuccesses | nexus/internal/orch/autoscale.go:337-349 | the recorded times are those at which launches succeeded |
| AutoscaleRuns.CapOverRuns | nexus/internal/orch/autoscale.go:259-268 | over every interleaving of passes, registration, start, despawn, polls and crashes, for any cap: at most one launch is in flight and successful launches lie thirty seconds apart; running instances plus the launch in flight stay within max(1, serverMaxInstances) when that is at most 65535 |
| AutoscaleRuns.RegisterOutcome | nexus/internal/orch/autoscale.go:357-382 | a registered replica is a new last instance, warming and not running |
| AutoscaleRuns.LaunchOutcome | nexus/internal/orch/launcher.go:113-141 | a start that succeeds makes it run unpolled, one that fails leaves it as it was, and no other instance changes |
| AutoscaleRuns.FinishOutcome | nexus/internal/orch/autoscale.go:337-349 | the flag goes down; after success the time is kept, after failure exactly that record is gone |
| AutoscaleRuns.StopCheckOutcome | nexus/internal/orch/autoscale.go:384-401 | warming if it no longer runs, active if it is the last one running, stopped otherwise |
| AutoscaleRuns.StopOutcome | nexus/internal/orch/autoscale.go:410-418 | a stop that succeeds removes exactly that record, one that fails makes it active again |
| AutoscaleRuns.RecordOutcome | nexus/internal/orch/state.go:144-244 | what a port report, a poll reply, a crash and the first start change of one record |
| AutoscaleCap.CapExact | nexus/internal/orch/autoscale.go:259-266 | running instances plus the launch in flight stay within the cap in every run if and only if the cap is at most 65535: for any larger one there is a run that passes it |
| AutoscaleCap.GrowsTo | nexus/internal/orch/registry.go:295-295 | over a larger cap runs reach any number of running instances, because the saturated uint16 count stays below it |
| AutoscaleCap.Grows | nexus/internal/orch/autoscale.go:259-349 | by one replica more each time: a pass, its registration, start and finish |
| Autoscale.CapGuard | nexus/internal/orch/registry.go:295-295 | the saturated count decides the comparison correctly exactly for caps up to 65535 |
| AutoscaleRuns.RunLeavesActive | nexus/internal/orch/autoscale.go:196-257 | after any pass of any run an instance is active, if one was running, polled and not terminating before it |
| AutoscaleRuns.EndedAfterSix | nexus/internal/orch/autoscale.go:251-256 | in any run an instance becomes terminating only in a pass, only after six consecutive passes over it that found it empty and drained it, and another one is active when the pass ends |
| AutoscaleRuns.EndNeedsThree | nexus/internal/orch/autoscale.go:240-256 | the autoscaler ends an instance only while at least three run |
| AutoscaleEnd.IdlePairStays | nexus/internal/orch/autoscale.go:240-250 | two idle replicas of eight slots where four are needed: no number of passes ends one |
| AutoscaleEnd.PassExactly | nexus/internal/orch/autoscale.go:196-257 | what a pass makes of a running instance, as one equation: warming until polled; drained exactly when polled and empty with two active counted at its turn, slots to spare and no launch in flight for a newcomer; ended exactly when, besides, five drained passes lie behind it and no other has been chosen; active otherwise |
| AutoscaleEnd.PassLeaves | nexus/internal/orch/autoscale.go:196-219 | other instances are left as they are |
| AutoscaleEnd.SixPassesEnd | nexus/internal/orch/autoscale.go:221-256 | in any run, if an instance stays polled and empty over six passes and the guard holds at its turn in each, some instance is ended within them |
| AutoscaleEnd.SurplusIsEnded | nexus/internal/orch/autoscale.go:221-256 | so it is for an idle instance beside two busy ones with slots to spare at every pass |
| AutoscaleEnd.TwoBusyDrain | nexus/internal/orch/autoscale.go:228-239 | beside two busy instances the guard is exactly that the slots suffice and no launch is in flight for a newcomer, up to 65535 active ones |
| AutoscaleEnd.SixthPass | nexus/internal/orch/autoscale.go:251-256 | a drained sixth pass ends this instance or one chosen before it |
| Headroom.HeadroomExact | nexus/internal/orch/autoscale.go:228-250 | passes keep the needed slots free beside what they drain, for every needed headroom, launch flag and lifecycles with none being ended, if and only if at most two instances are polled or at most one of them is idle |
| Headroom.HeadroomWhileEnding | nexus/internal/orch/autoscale.go:217-219 | with an instance being ended, whose slots still count as free, they keep it for all lifecycles only if nothing is polled |
| Headroom.HeadroomSpent | nexus/internal/orch/autoscale.go:228-250 | a pass over three empty instances of eight slots with ten needed drains two and leaves eight |
| Headroom.FewKeep | nexus/internal/orch/autoscale.go:228-250 | the half that keeps it |
| Headroom.TwoIdleSpend | nexus/internal/orch/autoscale.go:228-250 | the half that spends it: the headroom that the second smallest idle instance alone would leave |
| Headroom.KeptIsOpen | nexus/internal/orch/autoscale.go:228-239 | headroom kept in the count of the pass is kept in slots open to players |
| AutoscaleRuns.StreakCounts | nexus/internal/orch/registry.go:39-40 | the streak never exceeds the number of latest consecutive passes that found the instance empty |
| AutoscaleRuns.StreakStep | nexus/internal/orch/autoscale.go:228-252 | only a pass raises a streak, by one, and only for an empty polled instance |
| AutoscaleRuns.RunHolds | nexus/internal/orch/autoscale.go:282-419 | the registry, launch, despawn and timing invariants hold over every run for any cap, and the cap for those that fit uint16 |
| AutoscaleSystem.StepKeeps | nexus/internal/orch/autoscale.go:282-419 | every step keeps them |
| AutoscaleSystem.TickKeeps | nexus/internal/orch/autoscale.go:282-309 | a pass keeps them, with what it starts |
| AutoscaleSystem.RegisterKeeps | nexus/internal/orch/autoscale.go:357-382 | so does registering a replica |
| AutoscaleSystem.StartDoneKeeps | nexus/internal/orch/launcher.go:77-149 | so does the end of a start, with its lifecycle reset |
| AutoscaleSystem.FinishKeeps | nexus/internal/orch/autoscale.go:325-349 | so does the end of a launch |
| AutoscaleSystem.StopCheckKeeps | nexus/internal/orch/autoscale.go:384-400 | so does the check before a stop |
| AutoscaleSystem.StopDoneKeeps | nexus/internal/orch/autoscale.go:410-418 | so does the end of a stop |
| AutoscaleSystem.RecordKeeps | nexus/internal/orch/state.go:144-231 | so do a resolved port, a poll reply and a crash |
| AutoscaleSystem.BootKeeps | nexus/internal/orch/launcher.go:63-72 | so does the first start |
| AutoscaleSystem.PassConsistent | nexus/internal/orch/autoscale.go:196-257 | a pass keeps lifecycles and records consistent: only polled instances with a port leave warming |
| Autoscale.PassCounter | nexus/internal/orch/autoscale.go:193-257 | at every point of a pass the counter equals the number of running active instances if and only if at most 65535 were active at its start; beyond that it stays behind by exactly the excess |
| Autoscale.ScanCounter | nexus/internal/orch/autoscale.go:203-215 | through a scan the counter moves exactly as the number of running active instances does |
| Autoscale.RoutableIsActive | nexus/internal/orch/registry.go:278-293 | the snapshot's joinable count is the number of active instances |
| Autoscale.PassLeavesActive | nexus/internal/orch/autoscale.go:196-257 | one pass leaves an active instance if an eligible one was there |
| Autoscale.PassTerminates | nexus/internal/orch/autoscale.go:228-257 | one pass ends at most one instance: running, polled, empty, drained for five passes before, with another one active at the end |
| Autoscale.ChoiceMoment | nexus/internal/orch/autoscale.go:240-256 | when an instance is chosen at least two others are active |
| ServerState.Server.Decide | nexus/internal/orch/autoscale.go:175-269 | the method's loop, counter and flag give exactly the pass and the scale-up decision, and leave ids, records and cursor alone; what these are in plain numbers is `AutoscaleEnd.PassExactly` and `AutoscaleRuns.LaunchExactly` |
| ServerState.Server.Reconcile | nexus/internal/orch/autoscale.go:282-309 | on matching state it takes the system's pass step |
| ServerState.Server.Visit | nexus/internal/orch/autoscale.go:196-257 | one turn of the scan: lifecycle, streak, counter, choice |
| ServerState.Server.RefreshSnapshot | nexus/internal/orch/registry.go:258-295 | the aggregates are the saturated sums over running instances and the number of joinable ones |
| ServerState.Server.Candidates | nexus/internal/orch/autoscale.go:30-65 | the routable instances in order, for autoscaling and fixed servers |
| ServerState.RoutableMembers | nexus/internal/orch/autoscale.go:30-65 | they are exactly the running instances with a valid port and a fitting lifecycle |
| ServerState.Server.RegisterReplica | nexus/internal/orch/autoscale.go:357-382 | takes the system's registration step, or none when the flag is down |
| ServerState.Server.AppendInstance | nexus/internal/orch/registry.go:97-115 | a new record with its lifecycle at the end of the list |
| ServerState.Server.SetInstanceLifecycle | nexus/internal/orch/registry.go:147-156 | only an existing state changes, and its streak is reset |
| ServerState.Server.RemoveServerRecord | nexus/internal/orch/registry.go:297-314 | record, state and list entry go together; an unknown id changes nothing |
| ServerState.Server.DeleteId | nexus/internal/orch/registry.go:310-310 | the list without the id, in order |
| ServerState.Server.FinishLaunch | nexus/internal/orch/autoscale.go:337-349 | takes the system's step: flag down, and the time set or the record removed |
| ServerState.Server.CheckDespawn | nexus/internal/orch/autoscale.go:384-401 | takes the system's step: back to warming, back to active for the last one, or stop |
| ServerState.Server.FinishDespawn | nexus/internal/orch/autoscale.go:410-418 | takes the system's step: removed, or active again |
| ServerState.Server.RunningCount | nexus/internal/orch/autoscale.go:81-92 | the number of running instances |
| ServerState.Server.Pick | nexus/internal/orch/autoscale.go:98-141 | the port of the tie list's member under the cursor, which moves on advancing picks only; none exactly without candidates; who is on the list is `ServerState.PickRule` |
| ServerState.PickRule | nexus/internal/orch/autoscale.go:98-141 | in plain numbers of the records: the instances among which the cursor chooses are exactly the choosable ones with the smallest players / max(maxPlayers, 1), by cross-multiplication, then the fewest players; there is one exactly when some instance serves |
| ServerState.InForceExactly | nexus/internal/orch/autoscale.go:98-114 | choosable are the active ones with room while there are any, else the draining ones with room, else all that serve |
| Picking.TiesAreLeastLoaded | nexus/internal/orch/autoscale.go:120-135 | in plain numbers: the tie list is exactly the candidates with the smallest players / max(maxPlayers, 1), by cross-multiplication, then the fewest players |
| Picking.TiesAreMinimal | nexus/internal/orch/autoscale.go:120-135 | the tie list is exactly the candidates no candidate beats under that order, and is never empty |
| Picking.Transitive | nexus/internal/orch/autoscale.go:123-130 | the cross-multiplied comparison is a total preorder |
| Picking.TiesExtend | nexus/internal/orch/autoscale.go:121-135 | one turn of the tie loop, by comparison with any member of the list |
| Picking.CursorCycle | nexus/internal/orch/autoscale.go:136-140 | as many consecutive advancing picks as there are ties take every member of the tie list exactly once, wherever the cursor starts |
| Picking.PicksAreStretch | nexus/internal/orch/autoscale.go:136-140 | until the cursor passes the end they take consecutive members |
| Picking.Choose | nexus/internal/orch/autoscale.go:116-140 | the loop computes the tie list and takes the member under the cursor |
| PortIndex.IndexIsListenPort | nexus/internal/orch/state.go:144-180 | in every run a registered instance is listed, once, under exactly the port it listens on: the first positive one its process has reported since it was started |
| PortIndex.RecordIsHistory | nexus/internal/orch/state.go:133-205 | in every run a record's port, path and spec are what has been reported since its start |
| PortIndex.PollReaches | nexus/internal/orch/state.go:207-244 | a poll reply reaches exactly the registered instances listening on its port, each once, and changes no other record |
| PortIndex.LateCallbackBreaks | nexus/internal/orch/state.go:144-168 | the index goes on listing only registered instances if and only if no port callback comes for a removed record that never had a port |
| PortIndex.StaleEntry | nexus/internal/orch/state.go:183-191 | a run in which one comes, and an id that is not registered is listed |
| PortIndex.RunHolds | nexus/internal/orch/state.go:133-205 | over every run records keep their spec equal to their port, and lists have no duplicates and are never empty |
| PortIndex.UpdateKeeps | nexus/internal/orch/state.go:144-168 | only the first positive port is taken, and adds just that entry |
| PortIndex.ClearKeeps | nexus/internal/orch/registry.go:297-305 | clearing or removing a record takes it out of the index and keeps everything else |
| PortIndex.Ports.AssignPort | nexus/internal/orch/state.go:144-168 | the record and the index after a reported port |
| PortIndex.Ports.RemoveFromPort | nexus/internal/orch/state.go:170-180 | one id leaves one list; an emptied list leaves the index |
| PortIndex.Ports.UpdatePort | nexus/internal/orch/state.go:183-191 | port and spec together |
| PortIndex.Ports.UpdateSearchPath | nexus/internal/orch/state.go:195-205 | path and spec together |
| PortIndex.Ports.ClearForStart | nexus/internal/orch/launcher.go:92-105 | a start forgets the ports of the run before |
| PortIndex.Ports.RemoveRecord | nexus/internal/orch/registry.go:297-313 | removal leaves no entry of the record |
| PortIndex.Ports.UpdateGameState | nexus/internal/orch/state.go:207-244 | the registered ids on the port, in order, and their new poll state |
| VirtualIps.RunHolds | nexus/trunk/session.go:86-157 | over every interleaving of creation, listen failure and repeated or concurrent End calls: `used` is exactly the addresses held, which are pairwise distinct, loopback and never the server's; the registry is exactly the registered sessions |
| VirtualIps.ReleaseFreesOwn | nexus/trunk/vip.go:73-80 | a release frees its own address and never one another session owns |
| VirtualIps.ReleasedOnce | nexus/trunk/session.go:127-148 | once a session has given its address back, no continuation of the run lets it hold or release one again |
| VirtualIps.LookupUnique | nexus/trunk/trunk.go:193-205 | lookup by VirtualIP matches at most one registered session, which holds the address |
| VirtualIps.ReleaseKeeps | nexus/trunk/session.go:95-98 | what a release in listen failure or End changes, and that it keeps the invariant |
| VirtualIps.AllocKeeps | nexus/trunk/vip.go:43-71 | so does an allocation |
| VirtualIps.RegistryKeeps | nexus/trunk/trunk.go:162-172 | so do adding to and removing from the registry |
| VirtualIps.KeyInjective | nexus/trunk/vip.go:61-61 | the 32-bit key identifies the address |
| VirtualIps.AllocExactly | nexus/trunk/vip.go:43-71 | in any run an allocation is refused exactly when none of the 4096 probes of its key is free, and otherwise takes the first free one; an empty key is "unknown" |
| VirtualIps.FirstFreeProbe | nexus/trunk/vip.go:53-70 | the probe walk stops at the first probe that is neither the server's nor used |
| VirtualIps.CandidateBytes | nexus/trunk/vip.go:55-57 | a candidate is 127 and the three highest bytes of the 64-bit sum |
| VirtualIps.Allocator.Alloc | nexus/trunk/vip.go:43-71 | the first of 4096 probes that is neither the server's nor used, recorded as used; refused exactly when there is none |
| VirtualIps.Allocator.Release | nexus/trunk/vip.go:73-80 | just that address is freed, non-loopback ones ignored |
| VirtualIps.SessionByVirtualIP | nexus/trunk/trunk.go:193-205 | finds a registered session with the address whenever there is one |
| SessionTx.WrittenIsPrefix | nexus/trunk/relay.go:56-111 | in every interleaving the frames handed to the transport, the one of a failing write included, are a prefix, in order, of the non-empty frames accepted |
| SessionTx.DrainedBeforeClose | nexus/trunk/session.go:127-143 | read off the events alone: if Run had come before End looked, and no write or ping failed and no deadline passed, every frame accepted before any point without cancellation is written when the teardown closes the transport |
| SessionTx.DrainedEnding | nexus/trunk/relay.go:96-111 | there are such endings: a cancelled session with a queued frame drains it and closes |
| SessionTx.RunRemembers | nexus/trunk/relay.go:56-135 | the flags and marks of the state are exactly the history of the events |
| SessionTx.TeardownOnce | nexus/trunk/session.go:127-157 | the teardown runs at most once, whoever calls End and how often |
| SessionTx.RunHolds | nexus/trunk/relay.go:56-135 | accepted frames are written, lost at a failure, in hand or queued, in order, over every run |
| SessionTx.FrameRoundTrip | nexus/trunk/relay.go:18-36 | frames and (port, payload) pairs determine each other, both ways, the port in two bytes with the high one first |
| Sessions.DrainFlushes | nexus/trunk/relay.go:96-111 | an undisturbed drain with working writes flushes the whole queue in order |
| Sessions.Session.SendFrame | nexus/trunk/relay.go:115-135 | refused, queued, dropped and counted, or blocked, each exactly when |
| Sessions.Session.TrySendControl | nexus/trunk/session.go:193-203 | queues a frame that decodes to port 0 and the payload exactly when not cancelled and not full |
| Sessions.Session.WriteNext | nexus/trunk/relay.go:76-90 | the receiving case takes the protocol's steps; a failure cancels, closes and ends the loop |
| Sessions.Session.DrainTx | nexus/trunk/relay.go:96-111 | the drain loop is the protocol's undisturbed drain, whatever fails |
| Sessions.Session.Receive | nexus/trunk/relay.go:76-76 | a receive takes the oldest queued frame |
| Sessions.Session.BeginEnd | nexus/trunk/session.go:127-131 | only the first End begins the teardown |
| Sessions.Session.DecideWait | nexus/trunk/session.go:132-137 | End waits for the write loop exactly when Run had started |
| Sessions.Session.Close | nexus/trunk/session.go:142-146 | the end of the teardown |
| StateHub.NoLostWakeup | nexus/sse.go:37-93 | in every run a waiting subscriber has a signal pending, or has written the hub's current snapshot, or the hub has none yet |
| StateHub.CatchesUp | nexus/sse.go:126-143 | once the source is recorded and stops changing, a subscriber that takes the steps it has left, whatever happens between them, is asleep with the latest snapshot written |
| StateHub.Approaches | nexus/sse.go:126-143 | over any quiet continuation its steps bring it that much nearer to sleep |
| StateHub.Converges | nexus/sse.go:126-143 | one step: the subscriber's own brings it nearer to sleep, no other takes it further away, and asleep it has written the latest snapshot |
| StateHub.StepKeeps | nexus/sse.go:37-143 | every step keeps every subscriber up to date or signalled |
| StateHub.SignalsAreHistory | nexus/sse.go:37-93 | in every run the channels are those of the current subscribers, and one holds a signal exactly when a changed snapshot was recorded since its subscriber came or last took one: any number of changes make one signal |
| StateHub.OnlyValues | nexus/sse.go:51-93 | what is recorded, held or written is never anything but a value the source has had |
| StateHub.BuildsCurrent | nexus/sse.go:55-57 | before the first recording a subscriber gets what the source holds when it builds |
| StateHub.TickSettles | nexus/sse.go:71-90 | a tick with a subscriber around records the source's value |
| StateHub.RecordSignals | nexus/sse.go:80-90 | in any run a recording signals every subscriber exactly when the snapshot differs from the one before, the first after none included |
| HubServer.Server.RecordSnapshot | nexus/sse.go:79-90 | compare, store and signal every channel that is not full: the protocol's step |
| HubServer.Server.ReadSnapshot | nexus/sse.go:51-59 | the recorded snapshot, or a build when there is none |
| HubServer.Server.Subscribe | nexus/sse.go:37-41 | a new channel without a signal |
| HubServer.Server.Unsubscribe | nexus/sse.go:42-46 | the channel is gone |
| HubServer.Server.HasSubscribers | nexus/sse.go:72-77 | a tick builds exactly when somebody listens |
| HubServer.Server.TakeSignal | nexus/sse.go:137-137 | receiving empties the channel |
| Manifests.RunHolds | nexus/internal/assets/manifest.go:81-109 | over every run with fresh refs, distinct hashes and increasing issue times the live manifests are the last of the issue log, at most 256, the hash index is exactly their assets, and after an issue or a prune none has expired |
| Manifests.IssueKeeps | nexus/internal/assets/manifest.go:89-107 | one issue: prune, evict at the cap, add |
| Manifests.MissKeeps | nexus/internal/assets/manifest.go:180-184 | one missed lookup: prune |
| Manifests.PruneDrops | nexus/internal/assets/manifest.go:187-193 | pruning removes exactly the expired prefix |
| Manifests.DropFirst | nexus/internal/assets/manifest.go:211-220 | removing the oldest manifest leaves exactly the index of the others |
| Manifests.OldestIsFirst | nexus/internal/assets/manifest.go:197-207 | whatever the map's order, the eviction hits the first of the live manifests |
| Manifests.AssetsAreUnion | nexus/internal/assets/manifest.go:103-105 | a hash is in the index if and only if a live manifest has it, with that manifest's asset |
| Manifests.AssetServer.Issue | nexus/internal/assets/manifest.go:89-107 | the index after an issue, for every order of the map's iteration |
| Manifests.AssetServer.PruneExpired | nexus/internal/assets/manifest.go:187-193 | the manifests older than the TTL go with their hashes, in any order |
| Manifests.AssetServer.EvictOldest | nexus/internal/assets/manifest.go:197-207 | some oldest manifest goes with its hashes; an empty index stays as it is |
| Manifests.MakeRoom | nexus/internal/assets/manifest.go:95-105 | inserting drops none of the live manifests, or the first when the index is full |
| Manifests.StaysLive | nexus/internal/assets/manifest.go:81-109 | nothing is dropped without need: one of the last 256 issues that was never older than the TTL at an event is still live |
| Manifests.IssueParts | nexus/internal/assets/manifest.go:89-107 | an issue drops exactly the expired manifests, and one more only if 256 are left |
| Manifests.AssetServer.RemoveManifest | nexus/internal/assets/manifest.go:211-220 | a session and its hashes go together; an unknown ref changes nothing |
| Manifests.AssetServer.Find | nexus/internal/assets/manifest.go:172-178 | a hit answers from the index as it is |
| Manifests.AssetServer.PruneAndFind | nexus/internal/assets/manifest.go:180-184 | a miss prunes and looks again |
| PacketRing.RunConserves | client/net_nqchan.c:62-107 | over every run the arrivals since the reset are, in order, those that left and those buffered; at most cap - 1 are buffered; `overflow` is min(65535, drops) |
| PacketRing.RunAddsUp | client/net_nqchan.c:62-107 | arrivals equal delivered plus skipped plus dropped plus buffered |
| PacketRing.RunDeliversInOrder | client/net_nqchan.c:87-107 | what is delivered is an in-order subsequence of the arrivals |
| PacketRing.DequeueExactly | client/net_nqchan.c:87-107 | in plain numbers: packets without a two-byte header or with too long a payload are skipped, the first other one is delivered with its port, high byte first |
| PacketRing.EnqueueExactly | client/net_nqchan.c:62-85 | in plain numbers: an oversized packet is ignored, with cap - 1 buffered the oldest is dropped and counted up to 65535, the packet goes to the end |
| PacketRing.AnswerIsDelivered | client/net_nqchan.c:87-107 | a dequeue answers the one packet it adds to the delivered ones, opened, or nothing after emptying the ring |
| PacketRing.GetKeeps | client/net_nqchan.c:87-107 | a dequeue keeps the accounting |
| PacketRing.PutKeeps | client/net_nqchan.c:62-85 | so does an enqueue that drops the oldest |
| PacketRing.Ring.Enqueue | client/net_nqchan.c:62-85 | the slots and indices refine the bounded queue that drops its oldest entry |
| PacketRing.Ring.Dequeue | client/net_nqchan.c:87-107 | skips what is too short or too long, delivers the first that is not, and refines the queue |
| PacketRing.Ring.Reset | client/net_nqchan.c:123-126 | the buffered packets and the drop count are forgotten |
| PacketRing.LaidPut | client/net_nqchan.c:81-84 | writing at `w` appends to the queue laid around the end |
| PacketRing.LaidTake | client/net_nqchan.c:95-96 | clearing slot `r` and advancing takes its first entry |

## Left out

- SHA-256 checks, reading the zip and writing the files around the decoder; the compressed bytes are an argument.
- Huffman.MkH: does not model lists of 65536 or more code lengths, whose uint16 counters wrap; the decoder builds tables of 14, 19 and 510 lengths only.
- A negative `outLen`, and integer overflow of `off + clen`, in `decodeLH5Seg`.
- What ill-formed LH5 streams decode to: a declared block size of 0 is followed exactly (the count goes negative), but no theorem gives it a meaning.
- Allocation of the replay buffers and its failure; they are there from the start. File names, `fopen` and console messages of `replay`.
- Float rounding of times in `client/cl_replay.c`: times and windows are reals, view angles are twelve opaque bytes.
- Message bodies of 2^30 bytes and more, where C's `int` arithmetic would overflow.
- `SIGNONS`, `svc_disconnect` and `svc_serverinfo` come from NetQuake headers that are not part of the repository; their values are those of the NetQuake protocol.
- Floating-point headroom and join demand (`nexus/internal/orch/autoscale.go:143-173`): the needed headroom is an arbitrary natural number.
- Headroom: real slots and the pass's own count differ for an instance with no free slot, which the pass counts as one; the exact condition is about that count, and `Headroom.KeptIsOpen` carries it over to open slots.
- A process that dies between the snapshot and the loop of one pass: liveness is constant within a pass.
- Administrator commands racing the autoscaler, and a server whose `Autoscales` flag is turned off while a launch is in flight.
- The in-memory part of `startRecord` and its lifecycle reset are one step.
- Display strings, the advertised joinable user sums, the `online` console marker and the snapshots built for display.
- The round-robin cursor as a machine integer: it is unbounded.
- Processes, terminals, signals, sockets, timers and logging: they are events.
- FNV-1a and the trimming of source keys: the hash is any function of key and probe, the key comes trimmed.
- ServerState.Server.AppendInstance: the id counter and the maps across servers are outside the state of one server; the new id is an argument.
- ServerState.Server.RemoveServerRecord: does not touch the port index, which is modelled by itself in `PortIndex`.
- Sessions.Session.SendFrame: sequential, one call at a time; a sender that passed its check before the cancellation and sends after it is in `SessionTx`, whose runs allow it.
- Sessions.Session.TrySendControl: sequential in the same way.
- Sessions.Session.BeginEnd: the removal from the registry of sessions is in `VirtualIps`.
- Sessions.Session.DecideWait: the wait and its timeout are steps of `SessionTx`.
- Sessions.Session.Close: closing the UDP socket is left out, and releasing the address is in `VirtualIps`.
- `readLoop`, `udpReadLoop`, ping timing and the UDP side of a session, and client identities that outlive an address.
- `SessionTx.DrainedBeforeClose` does not cover an End that finds Run not started: the code skips the drain then.
- Fairness in the event stream: `StateHub.CatchesUp` says what a subscriber's steps achieve, not that the scheduler lets it take them.
- Scanning the asset tree, and an issue that fails or finds no game: it leaves the index alone.
- Strict expiry of asset hashes: a hit is answered without pruning, so an expired hash that nobody pruned is served.
- PacketRing.Ring.Dequeue: the C function returns 0 both for an empty ring and for an empty payload; the model tells them apart. A negative buffer length is not modelled.
- HTTP handlers, TLS, OIDC, the user interface shell, rendering, audio, input, rcon text and site generators.
