# Irida: verified models

Irida is a reverse-engineering debugger. This project models five of its parts and proves what
they promise, for all inputs and all runs.

1. **Control-flow analyzer** (`CodeImage`, `BasicBlocks`, `FunctionBuilding`, `FunctionProperties`,
   `FlowGraphs`, `Extents`, `FunctionBuilder`, `Analyzer`). Recursive descent traces straight-line
   runs under a set of leaders that grows as it goes, then cuts blocks in place. The result is
   related to the program alone: reachable instructions, block starts, references, sizes, paths.
   The reader and the decoder together are one finite partial map from addresses to decoded
   instructions (length 1 to 15, flow, target) that stays below 2^64.
2. **Native breakpoint engine** (`RegisterBlock`, `HostCalls`, `Debuggee`, `SoftwareBreakpoints`,
   `DebugSession`, `NativeBackend`, `Words`, `HardwareBreakpoints`). Planted 0xCC bytes, the rewind
   through the register block, the step over the original instruction, re-arming, and DR0-DR3/DR7
   slots. The debuggee is an abstract single-threaded machine with at most one exception on its way
   to the program; continuing from an exception as handled takes it away, as not handled leaves it.
   The main result is that debugging does not change what the program computes, with the exact
   conditions under which `cont` and `step` keep to that. DR7 is a 64-bit word under shifts, or and
   and-not.
3. **gdb-remote wire layer** (`Hex`, `Text`, `Frame`, `Packets`, `GdbClient`), after the GDB manual,
   Appendix E "GDB Remote Serial Protocol", sections "Overview", "Packets" and "Stop Reply Packets".
   Deframing of arbitrary byte streams in arbitrary chunks, request encoders with an independent
   reader, stop replies, and request/reply pairing over a channel that delivers in any chunk sizes.
4. **String scanner** (`StringScan`) and
5. **graph layout** (`GraphLayout`, over real coordinates).

`Octets`, `Outcomes`, `OrderedSets` and `Sequences` hold number types, results, ordered traversal and
sequence facts.

Code that updates objects or loops is written as classes and methods with loops; each such method is
proved equal to a specification function or against a declarative contract, and the theorems are
lemmas about those functions.

## What is assumed of the environment

- Breakpoint transparency (`ContinueIsTransparentIffNoTrap`, `StepIsTransparentIffUnplanted`,
  `SessionIsTransparent`) assumes of the program's own run that no step reads or writes a planted
  byte, other than an instruction fetching its own first byte (`LeavesAlone`); breakpoints therefore
  sit on instruction starts. Whole sessions also assume that the program raises no breakpoint or
  single-step exception itself (`RaisesNoTraps`); what one `cont` or `step` does at such an exception
  is stated. `ContinueSucceedsIffStops` assumes that no breakpoint exception of the program's own
  names a planted address (`LooksLikeHit`).
- The processor, together with the program's operating system, is an arbitrary function from a state
  to a state and an optional event; it also says how an exception is delivered. A wait takes the
  number of steps the target may run before the wait fails.
- What the operating system answers to each call on the debuggee is an arbitrary script: granted,
  refused, or failed half-way. Theorems about successful operations hold for every script.
- The peer of the gdb client answers one request at a time; how many bytes each receive finds ready
  is an arbitrary list of numbers.

## Where the code does something its description does not say

- Planting at an address that is already planted saves 0xCC as the program's byte
  (`PlantingIsSoundIffNew`), and a plant that fails after reading the byte leaves its record behind
  (`FailedPlantLeavesRecord`).
- `cont` never delivers a breakpoint or single-step exception that the program raises itself
  (`ContinueIsTransparentIffNoTrap`).
- `step` on a planted instruction does not execute it, and `step` with an exception pending takes the
  exception away from the program (`StepIsTransparentIffUnplanted`, `StepTakesExceptionAway`,
  `StepIsSafeIff`).
- An event raised by an instruction stepped over under a breakpoint, a process exit included, is told
  by no reply, and `step` answers every event as a single step (`LogHoldsEveryEvent`).
- Hardware slots are never reused, so four sets exhaust them whatever is removed
  (`RunsStayConsistent`); setting a tracked address again leaves its first slot enabled
  (`SettingIsSoundIffUntracked`).
- `transact` never looks at what its last receive brings (`AwaitTakesNextReply`), and from then on
  every reply comes as many exchanges late as have failed before (`FailuresShiftReplies`).
- A memory read whose hex data is longer than a byte and starts with an upper-case `E` is reported as
  an error (`MemoryIsReadIff`).
- A fall-through into bytes that do not decode is recorded exactly if that address led a block when
  the run was traced, even if it leads one in the end (`OnePassIffFallWasKnown`, `DeadFallIsLost`).

## Model

| member | source | states |
|---|---|---|
| CodeImage.ReachableIsLeast | irida-core/core/analysis/include/irida/analysis/analysis.hpp:60-62 | the decodable addresses on walks from the entry are the least set closed under intraprocedural flow |
| BasicBlocks.RunIsChain | irida-core/core/analysis/src/analysis.cpp:70-131 | a traced run lists consecutive instructions, none but the last a transfer, has no leader inside and stops for a stated reason |
| BasicBlocks.ChainIsRun | irida-core/core/analysis/include/irida/analysis/analysis.hpp:15-21 | those properties determine the run: a basic block is a maximal straight-line run |
| BasicBlocks.TruncatedIsFinal | irida-core/core/analysis/src/analysis.cpp:174-203 | cutting a traced block at its first inner leader leaves a correctly ended block with no leader inside |
| BasicBlocks.FinalBlockIsOnePass | irida-core/core/analysis/src/analysis.cpp:137-167 | a fully split block equals the block one trace under the final leaders yields, but for a dead fall-through |
| FunctionBuilding.StepShrinks | irida-core/core/analysis/src/analysis.cpp:43-60 | each round of the build worklist queues a new mentioned address or shortens the queue, so the loop ends |
| FunctionBuilding.BlockIsTraceOfItsTime | irida-core/core/analysis/src/analysis.cpp:43-60 | every block is one trace under the leaders known when its turn came, and is not traced again |
| FunctionProperties.StepInv | irida-core/core/analysis/src/analysis.cpp:43-60 | a worklist round keeps leaders, queued and traced addresses in step and references collected |
| FunctionProperties.BuiltInv | irida-core/core/analysis/src/analysis.cpp:37-63 | when the worklist is empty the block starts are exactly the leaders |
| FlowGraphs.FinalBlocksFormFlowGraph | irida-core/core/analysis/src/analysis.cpp:137-167 | after splitting there is one block per leader, none with a leader inside, and all edges name leaders |
| FlowGraphs.FlowInsideBlock | irida-core/core/analysis/include/irida/analysis/analysis.hpp:15-21 | inside a block the only decodable successor is the next instruction listed |
| FlowGraphs.FlowOutOfBlock | irida-core/core/analysis/include/irida/analysis/analysis.hpp:15-28 | the decodable successors of a block's last instruction are exactly the non-empty blocks jump and fail name |
| FlowGraphs.SplittingKeepsCode | irida-core/core/analysis/src/analysis.cpp:174-203 | splitting changes no block coverage: the listed instructions before and after are exactly the reachable ones |
| FlowGraphs.CodeIsLeastClosed | irida-core/core/analysis/src/analysis.cpp:29-63 | the final blocks list the least set with the entry and closed under decodable successors |
| FlowGraphs.LeadersAreExact | irida-core/core/analysis/src/analysis.cpp:65-135 | block starts are exactly the entry and the targets and successors of reachable branches, whatever the order of discovery |
| FlowGraphs.TwoPhaseRefinesOnePass | irida-core/core/analysis/src/analysis.cpp:37-167 | tracing under a growing leader set and splitting afterwards refines one trace under the final set |
| FlowGraphs.OnePassIffFallWasKnown | irida-core/core/analysis/src/analysis.cpp:80-91 | the final block and the one-pass block agree in every field exactly if a fall-through into undecodable bytes that lead a block in the end led one already when the run was traced |
| FlowGraphs.TwoPhasesAreOnePass | irida-core/core/analysis/src/analysis.cpp:37-167 | they agree in every field if no reachable instruction falls through into undecodable bytes that lead a block |
| FlowGraphs.DeadFallIsLost | irida-core/core/analysis/src/analysis.cpp:80-91 | an image for which a fall-through edge of the one-pass block is missing |
| FlowGraphs.ReportedBlocks | irida-core/core/analysis/src/analysis.cpp:159-167 | the reported blocks are sorted by address, one per block start, each the one-pass block up to a dead fall-through |
| FlowGraphs.ReportedBlockIsAsDecoded | irida-core/core/analysis/src/analysis.cpp:65-131 | every reported block spelled out on its decoded instructions: consecutive, none but the last a transfer, with the size, jump and fall-through they give it |
| FlowGraphs.ReferencesAreExact | irida-core/core/analysis/src/analysis.cpp:98-126 | callees and references are exactly the direct calls, and the direct calls and jumps each under its kind, of the finally listed instructions; callees sorted without repeats |
| FlowGraphs.BlockPathRuns | irida-core/core/analysis/include/irida/analysis/analysis.hpp:15-28 | every path of blocks spells out a path of instructions |
| FlowGraphs.CodePathFollowsBlocks | irida-core/core/analysis/include/irida/analysis/analysis.hpp:15-28 | every path of instructions from a block start is the listing of a path of blocks, cut in its last block |
| Extents.DisjointIffNoOverlap | irida-core/core/analysis/src/analysis.cpp:140-203 | block byte ranges are pairwise disjoint if and only if no two reachable instructions overlap |
| Extents.OneBlockPerInstruction | irida-core/core/analysis/src/analysis.cpp:140-203 | without overlap each instruction is listed in exactly one block |
| Extents.ListedBytesAreCodeBytes | irida-core/core/analysis/src/analysis.cpp:94-96 | block ranges cover exactly the bytes of the reachable instructions |
| Extents.FunctionSizeCountsCode | irida-core/core/analysis/include/irida/analysis/analysis.hpp:30-38 | a function's size is at least its number of distinct code bytes, and equal exactly when nothing overlaps |
| FunctionDiscovery.FunctionBuilder.Transfer | irida-core/core/analysis/src/analysis.cpp:98-126 | what one decoded instruction adds to leaders, references and the block's edges |
| FunctionDiscovery.FunctionBuilder.TraceBlock | irida-core/core/analysis/src/analysis.cpp:65-131 | the loop builds the maximal run under the leaders known at its start and registers exactly its edges |
| FunctionDiscovery.FunctionBuilder.SplitBlock | irida-core/core/analysis/src/analysis.cpp:174-203 | head and tail of the cut; the tail is stored only where no block is |
| FunctionDiscovery.CutDividesBlock | irida-core/core/analysis/src/analysis.cpp:174-203 | a cut divides instructions and bytes between head and tail; the head falls through, the tail keeps the edges |
| FunctionDiscovery.SplitOnlyTruncates | irida-core/core/analysis/src/analysis.cpp:196-202 | once every leader has a block, a split never inserts one |
| FunctionDiscovery.SplitMakesProgress | irida-core/core/analysis/src/analysis.cpp:140-157 | each split settles one block for good, so the restart loop ends |
| FunctionDiscovery.FunctionBuilder.FindInnerLeader | irida-core/core/analysis/src/analysis.cpp:145-153 | the first leader in order that starts an instruction inside a block is the one at its cut point |
| FunctionDiscovery.FunctionBuilder.Finalize | irida-core/core/analysis/src/analysis.cpp:137-167 | the fixpoint loop leaves every traced block cut at its first inner leader; size is the sum of block sizes |
| FunctionDiscovery.FunctionBuilder.Build | irida-core/core/analysis/src/analysis.cpp:37-63 | building in place computes the specified function, callees and references |
| ProgramAnalysis.CalleesAreCalls | irida-core/core/analysis/src/analysis.cpp:241-243 | a function's callees are exactly the nonzero targets of call instructions reachable from it |
| ProgramAnalysis.XrefsAreReferences | irida-core/core/analysis/include/irida/analysis/analysis.hpp:42-47 | a function's references are exactly the nonzero targets of its reachable instructions, as call references for calls and as jump references for jumps and conditional jumps |
| ProgramAnalysis.EveryFunctionHasBlocks | irida-core/core/analysis/src/analysis.cpp:238-239 | the test for a function without blocks never fires |
| ProgramAnalysis.OrderOfEntriesIsIrrelevant | irida-api/src/capi_static.cpp:168-181 | the function list depends only on the set of nonzero entry points |
| ProgramAnalysis.Analyzer.Analyze | irida-core/core/analysis/src/analysis.cpp:220-262 | terminates with one function per address in increasing order, exactly the least set closed under direct calls, and exactly their references |
| RegisterBlock.ContextToBlock | irida-core/libs/host/src/native_debuggee.cpp:43-80 | every slot of the block holds its register |
| RegisterBlock.SlotsInOrder | irida-core/libs/host/src/native_debuggee.cpp:24-30 | the slots of a serialized context in the documented order |
| RegisterBlock.LowestByteFirst | irida-core/libs/host/src/native_debuggee.cpp:33-41 | a slot is eight bytes, lowest first |
| RegisterBlock.EverySlotIsWritten | irida-core/libs/host/src/native_debuggee.cpp:82-117 | reading a block overwrites every register with its slot, narrow ones cut to their width, and keeps the rest of the context |
| RegisterBlock.BlockRoundTrip | irida-core/libs/host/src/native_debuggee.cpp:82-117 | writing back a serialized context restores its registers, whatever they are by then |
| RegisterBlock.RewindChangesOnlyRip | irida-core/core/backend/src/native_backend.cpp:52-56 | patching rip in the block changes rip in the context and nothing else |
| RegisterBlock.RipIsPatchedInPlace | irida-core/core/backend/src/native_backend.cpp:52-56 | exactly eight bytes of the block change; a block too short is left alone |
| Debuggees.Debuggee.Resume | irida-core/libs/host/src/native_debuggee.cpp:248-266 | needs a pending event and a granted call; consumes the event, taking a breakpoint or single-step exception away and leaving any other to the program; a refused call keeps it pending |
| Debuggees.Debuggee.ResumeSingleStep | irida-core/libs/host/src/native_debuggee.cpp:268-300 | the same with the trap flag set and every exception taken away; if only continuing fails, the flag stays set and the event pending |
| Debuggees.Debuggee.WaitEvent | irida-core/libs/host/src/native_debuggee.cpp:202-246 | runs to the next event, keeps it pending as it is and describes it; fails when not attached, refused or out of time |
| Debuggees.WaitingFailsIf | irida-core/libs/host/src/native_debuggee.cpp:202-209 | not attached, refused or already stopped gives no event and changes nothing |
| Debuggees.Debuggee.WriteMemory | irida-core/libs/host/src/native_debuggee.cpp:375-392 | writes all bytes, or fails with none, some or all of them written |
| Debuggees.WritingSucceedsIff | irida-core/libs/host/src/native_debuggee.cpp:375-392 | succeeds exactly when attached, mapped and granted; then all bytes are in place, else a front part; nothing else changes |
| Debuggees.WrittenIsReadBack | irida-core/libs/host/src/native_debuggee.cpp:358-392 | bytes of any length are read back as written |
| SoftwareBreakpoints.StepCommutes | irida-core/core/backend/src/native_backend.cpp:130-160 | one step of the program, delivery of an exception included, commutes with planting everywhere but under it |
| SoftwareBreakpoints.HitIsHandled | irida-core/core/backend/src/native_backend.cpp:124-167 | rewind, restore, step and re-arm amount to the program's own instruction behind the planted bytes, with the event it raised pending; they succeed if every host call is granted |
| SoftwareBreakpoints.StepOverSucceedsIff | irida-core/core/backend/src/native_backend.cpp:124-160 | a hit is handled exactly if six host calls are granted and its address stays mapped; what each failure leaves undone |
| SoftwareBreakpoints.ContinueIsTransparentIffNoTrap | irida-core/core/backend/src/native_backend.cpp:169-183 | a successful cont goes past the first breakpoint or event of the program's own run and reports that; it keeps to that run exactly if the program raises no breakpoint or single-step exception of its own there |
| SoftwareBreakpoints.ContinueTellsOfStop | irida-core/core/backend/src/native_backend.cpp:58-73 | the reply of a successful cont for every event the host can raise: kind, signal as a 32-bit number, and address |
| SoftwareBreakpoints.SightsAreTold | irida-core/core/backend/src/native_backend.cpp:162-201 | the replies for hits, noticed events and steps spelled out |
| SoftwareBreakpoints.ContinueFailsWithout | irida-core/core/backend/src/native_backend.cpp:169-181 | without a pending event, a willing host or an attached target cont fails, and what it leaves |
| SoftwareBreakpoints.ContinueSucceedsIffStops | irida-core/core/backend/src/native_backend.cpp:169-183 | with every host call granted, cont succeeds exactly when the program meets a breakpoint or event in time |
| SoftwareBreakpoints.StepIsTransparentIffUnplanted | irida-core/core/backend/src/native_backend.cpp:185-202 | with no exception waiting for the program, step keeps to its run exactly if it raises no trap of its own and stands off planted instructions or on a one-byte no-operation |
| SoftwareBreakpoints.StepTakesExceptionAway | irida-core/libs/host/src/native_debuggee.cpp:294-295 | whatever the program, with an exception pending there is a processor on which step leaves the run |
| SoftwareBreakpoints.StepIsSafeIff | irida-core/core/backend/src/native_backend.cpp:185-202 | step keeps to the run on every processor exactly when no exception is waiting and no breakpoint is planted over another byte here |
| SoftwareBreakpoints.StepFailsWithout | irida-core/core/backend/src/native_backend.cpp:185-196 | without a pending event, a willing host or an attached target step fails, and what it leaves |
| SoftwareBreakpoints.PlantingIsSoundIffNew | irida-core/core/backend/src/native_backend.cpp:311-322 | planting keeps 0xCC over the program's saved byte exactly at an address not yet planted, or where the program has 0xCC |
| SoftwareBreakpoints.PlantingSucceedsIff | irida-core/core/backend/src/native_backend.cpp:311-322 | the exact condition of success; a failed read records nothing |
| SoftwareBreakpoints.FailedPlantLeavesRecord | irida-core/core/backend/src/native_backend.cpp:313-320 | a write that fails leaves a record, right exactly if the program has 0xCC there or the byte got written to a new address all the same |
| SoftwareBreakpoints.RemovingIsSound | irida-core/core/backend/src/native_backend.cpp:347-357 | removing restores the program's byte and no other |
| SoftwareBreakpoints.RemovingSucceedsIff | irida-core/core/backend/src/native_backend.cpp:347-357 | the exact condition of success; a failure keeps the record |
| DebugSessions.SessionIsTransparent | irida-core/core/backend/src/native_backend.cpp:124-202 | over whole sessions of plant, remove, cont and step the target stays on the program's run, is that state exactly once all breakpoints are gone, and the replies are in order what the run had to show |
| DebugSessions.LogHoldsEveryEvent | irida-core/core/backend/src/native_backend.cpp:152-166 | the events of the run are, in order, those a session reports, those of instructions stepped over under a breakpoint, and those of steps |
| NativeBackends.NativeBackend.SetSoftwareBreakpoint | irida-core/core/backend/src/native_backend.cpp:306-322 | the method does what the planting specification says, in success and failure |
| NativeBackends.NativeBackend.RemoveSoftwareBreakpoint | irida-core/core/backend/src/native_backend.cpp:342-357 | the method does what the removal specification says, in success and failure |
| NativeBackends.NativeBackend.TranslateStopAndRearm | irida-core/core/backend/src/native_backend.cpp:124-167 | the host calls in order have the specified effect of a hit, whichever of them fails |
| NativeBackends.NativeBackend.Cont | irida-core/core/backend/src/native_backend.cpp:169-183 | resume, wait and translate have the specified effect |
| NativeBackends.NativeBackend.Step | irida-core/core/backend/src/native_backend.cpp:185-202 | one instruction, answered as a single step whatever happened |
| HardwareBreakpoints.BitOfEnabledControl | irida-core/libs/host/src/native_debuggee.cpp:552-559 | the shifts and masks set the slot's enable bit, clear its nibble and keep every other bit of DR7 |
| HardwareBreakpoints.BitOfDisabledControl | irida-core/libs/host/src/native_debuggee.cpp:589-590 | the mask clears the slot's enable bit and keeps every other bit of DR7 |
| HardwareBreakpoints.ArmingIsLocal | irida-core/libs/host/src/native_debuggee.cpp:515-567 | arming sets its slot's enable bit, clears its nibble, sets its address, and touches no other slot |
| HardwareBreakpoints.DisarmingIsLocal | irida-core/libs/host/src/native_debuggee.cpp:569-615 | disarming clears its slot's enable bit and address and touches no other slot |
| HardwareBreakpoints.SettingIsSoundIffUntracked | irida-core/core/backend/src/native_backend.cpp:323-332 | setting keeps slots, enables and addresses consistent exactly at an untracked address |
| HardwareBreakpoints.SettingTakesNextSlot | irida-core/core/backend/src/native_backend.cpp:323-332 | the exact condition of success; the address gets the next slot, enabled on it, all else is kept; a failure still uses up the slot |
| HardwareBreakpoints.RemovingIsSound | irida-core/core/backend/src/native_backend.cpp:358-367 | removing keeps slots, enables and addresses consistent |
| HardwareBreakpoints.RemovingForgets | irida-core/core/backend/src/native_backend.cpp:358-367 | the exact condition of success; the address is forgotten, its slot disabled and cleared, all else is kept; a failure changes nothing |
| HardwareBreakpoints.RunsStayConsistent | irida-core/core/backend/src/native_backend.cpp:306-375 | over any run live slots are distinct, enabled exactly when tracked, hold their address; slots are never reused |
| HardwareBreakpoints.RunsTrackTheLive | irida-core/core/backend/src/native_backend.cpp:306-375 | over any run the tracked addresses are those set and not removed since, and exactly these are enabled in some slot |
| HardwareBreakpoints.DebugThread.SetHwExecBp | irida-core/libs/host/src/native_debuggee.cpp:515-567 | range, attachment and host errors change no register, otherwise the slot is armed |
| HardwareBreakpoints.DebugThread.ClearHwBp | irida-core/libs/host/src/native_debuggee.cpp:569-615 | range, attachment and host errors change no register, otherwise the slot is disarmed |
| HardwareBreakpoints.HardwareSlots.SetBreakpoint | irida-core/core/backend/src/native_backend.cpp:323-332 | the next slot is taken, for good, even when arming fails |
| HardwareBreakpoints.HardwareSlots.RemoveBreakpoint | irida-core/core/backend/src/native_backend.cpp:358-367 | the tracked slot is disarmed and the address forgotten; errors change no record |
| Hex.HexEncode | irida-core/libs/protocol/src/hex.cpp:8-18 | the loop writes two lower-case digits per byte |
| Hex.HexDecode | irida-core/libs/protocol/src/hex.cpp:30-44 | fails exactly on odd length or a foreign character |
| Hex.DigitValues | irida-core/libs/protocol/src/hex.cpp:20-28 | the value of every digit of either case |
| Hex.DecodeInvertsEncode | irida-core/libs/protocol/src/hex.cpp:8-44 | decoding encoded bytes gives them back |
| Hex.EncodeInvertsDecode | irida-core/libs/protocol/src/hex.cpp:20-44 | encoding decoded text gives it back in lower case |
| Text.Find | irida-core/libs/protocol/src/frame.cpp:52-57 | the first occurrence from an index on, or the length |
| Frame.ComputeChecksum | irida-core/libs/protocol/src/frame.cpp:7-12 | the loop sums the payload bytes modulo 256 |
| Frame.ChecksumOfOneMore | irida-core/libs/protocol/src/frame.cpp:7-12 | each byte adds its value modulo 256 |
| Frame.KnownFrames | irida-core/libs/protocol/tests/test_frame.cpp:10-12 | the two frames the tests show |
| Frame.PollKeepsStream | irida-core/libs/protocol/src/frame.cpp:44-69 | one poll takes its payload off the front of the stream and loses nothing, whatever follows |
| Frame.PollOfIncomplete | irida-core/libs/protocol/src/frame.cpp:44-58 | without a complete frame a poll drops leading acks only, or everything if no frame has begun |
| Frame.ChunkingIsIrrelevant | irida-core/libs/protocol/include/irida/proto/frame.hpp:13-15 | for every stream and interleaving, payloads so far and a one-shot reading of the buffer are the one-shot reading of everything fed |
| Frame.FramesArrive | irida-core/libs/protocol/src/frame.cpp:14-69 | payloads without a hash sign, framed with acks around them, are read back in order |
| Frame.FrameIsReadIff | irida-core/libs/protocol/src/frame.cpp:59-69 | a frame is read exactly if its two digits, of either case, spell the checksum |
| Frame.SurvivesIffHashFree | irida-core/libs/protocol/src/frame.cpp:14-24 | a payload survives framing if and only if it holds no hash sign |
| Frame.CorruptedFrameIsDropped | irida-core/libs/protocol/include/irida/proto/frame.hpp:13-15 | a frame with one byte altered, not to a hash sign, is dropped without losing what follows |
| Frame.FrameDecoder.Feed | irida-core/libs/protocol/src/frame.cpp:40-42 | bytes are appended to the buffer |
| Frame.FrameDecoder.NextPayload | irida-core/libs/protocol/src/frame.cpp:44-69 | the method polls the buffer as specified: strip acks, find the frame, check it, erase it |
| GdbClients.AwaitTakesNextReply | irida-core/core/transport/src/gdb_client.cpp:27-37 | for every chunking a wait returns the next reply and leaves exactly the rest, or fails and leaves it; it succeeds exactly when the reply is complete before the last receive |
| GdbClients.RepliesComeInOrder | irida-core/core/transport/src/gdb_client.cpp:20-38 | whatever fails and whatever was unread before, the transacts that succeed return the replies in the order sent, none left out |
| GdbClients.RepliesArePaired | irida-core/core/transport/src/gdb_client.cpp:20-38 | in a run without failures the k-th transact returns the k-th reply |
| GdbClients.FailuresShiftReplies | irida-core/core/transport/src/gdb_client.cpp:20-38 | a successful transact returns the reply to the request as many exchanges back as have failed before it |
| GdbClients.GdbClient.Attempt | irida-core/core/transport/src/gdb_client.cpp:29-35 | one attempt ends the wait as specified or leaves the rest of it to do |
| GdbClients.GdbClient.AwaitPayload | irida-core/core/transport/src/gdb_client.cpp:27-37 | the attempt loop has the specified effect on decoder and line |
| GdbClients.GdbClient.Transact | irida-core/core/transport/src/gdb_client.cpp:20-38 | sends the framed request and performs one exchange |
| GdbClients.TransactSucceedsIff | irida-core/core/transport/src/gdb_client.cpp:27-37 | a transact succeeds exactly if the reply is complete with what the first 63 receives deliver |
| GdbClients.LongRepliesFail | irida-core/core/transport/src/gdb_client.cpp:27-37 | with full buffers of 512 bytes only a frame complete in 32256 bytes comes across |
| GdbClients.GdbClient.ReadMemory | irida-core/core/transport/src/gdb_client.cpp:51-62 | sends the read request and returns the contents exactly if the reply is taken for contents |
| Packets.HexNumRoundTrip | irida-core/libs/protocol/src/packets.cpp:8-12 | hexadecimal numerals have their number's value and only digits |
| Packets.SignedRoundTrip | irida-core/libs/protocol/src/packets.cpp:42-47 | signed decimal numerals have their number's value and no separator |
| Packets.KnownReadMemory | irida-core/libs/protocol/tests/test_packets.cpp:9 | an encoding the tests show |
| Packets.KnownBreakpoint | irida-core/libs/protocol/tests/test_packets.cpp:14 | an encoding the tests show |
| Packets.RequestRoundTrip | irida-core/libs/protocol/src/packets.cpp:33-59 | every request's text is read back as that request and holds no hash sign |
| Packets.EncodingIsInjective | irida-core/libs/protocol/src/packets.cpp:33-59 | different requests never share an encoding |
| Packets.RequestsSurviveTheWire | irida-core/libs/protocol/src/packets.cpp:33-59 | requests framed, sent with acks between and deframed are the same requests |
| Packets.RequestTexts | irida-core/libs/protocol/src/packets.cpp:33-59 | the text of every request |
| Packets.HexNumIsCanonical | irida-core/libs/protocol/src/packets.cpp:8-12 | hexadecimal numerals are lower-case without leading zeros |
| Packets.SignedIsCanonical | irida-core/libs/protocol/src/packets.cpp:42-47 | decimal numerals have a sign only below zero and no leading zeros |
| Packets.DataIsErrorIff | irida-core/libs/protocol/src/packets.cpp:65-72 | hex data is taken for an error report exactly if it is longer than a byte and starts with an upper-case E |
| Packets.ErrorReportIff | irida-core/libs/protocol/src/packets.cpp:65-72 | which texts are error reports, and their code |
| Packets.AnyMemoryReply | irida-core/core/transport/src/gdb_client.cpp:51-62 | what any reply to a memory read is taken for |
| Packets.MemoryIsReadIff | irida-core/core/transport/src/gdb_client.cpp:51-62 | for every contents and every spelling of them, a read returns them exactly if they are at most a byte or do not start with an upper-case E, and else the error code the digits make |
| Packets.LowerCaseMemoryIsRead | irida-core/core/transport/src/gdb_client.cpp:51-62 | contents in lower case are always read as they are |
| Packets.UpperCaseMemoryIsAnError | irida-core/core/transport/src/gdb_client.cpp:56-57 | two bytes that are read as error 1 |
| Packets.ParseFields | irida-core/libs/protocol/src/packets.cpp:94-108 | the loop ends on every input with the pairs of the list |
| Packets.ParseStopReply | irida-core/libs/protocol/src/packets.cpp:74-122 | the parser computes the specified reply for every text |
| Packets.SignalReply | irida-core/libs/protocol/src/packets.cpp:84-89 | S and a code is a signal, whatever follows |
| Packets.ExitReply | irida-core/libs/protocol/src/packets.cpp:111-113 | W and a code is an exit, whatever follows |
| Packets.TerminationReply | irida-core/libs/protocol/src/packets.cpp:114-116 | X and a code is a termination, whatever follows |
| Packets.OutputReply | irida-core/libs/protocol/src/packets.cpp:79-83 | O carries its text as output |
| Packets.AnyReply | irida-core/libs/protocol/src/packets.cpp:74-122 | for every text the letter gives the kind, and a missing or malformed code is 0 |
| Packets.FieldWithoutColon | irida-core/libs/protocol/src/packets.cpp:98-103 | a field without a colon gives no pair |
| Packets.StopReplyRoundTrip | irida-core/libs/protocol/src/packets.cpp:74-122 | a printed T reply is parsed back exactly if and only if keys and values avoid the separators, with or without the final one |
| StringScan.UnitsDoNotInterleave | irida-core/core/binfmt/src/strings.cpp:36-55 | UTF-16LE units never start at neighbouring bytes |
| StringScan.SegmentsAreMaximalRuns | irida-core/core/binfmt/include/irida/binfmt/strings.hpp:18-20 | for a positive minimum the reported spans are the maximal runs |
| StringScan.WideTextIsEveryOther | irida-core/core/binfmt/src/strings.cpp:40-48 | the text of a UTF-16LE run is every other byte, with zeros between |
| StringScan.ScanAscii | irida-core/core/binfmt/src/strings.cpp:20-34 | exactly the printable segments that are long enough, once each, in increasing order |
| StringScan.ScanWide | irida-core/core/binfmt/src/strings.cpp:36-55 | exactly the UTF-16LE segments that are long enough, once each, in increasing order |
| StringScan.ScanStrings | irida-core/core/binfmt/src/strings.cpp:15-58 | all long enough ASCII segments, then all UTF-16LE ones, with address and text; for a positive minimum these are exactly the maximal runs |
| GraphLayout.Search | irida-ui/gui/src/panels/graph/graph_view.cpp:156-179 | breadth-first layers are shortest-path distances from block 0; other blocks are left out |
| GraphLayout.AssignLayers | irida-ui/gui/src/panels/graph/graph_view.cpp:156-189 | each unreachable block gets its own later layer |
| GraphLayout.WidthIsWidestLine | irida-ui/gui/src/panels/graph/graph_view.cpp:148-152 | a box is as wide as its widest line and twenty units |
| GraphLayout.HeightGrowsByLine | irida-ui/gui/src/panels/graph/graph_view.cpp:153-153 | sixteen units and one line height for each line |
| GraphLayout.BlocksOfLayer | irida-ui/gui/src/panels/graph/graph_view.cpp:191-200 | a row lists exactly the blocks of its layer by address |
| GraphLayout.PlaceRow | irida-ui/gui/src/panels/graph/graph_view.cpp:219-230 | boxes of a row get their columns from 0 on and their exact positions; no other box changes |
| GraphLayout.RowIsCentred | irida-ui/gui/src/panels/graph/graph_view.cpp:202-203 | neighbours in a row stand exactly one gap apart and the row is centred around x = 0 |
| GraphLayout.PlaceLayers | irida-ui/gui/src/panels/graph/graph_view.cpp:204-217 | rows start at 0, each exactly one gap below the tallest block of the one above, down to the last layer |
| GraphLayout.PositionedIsWellPlaced | irida-ui/gui/src/panels/graph/graph_view.cpp:202-230 | with these positions no two rectangles overlap |
| GraphLayout.Layout | irida-ui/gui/src/panels/graph/graph_view.cpp:137-231 | distances as layers, every box at its exact column and position, and no two rectangles overlap |

## Left out

- Instruction decoding and binary parsing: foreign libraries, replaced by a decoded image and given data.
- Function names and symbol lookup: display only.
- Win32 calls, attaching and draining, modules, threads and memory maps: operating-system calls.
- Debuggees.Debuggee.WaitEvent: a wait that would block for ever is a wait that fails.
- Which of several system calls behind one operation fails: an operation is refused, or fails after part of its effect.
- The trap flag inside the flags register while a step is under way: it is a separate field of the debuggee, cleared when an event is delivered.
- Watchpoints: the source refuses them all; the kind argument of the breakpoint methods is split into one method per supported kind.
- Software and hardware breakpoints are modelled in separate objects, each with its own part of the debuggee.
- Multi-threaded debuggees, self-modifying code at planted bytes, and address wrap at 2^64 in the scanner and the analyzer.
- Socket set-up and time-outs: a receive that finds no bytes fails.
- The other wrappers around `transact` and the C interface: field copying.
- Rounding of coordinates: reals are exact; font metrics are given line widths and a line height that is not negative.
- The order in which rows are visited: the source walks an unordered map, the model counts up; rows do not depend on each other.
- The texts of error messages: an error carries a short text, the error code of a refused memory read is stated by `MemoryReplyOf`.
