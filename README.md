# SiliFuzz snapshot core in Dafny

This project models the rule-driven core of SiliFuzz and proves properties of the model. SiliFuzz finds CPU defects by running short machine-code sequences ("snapshots") and comparing the end state each one reaches with the expected end state. The core covers:

- **AArch64 acceptance harness** (`UnicornAArch64`). It turns away inputs of the wrong length and sets up an emulator context step by step. It runs the code for at most 0x1000 instructions and accepts the input exactly when the run stops cleanly at the end of the code. The emulator is the `Engine` class. What each Unicorn call answers is a `Backend` value of functions over the engine's state.
- **Raw instructions to snapshot** (`RawInsnsUtil`). It derives the code address from a hash of the code, and checks the length, the padding room and the exit-address collision. It builds the exact initial mappings, memory, registers and single expected end state for x86-64 and AArch64. The snapshot id is the hex form of the SHA-1 digest.
- **Snapify** (`Snapify`). It picks the expected end state for a platform and runs the `CanSnapify` checks: the endpoint kind, room for the exit sequence, and 8 bytes of stack. It applies the compression policy for repeating byte runs, and keeps only writable memory in end states. It merges the exit sequence and performs the whole `Snapify` transformation.
- **snap_tool helpers** (`SnapTool`):
  - `GetInstructions` and `SetBytes`.
  - The output path.
  - The `generate_corpus` checks.
  - Splitting the command line.
- **Runner entry point** (`RunnerMain`):
  - base-name extraction;
  - the PIDxTIME seed, with C++ truncating remainder and 32/64-bit wrap-around written out;
  - corpus-name precedence and mode dispatch.
- **Small pure pieces**: the x86 CPU feature ordinals and bit masks (`CpuFeatures`), and the `TraceOptions` defaults (`TraceConfig`).

Shared pieces:

- `Common` holds the unsigned 64-bit arithmetic and the status/result types.
- `Snapshots` holds the Snapshot data model these files use:
  - mappings, memory bytes, end states and registers;
  - a byte-level denotation of memory: `ByteAt` gives the byte the last covering block holds;
  - the `MemoryState` class, which is edited in place.

The following are not part of this model: common/snapshot.h, common/memory_state.h, the mapped memory map, the exit sequence, GetRepeatingByteRuns, the reserved-mapping test, CityHash64, SHA-1 and the instruction filter. Members that need them take them as function parameters. Where the model depends on a property of such a parameter (for example that splitting into runs keeps every byte), the property is a named predicate in the contract.

## Model

| member | source | states |
|---|---|---|
| CpuFeatures.Ordinal | util/x86_64/cpu_features.h:25-36 | every feature's ordinal lies in [kBegin, kEnd) |
| CpuFeatures.FromOrdinal | util/x86_64/cpu_features.h:25-36 | each ordinal in [kBegin, kEnd) names the feature that has it (the inverse of Ordinal) |
| CpuFeatures.OrdinalsConsecutive | util/x86_64/cpu_features.h:26-35 | kBegin == AMX_TILE == 0, kEnd is one past the last feature, and no two features share an ordinal |
| CpuFeatures.EndFitsInUint64 | util/x86_64/cpu_features.h:38-40 | kEnd < 64, so the mask shift stays inside a uint64 |
| CpuFeatures.X86CPUFeatureBitmask | util/x86_64/cpu_features.h:43-45 | the mask has exactly one bit set, at the feature's ordinal |
| CpuFeatures.BitmasksDisjoint | util/x86_64/cpu_features.h:43-45 | distinct features have distinct masks that share no bit |
| TraceConfig.Default | player/trace_options.h:33-55 | instruction_count_limit defaults to 1000; all three filters default to true |
| TraceConfig.LimitZeroIsUnlimited | player/trace_options.h:37-39 | a limit of 0 never stops the tracer; a positive limit stops it exactly from that count on |
| TraceConfig.WithInstructionCountLimit | player/trace_options.h:24-30 | a copy with the limit changed keeps every other field |
| RunnerMain.RemoveLeadingDirectory | runner/runner_main.cc:43-53 | the result is a suffix of the input, starting just after the last '/' that is not the final character (or at 0) |
| RunnerMain.BaseNameStartUnique | runner/runner_main.cc:45-51 | the base-name start is unique, so the scan's result is determined |
| RunnerMain.TrailingSlashIsKept | runner/runner_main.cc:47-49 | a trailing '/' is not a separator: "a/b/" gives "b/" |
| RunnerMain.DeriveSeed | runner/runner_main.cc:116-127 | a nonzero --seed is used unchanged; otherwise the seed is in [0, 104729) and equals the magnitude of the wrapped product modulo 104729 |
| RunnerMain.NegativeProductSeed | runner/runner_main.cc:123-124 | a negative product (pid 82) still gives the positive seed 64979 |
| RunnerMain.CorpusName | runner/runner_main.cc:83-89 | --corpus_name wins, then the corpus file's base name, then "<builtin>" |
| RunnerMain.EntryPoint | runner/runner_main.cc:55-140 | parse failure → EXIT_FAILURE; --help → EXIT_SUCCESS; an empty corpus that loaded as the last argument → EXIT_SUCCESS, every other early exit → EXIT_FAILURE; once every check passes (ReachesRunner), make+sequential is fatal and anything else hands over to a runner, and a failed check always exits; make beats sequential beats the default runner; the options carry the corpus, its name (--corpus_name, else the corpus file's base name, else "<builtin>"), the derived seed, the pid and every other flag unchanged |
| RawInsnsUtil.PowerOfTwoTest | common/raw_insns_util.cc:53-54 | for n > 0, `n & (n - 1) == 0` exactly when n is a power of two |
| RawInsnsUtil.BitAndLowMask | common/raw_insns_util.cc:56-57 | masking with 2^k − 1 takes the hash modulo 2^k |
| RawInsnsUtil.ZeroSizedRangeEscapes | common/raw_insns_util.cc:46-58 | num_bytes == 0 passes every CHECK, yet hash 1 gives an address outside the (empty) range |
| RawInsnsUtil.HashToCodeAddress | common/raw_insns_util.cc:46-58 | with aligned start and size and a power-of-two size > 0: the offset from start is below the size and granularity-aligned; without wrap the address is in [start, start+size) and aligned; the value equals the source's expression |
| RawInsnsUtil.HashPicksSlotModulo | common/raw_insns_util.cc:56-57 | with 2^k slots, the chosen slot is the hash modulo 2^k |
| RawInsnsUtil.InstructionsToCodeAddress | common/raw_insns_util.cc:60-67 | the code address lies in the code range and is aligned to the granularity (the range and alignment guarantees of HashToCodeAddress) |
| RawInsnsUtil.SameHashSameAddress | common/raw_insns_util.cc:60-67 | the code address depends on the code only through its CityHash64: codes with equal hashes get equal addresses |
| RawInsnsUtil.PadToSizeWithTraps | common/raw_insns_util.cc:107-113 | the padded code has the page size, starts with the code, and is trap filler after it |
| RawInsnsUtil.InstructionsToSnapshotX86 | common/raw_insns_util.cc:71-154 | filter, length (page − 32) and exit-address collision errors, each with its own message, exactly when they occur; on success: code page XR and data page RW; code padded with traps; cs 0x33, ss 0x2b, eflags 0x202; rsp = data page limit; rip = code start; FP defaults; one end state at code start + length |
| RawInsnsUtil.InstructionsToSnapshotAArch64 | common/raw_insns_util.cc:156-249 | multiple-of-4, filter, length (page − 12) and exit-address collision errors, each with its own message, exactly when they occur; on success: code page XR and stack RW; pc = x30 = code start; sp = stack end; x6/x7 = data starts; one end state at code start + length |
| RawInsnsUtil.BytesToHexString | common/raw_insns_util.cc:254-255 | two lower-case hex digits per byte |
| RawInsnsUtil.HexRoundTrip | common/raw_insns_util.cc:254-255 | decoding the hex string gives back the bytes |
| RawInsnsUtil.InstructionsToSnapshotId | common/raw_insns_util.cc:251-256 | the id is 40 hex digits that decode to the SHA-1 digest of the code |
| RawInsnsUtil.SnapshotIdInjective | common/raw_insns_util.cc:251-256 | two codes get the same id exactly when their digests are equal |
| UnicornAArch64.Engine.Open | proxies/unicorn_aarch64.cc:84 | a new context has no mappings, registers or writes |
| UnicornAArch64.Engine.MemMap | proxies/unicorn_aarch64.cc:43 | on success the region is appended to the mappings; on failure nothing changes |
| UnicornAArch64.Engine.MemWrite | proxies/unicorn_aarch64.cc:102 | on success the write is recorded; on failure nothing changes |
| UnicornAArch64.Engine.RegWrite | proxies/unicorn_aarch64.cc:51 | on success the register holds the value; on failure nothing changes |
| UnicornAArch64.Engine.RegRead | proxies/unicorn_aarch64.cc:143 | returns the register's value and the backend's error code; the state is untouched |
| UnicornAArch64.Engine.EmuStart | proxies/unicorn_aarch64.cc:129 | the run's error is returned and PC is left where the run stopped |
| UnicornAArch64.Engine.Close | proxies/unicorn_aarch64.cc:150 | the context is released and otherwise unchanged |
| UnicornAArch64.UcOpen | proxies/unicorn_aarch64.cc:84 | an engine exists exactly when opening reports no error |
| UnicornAArch64.MapMemory | proxies/unicorn_aarch64.cc:42-48 | reports whether the mapping succeeded, with the engine's new state |
| UnicornAArch64.SetReg | proxies/unicorn_aarch64.cc:50-56 | reports whether the register write succeeded, with the engine's new state |
| UnicornAArch64.SetupPlan | proxies/unicorn_aarch64.cc:97-123 | the setup is eight calls in source order |
| UnicornAArch64.RunRequestFor | proxies/unicorn_aarch64.cc:126-129 | the run goes from the code address to code address + length, with no timeout and at most 0x1000 instructions |
| UnicornAArch64.SetUpContext | proxies/unicorn_aarch64.cc:97-123 | the engine performs the setup calls; it reports the first fatal failure, or ends in the context the setup reaches |
| UnicornAArch64.RunAArch64Instructions | proxies/unicorn_aarch64.cc:60-153 | the outcome is HarnessOutcome; no engine exists exactly when the length is rejected or opening fails; the engine is closed exactly when a result is returned |
| UnicornAArch64.SetupDoneEffects | proxies/unicorn_aarch64.cc:97-123 | a completed setup maps exactly the planned regions and sets exactly the planned registers |
| UnicornAArch64.SetupFailsAtFatalCall | proxies/unicorn_aarch64.cc:32-56 | a failed setup stops at one of its own calls, never at the ignored memory write |
| UnicornAArch64.SetupRegions | proxies/unicorn_aarch64.cc:97-117 | after setup, code (exec), stack, data1 and data2 (read/write) are mapped, in that order |
| UnicornAArch64.SetupRegisters | proxies/unicorn_aarch64.cc:105-123 | after setup, SP = stack start + size, x6 = data1 start, x7 = data2 start, and no other register is set |
| UnicornAArch64.AbortsOnlyOnFatalCalls | proxies/unicorn_aarch64.cc:84-143 | an abort comes only from open, a mapping, a register write or the PC read |
| UnicornAArch64.LengthRejectedIgnoresConfig | proxies/unicorn_aarch64.cc:60-80 | inputs shorter than 4, not a multiple of 4, or over 0x1000 bytes give -1 whatever the configuration or emulator |
| UnicornAArch64.AcceptedExactly | proxies/unicorn_aarch64.cc:131-152 | the result is 0 exactly when setup succeeds and the run reports no error and stops at the end of the code; otherwise it is -1 |
| Snapshots.ByteAtAppend | snap/gen/snapify.cc:149 | appending blocks overwrites exactly the addresses the new blocks cover |
| Snapshots.ZeroFillIsMappedZeros | snap/gen/snapify.cc:123-124 | the zero-filled initial memory holds 0 exactly at mapped addresses |
| Snapshots.RemoveBytesAt | snap/gen/snapify.cc:157 | removing a range forgets exactly the bytes inside it |
| Snapshots.RemoveBytesAvoids | snap/gen/snapify.cc:157 | after removing a range no block touches it, and a range no block touched stays untouched |
| Snapshots.RemoveMappingsMapped | snap/gen/snapify.cc:157 | removing a range unmaps exactly the addresses inside it |
| Snapshots.MemoryState.MakeInitial | snap/gen/snapify.cc:123-124 | the state holds the snapshot's mappings, and zero-filled memory under its memory bytes |
| Snapshots.MemoryState.SetMemoryBytes | snap/gen/snapify.cc:200 | the new bytes replace the old ones where they lie, and nothing else changes |
| Snapshots.MemoryState.SetMemoryBytesList | snap/gen/snapify.cc:149 | each address a delta covers takes the delta's byte; other addresses are unchanged |
| Snapshots.MemoryState.RemoveMemoryMapping | snap/gen/snapify.cc:157 | the range is unmapped and its bytes are dropped; other addresses are unchanged |
| Snapify.FirstMatch | snap/gen/snapify.cc:54-60 | the index of the first end state matching the platform (or any end state for kAny), or none |
| Snapify.FirstMatchIs | snap/gen/snapify.cc:54-60 | a matching index with no earlier match is the first match |
| Snapify.EndStateChoice | snap/gen/snapify.cc:41-63 | undefined end states allowed: succeeds exactly with one end state that is complete in some sense, and picks it; otherwise picks the first platform match when it is complete, fails with "not complete" when it is not, and gives NotFound exactly when nothing matches |
| Snapify.PickEndState | snap/gen/snapify.cc:41-63 | the search loop returns EndStateChoice |
| Snapify.CanSnapify | snap/gen/snapify.cc:210-259 | fails with the choice's error; else accepts exactly when the endpoint is an instruction, no reserved mapping is overlapped, [rip, rip+exit size) is mapped, and (unless undefined end states are skipped) rsp ≥ 8 with [rsp−8, rsp) mapped; each failure has its own message |
| Snapify.ExitRoomMapped | snap/gen/snapify.cc:232-241 | room for the exit sequence means it does not wrap and every one of its addresses is mapped |
| Snapify.StackRoomMapped | snap/gen/snapify.cc:250-256 | stack room means rsp ≥ 8 (no underflow) and the 8 bytes below rsp are mapped |
| Snapify.InitialCompressionQuery | snap/gen/snapify.cc:126-133 | never compress without compress_repeating_bytes; non-executable only with direct mmap; otherwise always |
| Snapify.CompressionPolicy | snap/gen/snapify.cc:65-83 | which blocks each query compresses: a block starting in executable memory is kept whole under direct mmap; end states compress exactly when compress_repeating_bytes is set |
| Snapify.SnapifiedErrorSticks | snap/gen/snapify.cc:102-106 | the first failing split is the list's error |
| Snapify.SnapifiedPreservesBytes | snap/gen/snapify.cc:102-113 | if splitting into runs keeps bytes, the snapified list denotes the same memory |
| Snapify.SnapifyMemoryByteList | snap/gen/snapify.cc:89-115 | the loop builds Snapified of the state's written bytes: each block is kept or replaced by its runs, in order |
| Snapify.EndStateMemory | snap/gen/snapify.cc:145-159 | the end-state memory is the end state's deltas over the initial memory, with every non-writable mapping removed; its written bytes are EndStateWritten |
| Snapify.RewriteEndStatesOk | snap/gen/snapify.cc:141-172 | when the end states are all rewritten, there are as many as before, in order; each is its own end state rewritten against the snapified snapshot, and can_add_expected_end_state accepted it after those before it |
| Snapify.RewriteEndStatesErr | snap/gen/snapify.cc:144-172 | when rewriting fails, there is a first end state at which it fails: all before it were added, and its own rewrite failed or can_add_expected_end_state rejected it |
| Snapify.RewriteErrorSticks | snap/gen/snapify.cc:160-170 | the first failing end state's error is the loop's error |
| Snapify.RewriteOneEndState | snap/gen/snapify.cc:145-169 | one loop step is RewriteEndState: an incomplete end state is kept; a complete one gets its writable bytes over the snapified memory, split by the end-state query and accepted by ReplaceMemoryBytes; the bytes equal the original end-state memory |
| Snapify.RewriteAllEndStates | snap/gen/snapify.cc:141-172 | the loop computes RewriteEndStates, and every rewritten end state holds its original memory's bytes |
| Snapify.SnapifyMemoryBytes | snap/gen/snapify.cc:121-175 | the result is SnapifiedMemory: it fails exactly when the initial split, the snapshot's replace check or an end state's rewrite fails, with that error; on success only memory bytes and end states change; the memory bytes are the initial memory snapified by the initial query; end states keep their order, each RewriteEndState of the original; incomplete ones are unchanged; complete ones hold exactly their writable bytes |
| Snapify.MergeExitSequence | snap/gen/snapify.cc:180-206 | fails with "no room" exactly when the exit sequence is not inside the mappings; otherwise the memory is the exit sequence over the initial memory, and no mapping is added |
| Snapify.SnapifySucceeds | snap/gen/snapify.cc:261-284 | once CanSnapify accepts, MergeExitSequence always finds room, so Snapify fails only in the replace check or SnapifyMemoryBytes |
| Snapify.SnapifyOutcomeShape | snap/gen/snapify.cc:261-284 | a Snap keeps the snapshot's architecture, id, mappings and registers, and has exactly one end state |
| Snapify.Snapify | snap/gen/snapify.cc:261-284 | the result is SnapifyOutcome: CanSnapify's error, the merge error, or SnapifyMemoryBytes of the merged snapshot; fails whenever CanSnapify fails; on success mappings and registers are kept; exactly the picked end state remains, snapified; the initial memory is the snapshot's with the exit sequence at the endpoint |
| SnapTool.FirstHolding | tools/snap_tool.cc:263-276 | the index of the first block holding [begin, end), or none |
| SnapTool.GetInstructions | tools/snap_tool.cc:235-278 | errors with no end states, with inconsistent endpoints, and with no holding block; otherwise returns end − begin bytes, those the first holding block has at [begin, end) |
| SnapTool.SetBytes | tools/snap_tool.cc:284-302 | OutOfRange exactly when the bytes are not inside the mappings; otherwise the new bytes lie over the initial memory, and nothing else changes |
| SnapTool.SetBytesKeepsOthers | tools/snap_tool.cc:295-297 | addresses outside the new bytes read as before |
| SnapTool.OutputPath | tools/snap_tool.cc:340-347 | the --out value when set, otherwise the input path unchanged |
| SnapTool.SnapifyForCorpus | tools/snap_tool.cc:211-217 | the input gives its Snapify outcome as its Snap, or nothing when Snapify fails |
| SnapTool.CorpusCounts | tools/snap_tool.cc:208-218 | every input gives exactly one of a Snap or a skip |
| SnapTool.UnusableGivesNoSnap | tools/snap_tool.cc:209-216 | an input that fails to load or that CanSnapify rejects gives no Snap |
| SnapTool.CorpusSkipsUnusable | tools/snap_tool.cc:208-218 | every input CanSnapify rejects is among the skipped |
| SnapTool.CorpusEmptyWhenNoneUsable | tools/snap_tool.cc:208-218 | with no usable input there are no Snaps |
| SnapTool.SnapShape | tools/snap_tool.cc:211-217 | a Snap keeps its input's architecture, mappings and registers, and has one end state |
| SnapTool.CorpusSnapsShape | tools/snap_tool.cc:208-218 | every Snap has exactly one end state |
| SnapTool.GenerateCorpus | tools/snap_tool.cc:195-233 | rejects an undefined platform; succeeds exactly when the platform is defined, every input loads and some input gives a Snap; the first input that fails to load ends the call with its load error, prefixed "Cannot read snapshot; "; on success and the Snaps are exactly the Snapify outcomes of the inputs Snapify accepts, in input order, the rest skipped in order; every input is made into a Snap with one end state or is skipped; inputs CanSnapify rejects are skipped; fails when none is usable |
| SnapTool.SplitCommandLine | tools/snap_tool.cc:354-368 | fails with the usage message exactly when there are fewer than 2 arguments; otherwise command, file and the rest concatenate back to the arguments |

## Left out

- The Unicorn emulator's semantics (what a run does to memory and registers) are a `Backend` parameter. LOG messages and uc_strerror texts are not modelled.
- CityHash64, SHA-1, StaticInstructionFilter and the trap filler of PadToSizeWithTraps are parameters.
- WriteSnapExitSequence, OverlapReservedMemoryMappings and GetRepeatingByteRuns are parameters. So are the checks inside ReplaceMemoryBytes and can_add_expected_end_state, and LoadCorpus.
- The PIDxTIME inputs (getpid, sys_gettimeofday) are parameters of `RunnerMain.EntryPoint`.
- ParseRunnerFlags, ShowUsage, RunnerMain, RunnerMainSequential and MakerMain are not modelled; the entry point returns which one it hands the options to.
- MemoryBytes::CanConstruct in MergeExitSequence is not modelled. The room check compares against the unwrapped limit; a wrapped limit cannot lie inside the mappings anyway.
- NormalizeMemoryMappings and NormalizeMemoryBytes in Snapify are treated as the identity. They merge or split blocks without changing the bytes they denote. The canonical splitting done by memory_bytes_list is treated the same way. In GetInstructions normalisation is a parameter, because there it decides which block holds the code.
- Snapify.SnapifyMemoryBytes iterates over the snapshot's own mappings rather than the merged mapped-memory map. Snapshot mappings do not overlap, so the same addresses are removed.
- Snapify.EndStateChoice: the status texts of Snapshot::IsComplete and IsCompleteSomeState are not part of this model. An incomplete end state gives InvalidArgument "end state is not complete". The NotFound message omits the platform name (EnumStr).
- SnapTool.GetInstructions: the inconsistent-endpoint message omits the two hex addresses. The instructions are returned rather than written to a file descriptor, so the WriteToFileDescriptor failure is not modelled.
- SnapTool.SetBytes: the OutOfRange message omits the hex range.
- SnapTool.GenerateCorpus returns the Snaps instead of building and writing the relocatable corpus. Loading a snapshot, and SnapifyOptions::V2InputRunOpts of the platform's architecture, are parameters. The "skipping" lines are not printed.
- SnapTool.SplitCommandLine covers only the argument-count check and the consumption of command and file name. The individual commands (print, set_id, set_end, make, play, trace, set_pc and the command dispatch) are left out: they are file I/O, subprocesses or printing.
- Snapify.SnapifyMemoryBytes, Snapify.MergeExitSequence and Snapify.Snapify take the snapshot as a value and return the new one. The source's copy is local, so in-place update is not observable.
- Page size is 4096 for both architectures; the Snapshot class that defines it is not part of this model.
- CHECK failures, which abort the process, are preconditions instead: the model promises nothing about inputs that would abort. These are the CHECK_LE(begin_code, end_code) of SnapTool.GetInstructions (tools/snap_tool.cc:248), the page-alignment CHECK_EQs on the data ranges of RawInsnsUtil.InstructionsToSnapshotX86 (common/raw_insns_util.cc:83-86), and the alignment and power-of-two CHECKs of RawInsnsUtil.HashToCodeAddress (common/raw_insns_util.cc:50-54), which reach RawInsnsUtil.InstructionsToCodeAddress and InstructionsToSnapshotAArch64 through ValidCodeRange. ValidCodeRange also demands a nonzero size, which the CHECKs let through (see Findings).
- SnapTool.GenerateCorpus and SnapTool.SnapifyForCorpus take a ghost function `snapify` that must agree with Snapify (IsSnapify). It names Snapify in their contracts; it is not called.
- The DCHECK in SnapifyMemoryBytes (an incomplete end state only when undefined end states are allowed) is not modelled, nor are VLOG output and HasX86CPUFeature.

## Findings

| source | as written | input that shows it | evidently intended | confidence | as-written member | corrected member |
|---|---|---|---|---|---|---|
| common/raw_insns_util.cc:46-58 | the CHECKs accept code_range_num_bytes == 0 (0 is aligned, and 0 & (0 − 1) == 0), after which the mask 0 / granularity − 1 wraps to all ones | start 0, num_bytes 0, granularity 4096, hash 1 gives address 4096, outside the empty range | a range size greater than 0, so the address lies in [start, start + num_bytes) | not executed | RawInsnsUtil.ZeroSizedRangeEscapes | RawInsnsUtil.HashToCodeAddress |
