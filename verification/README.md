# The hard core of the sound emulator, in Dafny

The emulator plays Amiga music by running the original 68k player code together with models of
the Copper, the CIA timers and the Paula sound chip; a front end talks to it over a pipe. This
project models the parts of it whose correctness cannot be read off one function: two threads
sharing a ring, schedulers that skip time, lazy state that must not be noticed, a dataflow
analysis, an allocator, and arithmetic that must be exact bit by bit. What the C code changes step
by step is modelled by classes and loops, each tied to a function of the old state; the properties
of those functions are lemmas.

| file | models | main results |
|---|---|---|
| `CommPipe.dfy` | the pipe between two threads | FIFO under every interleaving exactly when `chunks < size`; no lost wake-up; binary semaphores; bounded operations |
| `RegisterCache.dfy` | 68k registers cached in x86 registers | every operation keeps all logical values; a block of operations equals the same operations done directly, except for one kind of move that the tables determine beforehand |
| `FlagLiveness.dfy` | condition-flag liveness | one round is sound exactly when terminators declare the uses they hide; repeated rounds always settle, and are then always sound |
| `CodePages.dfy` | the code-page allocator | disjoint runs, exact page masks and intact code over any run of compilations and flushes |
| `CopperProgram.dfy` | what a Copper program does | MOVE, WAIT and SKIP as a programmer sees them, from the rounds of the loop |
| `Copper.dfy` | the Copper and its forecast | split invariance, and exactly for which masks of the WAITs met; the forecast is exact |
| `CiaEvents.dfy` | the event loop and the CIA timers | no assert fires unless a deadline was cut to zero; conservation of cycles; events fire exactly on time |
| `CiaTimers.dfy` | the timers as a program uses them | periods, one-shot and cascade; which write reaches what, on either chip |
| `AudioClock.dfy` | the Paula audio clock | jumping equals ticking; no drift; divisor positive exactly when the interval is at least one cycle; lazy equals eager, and exactly which interrupt writes commute |
| `AudioSound.dfy` | what is put out | every pair over any run is the average of the levels since the one before; what registers and handlers do |
| `ExtendedArith.dfy` | ADDX, SUBX, ABCD, SBCD | exact multi-limb binary and decimal arithmetic |
| `Rotate.dfy` | ROXL, ROXR, ASL | equal to that many one-bit steps; ROXR undoes ROXL |
| `Movem.dfy` | MOVEM and its tables | load after store restores every listed register |
| `MulDiv.dfy` | 64-bit multiply and divide | exact quotient, remainder and product; both builds agree |
| `Md5.dfy` | MD5 | the digest of RFC 1321 however the message is cut up |
| `Md5Standard.dfy` | RFC 1321 | byte order, bits, schedule, padding; the table of constants made from the sine |
| `Fifo.dfy` | the byte fifo | first in, first out, erasures included; amortised linear copying |
| `Ipc.dfy` | message framing and file transfer | decoding, uniqueness of the token, the exact set of files that survive transfer |
| `Words.dfy`, `Powers.dfy`, `Bytes.dfy`, `Cpu.dfy` | shared | 32-bit words, powers of two, byte order, flags and sizes |

## Where the code does not do what it promises

Each of these is proved with a concrete input or family of inputs, next to the exact condition under
which the promise does hold.

- The pipe loses and reorders data when `chunks >= size` (`CommPipe.LosslessIffBatchBelowSize`).
- Storing a clean register to memory leaves it in swapped byte order, and `remove_x86r_from_cache` then
  takes it for normal. So `MOVE.L D0,(A0)`, `MOVE.L D1,(A0)`, `MOVE.L D0,D1` reverses the bytes
  (`RegisterCache.ReversedMove`). Which moves of a block do this is determined by the compile-time
  tables before the block runs (`RegisterCache.RunBlock`, `RegisterCache.RegisterMapping.MoveLong`), and
  without a store there are none (`RegisterCache.NoStoreNoReversal`).
- Liveness after one round misses flags before an RTE or RTR, which declare that they set all flags
  and use none although their use is forced to all (`FlagLiveness.SoundIffForcedUsesDeclared`).
  Since `quiet_compile` is set, the loop that would repair this never goes round again.
- `flush_icache` is meant to spare some blocks, but its test can never hold (`CodePages.NothingIsSpared`).
- A WAIT that is met with a clear bit above a set one in its horizontal mask can notice how often the Copper
  is updated; without such WAITs on the way no run can (`Copper.SplitInvariantIffTopMask`). All entries of
  `waitmasktab` end up the same (`Copper.GenWaitMaskTab`).
- A cascaded timer deadline computed in 32 bits can be cut down to zero; then the event is lost and an
  assert fails later (`CiaEvents.HandlerRunsIffSchedulable`, `CiaEvents.CutDeadlineMakesAssertFail`).
- The check of the sample rate lets through rates whose sample interval is below one cycle, and
  then the average is taken over no cycles (`AudioClock.DivisorIsPositiveIff`).
- Of a sample of two words the second one is left out the first time round, and only of such a sample
  (`AudioClock.PlayedInOrderIff`).
- Writes to the interrupt request register do not bring the audio side up to date
  (`AudioClock.InterruptWritesAreNotSynced`); this can be noticed if and only if a channel handler that is
  due depends on the written bits (`AudioClock.HandlerCommutesIff`, `AudioClock.SyncNeverShowsIff`).
- When shrinking fails, emptying a fifo byte by byte copies quadratically much
  (`Fifo.FailedShrinkingIsQuadratic`); growing can wrap around (`Fifo.WriteAssertFailsIff`).
- The file header message states four bytes too few, so long names do not arrive
  (`Ipc.FileRoundTripIff`).
- `uade_MD5Final` clears a pointer's worth of the context only (`Md5.Context.Final`).

## Model

| member | source | states |
|---|---|---|
| `CommPipe.InitIsGood` | src/include/commpipe.h:29-42 | a freshly initialised pipe with at least two slots and `chunks < size` satisfies the invariant |
| `CommPipe.WriterKeeps` | src/include/commpipe.h:62-90 | each single step of a write, on the locked path or on the fast path without the lock, keeps the invariant: the lock has one owner, each sleep flag stands for exactly one token, the fast path is only taken while there is room, and nothing is lost |
| `CommPipe.ReaderKeeps` | src/include/commpipe.h:92-112 | each single step of a blocking read keeps the same invariant |
| `CommPipe.StepKeeps` | src/include/commpipe.h:52-112 | so does a step of either thread, or the start of an operation |
| `CommPipe.RunKeeps` | src/include/commpipe.h:52-112 | so does every run, whatever the interleaving |
| `CommPipe.ReadsArePrefixOfWrites` | src/include/commpipe.h:52-112 | under every interleaving the values read are a prefix of the values written, in order, and the difference is exactly what the reader holds, the ring contains and the writer holds |
| `CommPipe.NoUnreadSlotOverwritten` | src/include/commpipe.h:62-90 | while a store or an index update is pending, the slot it goes to holds no unread item, and the reader is not inside the ring |
| `CommPipe.SemaphoresStayBinary` | src/include/commpipe.h:52-112 | no semaphore ever exceeds one, and the lock is held by at most one thread |
| `CommPipe.NeverAsleepTogether` | src/include/commpipe.h:52-112 | when neither thread can move, at most one of them sleeps, for the reason it should: too few items with the writer idle, or a full ring with the reader idle |
| `CommPipe.BlockedWriterHasLiveReader` | src/include/commpipe.h:66-112 | a writer asleep on a full pipe has its flag up or its wake-up about to be posted, and a sleeping reader has its wake-up posted already |
| `CommPipe.UrgentWriteWakes` | src/include/commpipe.h:52-60 | in every run, once a write with no_buffer has returned, a reader that has gone to sleep has its wake-up posted unless there is nothing to read; after a buffered write, once at least `chunks` items are queued |
| `CommPipe.BufferedWritesWait` | src/include/commpipe.h:52-60 | without urgent writes the reader is only woken when at least `chunks` items are there for it |
| `CommPipe.FastPathTakesNoLock` | src/include/commpipe.h:62-77 | a write that finds the reader asleep leaves the lock alone from its first step to its last |
| `CommPipe.WriterStepUsesWork` | src/include/commpipe.h:62-90 | every step brings a write closer to its end, whatever the reader does |
| `CommPipe.ReaderStepUsesWork` | src/include/commpipe.h:92-112 | every step brings a read closer to its end, whatever the writer does |
| `CommPipe.OperationsAreBounded` | src/include/commpipe.h:52-112 | from any state at most 26 steps are possible before both operations have ended or fallen asleep: no livelock |
| `CommPipe.UnnoticedWrite` | src/include/commpipe.h:52-77 | with `chunks >= size` a buffered write never wakes a sleeping reader, full ring or not |
| `CommPipe.LargeBatchLosesData` | src/include/commpipe.h:52-112 | with `chunks >= size` there is a run after which the values read are not a prefix of those written |
| `CommPipe.LosslessIffBatchBelowSize` | src/include/commpipe.h:52-112 | the values read are a prefix of those written in every run if and only if `chunks < size` |
| `RegisterCache.RegisterMapping.constructor` | src/compiler.c:3507-3515 | with empty tables every 68k register has the value of its home slot, and nothing is cached |
| `RegisterCache.AddIsModular` | src/compiler.c:1269-1282 | the sum that lea leaves is the sum modulo 2^32 |
| `RegisterCache.LongInMemory` | src/compiler.c:2137-2158 | a long in memory is its four bytes at consecutive addresses, modulo 2^32, the most significant first, and nothing else of memory changes when it is stored |
| `RegisterCache.SwapsAre` | src/compiler.c:1366-1382 | a swapped long has its bytes in the opposite order, a swapped word its two low ones |
| `RegisterCache.RegisterMapping.ForceByteOrder` | src/compiler.c:1366-1382 | the register changes to the wanted byte order and keeps the number it stands for; nothing else changes |
| `RegisterCache.RegisterMapping.Reorder` | src/compiler.c:1366-1382 | so in a consistent state no logical value changes, and afterwards a clean register may be in swapped order |
| `RegisterCache.RegisterMapping.OffsetReg` | src/compiler.c:1387-1402 | the register grows by the constant, other registers keep theirs, and no 68k register changes its logical value |
| `RegisterCache.RegisterMapping.GetUnused` | src/compiler.c:1404-1418 | the first register that neither caches nor is in use, and -1 only if there is none |
| `RegisterCache.RegisterMapping.SyncReg` | src/compiler.c:1425-1455 | the home slot receives the value with its pending offset; with may_clobber the register does too, otherwise it keeps its own; registers in the cache or in use are left alone; a clean register without an offset is not touched, whatever its byte order |
| `RegisterCache.RegisterMapping.SyncOne` | src/compiler.c:1461-1477 | one register is written home, or taken out of the cache, without changing a logical value |
| `RegisterCache.RegisterMapping.SyncRegCache` | src/compiler.c:1457-1479 | afterwards every home slot holds the logical value of its 68k register; with flush nothing is cached any more |
| `RegisterCache.RegisterMapping.RemoveFromCache` | src/compiler.c:1481-1509 | a register leaves the cache and both maps without changing a logical value; a clean one in swapped order stays swapped and is called normal |
| `RegisterCache.RegisterMapping.SyncOut` | src/compiler.c:1481-1505 | first its map entry is dropped and its value, offset included, is at home; registers in the cache or in use are left alone |
| `RegisterCache.RegisterMapping.FreeEntry` | src/compiler.c:1527-1533 | the chosen register is empty, what it cached is at home, and no other register has changed |
| `RegisterCache.RegisterMapping.GetFree` | src/compiler.c:1511-1537 | a register not in use, the best one for the preferred set (empty before occupied, preferred before others), -1 only if all are in use; no logical value changes |
| `RegisterCache.RegisterMapping.Unlock` | src/compiler.c:1567-1574 | one user fewer, the lock is dropped with the last one; no logical value changes |
| `RegisterCache.RegisterMapping.LockReg` | src/compiler.c:1576-1598 | a compatible lock is added and counted; no logical value changes |
| `RegisterCache.RegisterMapping.Load` | src/compiler.c:1619-1629 | an uncached 68k register is brought into a register nobody uses, with no pending offset, and registers in use keep their content; other cached registers are disturbed only if there is no room |
| `RegisterCache.RegisterMapping.Transfer` | src/compiler.c:1632-1671 | a cached 68k register that is locked by somebody else moves to another x86 register, and the old one keeps its content for its user |
| `RegisterCache.RegisterMapping.Materialise` | src/compiler.c:1673-1680 | the pending offset is added to the register itself, and the logical value stays |
| `RegisterCache.RegisterMapping.Place` | src/compiler.c:1600-1671 | the 68k register is in a register that the new lock does not conflict with, the one it was in if that will do; all logical values and the numbers in registers in use stay |
| `RegisterCache.RegisterMapping.GetAndLock` | src/compiler.c:1600-1683 | the 68k register ends up in the returned x86 register with the lock wanted, compatible with the lock it had; all logical values and the numbers in all locked registers stay the same; which register that is, and what the cache holds afterwards, depends on the compile-time tables alone |
| `RegisterCache.RegisterMapping.StepAddress` | src/compiler.c:1867-1879 | -(An) takes the step away from the number in An, (An)+ adds it, modulo 2^32, and no other register changes, and the effective address is An after or before it |
| `RegisterCache.RegisterMapping.PrepareAddress` | src/compiler.c:1853-1865 | the register and the constant returned sum up to the effective address of d(An), and no logical value changes |
| `RegisterCache.RegisterMapping.StoreLong` | src/compiler.c:2715-2729 | MOVE.L to memory puts the four bytes of the logical value, most significant first, at the effective address; the register is left in swapped order even when it is clean |
| `RegisterCache.RegisterMapping.FetchMem` | src/compiler.c:2137-2158 | a long is read into an unused register, which stands for the number at the effective address |
| `RegisterCache.RegisterMapping.LockDest` | src/compiler.c:2325-2337 | the cached destination is locked with no pending offset, and the operation is scrambled exactly if it is a data register that was in swapped order |
| `RegisterCache.RegisterMapping.LoadLong` | src/compiler.c:3952-3968 | MOVE.L from memory makes the destination the big-endian long at the effective address, whichever of the ways of compile_loadeas and compile_storeea is taken |
| `RegisterCache.RegisterMapping.LoadOver` | src/compiler.c:2582-2603 | the same when the destination is cached, straight into its register if that is in swapped order |
| `RegisterCache.RegisterMapping.LoadFresh` | src/compiler.c:2582-2613 | the same when it is not cached, through a register fetched into |
| `RegisterCache.RegisterMapping.MoveToHome` | src/compiler.c:2447-2480 | a cached source whose destination is not cached becomes the cache register of the destination, with its value |
| `RegisterCache.RegisterMapping.MoveFromHome` | src/compiler.c:2527-2590 | an uncached source is read from its home slot into the register of the destination |
| `RegisterCache.RegisterMapping.LockBoth` | src/compiler.c:2325-2359 | both registers are exclusively locked in different x86 registers, no logical value changes, and whether the operation is scrambled is decided by the tables before the instruction |
| `RegisterCache.RegisterMapping.LockSource` | src/compiler.c:2338-2359 | the source is locked with no pending offset, and the operation stays scrambled only if the source is not in normal order |
| `RegisterCache.RegisterMapping.StoreMoved` | src/compiler.c:2375-2386 | the destination becomes the source, byte-reversed exactly if the operation is scrambled and the source clean |
| `RegisterCache.RegisterMapping.MoveLong` | src/compiler.c:2500-2626 | MOVE.L between registers makes the destination the source, except that the bytes are reversed exactly when the tables before the instruction say so (Reverses): both cached without a pending offset, the destination a data register in swapped order, the source clean and not in normal order |
| `RegisterCache.RegisterMapping.Evict` | src/compiler.c:2452-2455 | a 68k register leaves the cache wherever it was; registers in use and all logical values stay |
| `RegisterCache.RegisterMapping.WriteBack` | src/compiler.c:2447-2480 | the destination gets the result register plus its offset as its logical value, misread exactly if that register was cached elsewhere, clean and swapped; all other 68k registers keep theirs |
| `RegisterCache.RegisterMapping.TakeOver` | src/compiler.c:2447-2480 | the case in which the result register is not the cache register of the destination: whatever either of them cached goes home first |
| `RegisterCache.RegisterMapping.NewInstruction` | src/compiler.c:3530-3535 | dropping the locks leaves all logical values |
| `RegisterCache.OffsetKeeps` | src/compiler.c:1387-1402 | moving an amount between a register and its pending offset changes no logical value |
| `RegisterCache.RemovalKeeps` | src/compiler.c:1481-1509 | syncing and unmapping a register changes no logical value and keeps the maps inverse |
| `RegisterCache.ForceKeeps` | src/compiler.c:1366-1382 | changing the byte order together with the content changes no number |
| `RegisterCache.LoadKeeps` | src/compiler.c:1619-1629 | mapping an empty register to an uncached 68k register after loading its home slot changes no logical value |
| `RegisterCache.TransferKeeps` | src/compiler.c:1632-1671 | re-mapping a 68k register to a copy with its offset added changes no logical value |
| `RegisterCache.MaterialiseKeeps` | src/compiler.c:1673-1680 | adding the pending offset to the register and clearing it changes no logical value |
| `RegisterCache.SyncedKeeps` | src/compiler.c:1457-1479 | writing home without or with emptying the entry changes no logical value |
| `RegisterCache.AdoptKeeps` | src/compiler.c:2447-2480 | making an empty register the cache register of an unmapped slot changes that slot only, to the register plus its offset |
| `RegisterCache.RefillKeeps` | src/compiler.c:2582-2603 | overwriting the cache register of a slot changes that slot only |
| `RegisterCache.SwappedAccess` | src/compiler.c:2715-2729 | swapping on the x86 side is exactly what the byte order of the 68k needs, for reading and for writing |
| `RegisterCache.ReversedMove` | src/compiler.c:2605-2613 | storing D0, storing D1 and moving D0 to D1 leaves D1 with the bytes of D0 reversed, for any contents of registers and memory |
| `RegisterCache.Execute` | src/compiler.c:1366-2745 | one operation through the cache changes registers and memory exactly as the operation done directly, but for the moves that the tables before it say are reversed; the tables after it depend on the tables before it and on no data of the program |
| `RegisterCache.RunBlock` | src/compiler.c:1366-2745 | for any block of operations home slots and memory end up as if every operation had been carried out on them directly, whatever was cached, swapped, offset, evicted or transferred on the way, but for exactly the moves that Reversals names, which are known before the block runs |
| `RegisterCache.StepBlock` | src/compiler.c:1867-1879 | a block that only steps An leaves in its home slot the number less the step for -(An), plus the step for (An)+, and nothing else of registers and memory changes |
| `RegisterCache.StepIsModular` | src/compiler.c:1867-1879 | the step goes down for -(An) and up for (An)+, modulo 2^32 |
| `RegisterCache.ReversesWhen` | src/compiler.c:2325-2359 | the condition for a reversed move, entry by entry of the table |
| `RegisterCache.OpKeepsNormal` | src/compiler.c:2717-2724 | only storing a register to memory brings a clean register into swapped order |
| `RegisterCache.NoStoreNoReversal` | src/compiler.c:1366-2745 | a block without stores that starts with no clean register in swapped order reverses no bytes |
| `RegisterCache.ReversingReverses` | src/compiler.c:2325-2359 | of the three operations of the failing block, from an empty cache, exactly the move is a reversed one |
| `RegisterCache.WhereIsMap` | src/compiler.c:1600-1612 | the compile-time description finds a 68k register exactly where the maps have it |
| `RegisterCache.MoveDecided` | src/compiler.c:2325-2359 | after both locks the operation is scrambled with a clean source exactly if the tables before the instruction satisfy Reverses |
| `RegisterCache.GotBusy` | src/compiler.c:1600-1671 | bringing in one register never hands out or changes a register that is exclusively locked, but may take its 68k register out of it |
| `FlagLiveness.ForwardIsBackward` | src/compiler.c:954-1073 | the forward scan of a block finds what a backward pass from all flags finds, if forced uses hide no declared write |
| `FlagLiveness.CoverContainsLive` | src/compiler.c:1076-1126 | starts to which no pass adds anything contain every flag that some path can read before anything writes it |
| `FlagLiveness.PassKeepsCover` | src/compiler.c:1108-1123 | a backward pass from such starts only takes flags away, and leaves such starts |
| `FlagLiveness.RoundShrinks` | src/compiler.c:1076-1126 | so does a whole round, or any part of it |
| `FlagLiveness.RecordedCovers` | src/compiler.c:1111-1119 | one round from such starts records every live flag at every instruction |
| `FlagLiveness.PassEquations` | src/compiler.c:1091-1123 | flag by flag: what is recorded after an instruction is what the next one uses, or what is live after that and not set by it; at the end of a block everything if translation stops, else what is live at the start of a successor |
| `FlagLiveness.LiveMeans` | src/compiler.c:942-1126 | a flag is live if it is used here, or not set here and live afterwards, along some path; where translation stops every flag is |
| `FlagLiveness.InitialCovers` | src/compiler.c:954-1073 | the starts found by the forward scan are such starts, if forced uses hide no declared write |
| `FlagLiveness.OneRoundIsSound` | src/compiler.c:954-1126 | then one round records, for every instruction of every block, every flag that some path may still read before writing |
| `FlagLiveness.DishonestTerminatorIsUnsound` | src/compiler.c:1007-1016 | any forced terminator with a declared write that is not a declared use makes one round miss that flag in an earlier block |
| `FlagLiveness.SoundIffForcedUsesDeclared` | src/compiler.c:954-1126 | one round is sound for all programs with a given forced terminator if and only if that declares as used every flag it declares as set |
| `FlagLiveness.TableTerminators` | src/table68k:119-160 | of the eight instructions that end a block with forced uses exactly RTE and RTR fail that condition |
| `FlagLiveness.TableColumns` | src/table68k:119-160 | what each of the eight is declared to set and to use |
| `FlagLiveness.ForwardMisses` | src/compiler.c:954-1073 | whatever is declared, the forward scan misses only flags that the block itself reads first |
| `FlagLiveness.RoundsJoin` | src/compiler.c:1076-1126 | the rounds commute with the union with settled starts |
| `FlagLiveness.RoundsCover` | src/compiler.c:1076-1126 | whatever is declared, after five rounds per block the starts are such that no pass adds anything |
| `FlagLiveness.LaterRoundsShrink` | src/compiler.c:1121-1126 | from then on each round changes nothing or lowers the total number of live flags |
| `FlagLiveness.RepeatedRoundsSettle` | src/compiler.c:1076-1126 | rounds repeated while `changed` is set come to an end, for every program, within ten rounds per block |
| `FlagLiveness.SettledCovers` | src/compiler.c:1108-1123 | starts that a round leaves unchanged are such that no pass adds anything |
| `FlagLiveness.Scanner.constructor` | src/compiler.c:942-1073 | the forward loop over the blocks leaves the scan of each block |
| `FlagLiveness.Scanner.ScanForward` | src/compiler.c:960-989 | the loop with `live_at_start` and `may_clear_las` computes the forward scan |
| `FlagLiveness.Scanner.PassBackward` | src/compiler.c:1091-1123 | the loop from the last instruction to the first records what is live after each one, and the new start |
| `FlagLiveness.Scanner.Round` | src/compiler.c:1078-1124 | one loop over the blocks is one round, and `changed` says whether some start changed |
| `FlagLiveness.Scanner.BackwardRounds` | src/compiler.c:1076-1126 | the outer loop ends; if `changed` is honoured the record contains every live flag for every program, and with `quiet_compile` whenever forced uses hide no declared write |
| `CodePages.AllocKeeps` | src/compiler.c:116-163 | allocation hands out units that were free, enough of them, and changes no other block |
| `CodePages.NewPageKeeps` | src/compiler.c:77-91 | adding a page of which only the header is in use leaves the heap consistent |
| `CodePages.NewPageOnlyWhenNeeded` | src/compiler.c:130-143 | a new page is made if and only if no page has a long enough free run |
| `CodePages.EmitKeeps` | src/compiler.c:1185-1192 | emitted code is stored up to the end of the allocated units, and every other block keeps its code |
| `CodePages.TrimShiftIs` | src/compiler.c:4510-4513 | the shifting loop stops where the block starts; it runs out of bits exactly when the code is longer than the block and the block does not end with the page |
| `CodePages.TrimKeeps` | src/compiler.c:4504-4519 | the trimmed mask covers exactly the units that the code needs, from the start of the block; the rest is free again and other blocks stay |
| `CodePages.CompileKeeps` | src/compiler.c:4495-4527 | a compilation, successful or given up, leaves a consistent heap and touches no other block, and a successful one leaves its whole code in place |
| `CodePages.ReleaseKeeps` | src/compiler.c:4522-4527 | giving a block up frees exactly its units |
| `CodePages.NothingIsSpared` | src/compiler.c:255 | the address test of flush_icache holds for no address |
| `CodePages.FlushEmpties` | src/compiler.c:247-264 | so after a flush no block owns code and every page has only its header in use |
| `CodePages.RunKeeps` | src/compiler.c:116-264 | over any run, live blocks hold disjoint contiguous runs of units whose union with the header is exactly the page mask, and their code is intact |
| `CodePages.PagesInRuns` | src/compiler.c:77-264 | in every run: runs of 512-byte units behind the header of a 16384-byte page, no unit in two blocks, the page mask exactly the header and the units of the blocks, the code of each block where its run begins |
| `CodePages.CompileSucceeds` | src/compiler.c:4495-4527 | code of at most 32 bytes for each instruction is compiled, unless memory is refused or a whole page would be needed, and kept in as few units as it takes |
| `CodePages.CodeStays` | src/compiler.c:116-264 | until the next flush a compiled block keeps its place and its code byte for byte |
| `CodePages.Compiler.Search` | src/compiler.c:130-137 | the loops find the first page with room, and in it the first run that is long enough |
| `CodePages.Compiler.TakeAll` | src/compiler.c:149-155 | the mask is extended to the whole free run |
| `CodePages.Compiler.AllocCode` | src/compiler.c:116-163 | the whole allocation is the one described |
| `CodePages.Compiler.Assemble` | src/compiler.c:1185-1192 | byte by byte, the code goes to the block until it is full, and overflowing is noticed |
| `CodePages.Compiler.TrimBlock` | src/compiler.c:4504-4519 | the trimming code carries out the trimming described |
| `CodePages.Compiler.ShiftIntoPlace` | src/compiler.c:4510-4513 | the loop shifts the mask to its place |
| `CodePages.Compiler.CompileBlock` | src/compiler.c:4495-4527 | compiling keeps the heap consistent and is the step of the runs above |
| `CodePages.Compiler.FlushAll` | src/compiler.c:247-264 | the loop over the blocks is the flush described |
| `Copper.BodyMoves` | src/custom.c:797-938 | a round of the loop keeps the position even and inside the line, so the equality test at the end of the line is never stepped past, and the loops end |
| `Copper.LoopInTwo` | src/custom.c:784-938 | running to a position and then on from there, without re-entering, is running straight on |
| `Copper.TopMaskMonotone` | src/custom.c:868-906 | a mask without a clear bit above a set one never reverses the order of two positions |
| `Copper.FullMaskIsGood` | src/custom.c:868-906 | the full horizontal mask is of that kind |
| `Copper.JumpHits` | src/custom.c:876-895 | after the jump ahead the comparison of the WAIT succeeds at once |
| `Copper.ReenterHarmless` | src/custom.c:776-783 | sending a WAIT back to its first stage on entry changes nothing but the name of the stage |
| `Copper.SplitInvariance` | src/custom.c:770-939 | running to h1 and then to h2 does the same MOVEs at the same positions and ends in the same state as running to h2 at once, if the WAITs that the Copper meets on its way to h1 have no clear bit above a set one in their horizontal masks; nothing is asked of the rest of memory |
| `Copper.LoopSettles` | src/custom.c:838-906 | after meeting only such WAITs up to some position, a WAIT in its second stage has no jump ahead left |
| `Copper.BadMaskIsVisible` | src/custom.c:770-939 | for every other even mask there is a program in which the Copper meets only a WAIT with that mask, which is in memory right before the instruction pointer, and a split that changes the outcome |
| `Copper.SplitInvariantIffTopMask` | src/custom.c:770-939 | for any set of horizontal masks: no split of a run whose WAITs, as met, have masks of the set is ever visible if and only if none of these masks has a clear bit above a set one |
| `Copper.BodyLog` | src/custom.c:806-836 | a round carries out at most one MOVE, at the current position |
| `Copper.BodyStill` | src/custom.c:997-1118 | a round without a dangerous MOVE is the same in the forecast and in the real loop |
| `Copper.ForecastIsExact` | src/custom.c:961-1127 | the forecast is the position of the first dangerous MOVE that the real loop carries out on the line, and none if there is none |
| `Copper.GenWaitMaskTab` | src/custom.c:1394-1396 | every entry of the mask table ends as the complement of 255 |
| `CopperProgram.MoveIsCarriedOut` | src/custom.c:807-836 | a MOVE below 0x80, or 0x40 or none with the danger bit of COPCON, stops the Copper; 0x088 and 0x08A take ip to cop1lc and cop2lc; every other register gets the position and the value, and the next word is fetched |
| `CopperProgram.JumpsGoThere` | src/custom.c:815-825 | after a MOVE to 0x088 the next word fetched is the first of the first program, after 0x08A that of the second, whatever holds the Copper up in between |
| `CopperProgram.NextWord` | src/custom.c:833-836 | the next word fetched is the one that ip points to, or the run ends before |
| `CopperProgram.FirstWord` | src/custom.c:833-836 | the first word of an instruction is fetched when the bus is free |
| `CopperProgram.SecondWord` | src/custom.c:838-869 | the second word makes a MOVE of an even first word, a WAIT or the end of an odd one, or a SKIP, which passes over the next instruction exactly if its position is reached and the blitter is done or does not matter |
| `CopperProgram.SkippedInstruction` | src/custom.c:841-846 | an instruction that is passed over is fetched and has no effect |
| `CopperProgram.HorizontalBits` | src/custom.c:855-857 | the horizontal comparison is of bits 1 to 7 that the second word selects |
| `CopperProgram.VerticalBits` | src/custom.c:854-856 | the vertical comparison is of bit 7 of the line and the others that the second word selects |
| `CopperProgram.WaitsForLine` | src/custom.c:900-908 | a WAIT for a later line gives up the rest of this one |
| `CopperProgram.WaitEnds` | src/custom.c:896-925 | a WAIT in its second stage ends with the first comparison that succeeds, or goes on to wait for the blitter |
| `CopperProgram.WaitJumps` | src/custom.c:876-895 | on the right line a WAIT with a good mask ends at the count compared with, or two cycles on if that is past |
| `CopperProgram.WaitComes` | src/custom.c:868-880 | a WAIT that has just been read needs the bus, then jumps or goes into its second stage |
| `CopperProgram.BusTaken` | src/custom.c:726-768 | when the bus is taken: at the end of the line, and by planes five and up in the display window |
| `CopperProgram.WindowIs` | src/custom.c:714-722 | the display window opens on its first line and closes on its last |
| `CopperProgram.LineEnds` | src/custom.c:785-800 | at position 226 the next line begins; without DMA the Copper stops |
| `CopperProgram.CountAdvances` | src/custom.c:933-935 | two cycles pass, and the count stands still only where eight planes are displayed |
| `CopperProgram.DangerousRegisters` | src/custom.c:950-959 | the forecast looks out for all registers but those from 0x0E0 to 0x1BF |
| `Copper.CopperUnit.UpdateCopper1` | src/custom.c:770-939 | the loop over the fields carries out the run that the lemmas are about |
| `Copper.CopperUnit.UpdateCopper` | src/custom.c:941-948 | nothing is done when the Copper is already there or stopped |
| `Copper.CopperUnit.PrepareCopper1` | src/custom.c:961-1127 | the event is active if and only if the forecast finds a dangerous MOVE, and is due at its position |
| `Copper.CopperUnit.Round` | src/custom.c:797-938 | one pass of the switch with what follows it is one round |
| `Copper.CopperUnit.StepWait` | src/custom.c:868-906 | the two stages of a WAIT, with the jump ahead |
| `Copper.CopperUnit.StepCompare` | src/custom.c:896-925 | the comparison, its success and its retry |
| `Copper.CopperUnit.StepRead1` | src/custom.c:807-836 | an instruction word is fetched, or a pending MOVE carried out first, unless the bus is taken |
| `Copper.CopperUnit.StepRead2` | src/custom.c:838-869 | the second word decides between MOVE, WAIT, SKIP and stop; for WAIT and SKIP the comparison values are those of the two words |
| `Copper.CopperUnit.StepTop` | src/custom.c:785-800 | the start of a round: end of line, DMA switched off, display window |
| `CiaEvents.CountIsClocks` | src/cia.c:101-164 | handing out n clocks at once is n single clocks, in every mode of both timers, if the asserts hold |
| `CiaEvents.DeadlineCoversClocked` | src/cia.c:166-222 | the deadline never lies behind the next underflow of a timer that counts clocks, and is positive unless it was cut to zero |
| `CiaEvents.ProductInRangeIsSchedulable` | src/cia.c:166-222 | a product within the range of int, for each cascaded timer whose timer A counts, is never cut to zero |
| `CiaEvents.UpdateInTime` | src/cia.c:101-164 | an update no later than the event finds every assert true |
| `CiaEvents.WriteKeeps` | src/cia.c:428-603 | every register write keeps the invariant: deadlines ahead, cycles conserved |
| `CiaEvents.TimerAIsLoaded` | src/cia.c:428-443 | writing the low and then the high byte of a time loads latch A with it, and the counter unless it is running in continuous mode; in one-shot mode the timer starts; timer B is left alone |
| `CiaEvents.TimerBIsLoaded` | src/cia.c:444-459 | the same for timer B and latch B; timer A is left alone |
| `CiaEvents.ForceLoadIsAStrobe` | src/cia.c:489-507 | a control register never keeps the force-load bit but all others, and the bit reloads its own timer only |
| `CiaTimers.WriteReaches` | src/cia.c:428-603 | a write reaches the chip that it is for; the other one stays as the update has left it, and registers that are not of the timers change nothing |
| `CiaTimers.TimerALoaded` | src/cia.c:428-443 | for either chip, low byte and then high byte load its own latch A, and its own counter unless it runs and is not in one-shot mode; nothing else of either chip changes |
| `CiaTimers.TimerBLoaded` | src/cia.c:444-459 | the same for timer B |
| `CiaTimers.ControlWritten` | src/cia.c:489-507 | for either chip, a control register is stored without its force-load bit, which loads its own timer |
| `CiaTimers.PeriodA` | src/cia.c:101-164 | a timer that is not in one-shot mode takes one clock more than its latch says, round after round, and asks for an interrupt in each |
| `CiaTimers.PeriodB` | src/cia.c:101-164 | the same for timer B |
| `CiaTimers.OneShotA` | src/cia.c:101-164 | with bit 3 of its control register the timer stops with its first underflow, loaded again |
| `CiaTimers.OneShotB` | src/cia.c:101-164 | the same for timer B |
| `CiaTimers.PeriodOfBoth` | src/cia.c:101-164 | a cascaded timer B takes the product of the two periods |
| `CiaTimers.NextEvent` | src/cia.c:166-222 | the distance to the event is the smallest of the times of the timers that count: five cycles for each clock, less what has passed |
| `CiaTimers.CascadedEvent` | src/cia.c:166-222 | a cascaded timer adds the rounds of timer A, modulo 2^32 as an int |
| `CiaTimers.EventIsSet` | src/cia.c:166-222 | the event is set to that distance from now |
| `CiaTimers.ResetIs` | src/cia.c:608-629 | after a reset all counters and latches are full, the timers stand still and no event is due |
| `CiaEvents.TickKeeps` | src/include/events.h:60-78 | so does every cycle, with the handlers that are due in it |
| `CiaEvents.RunKeeps` | src/include/events.h:60-78 | so does any run of cycles and register writes |
| `CiaEvents.NoAssertFires` | src/cia.c:101-164 | over any run from reset in which no deadline was cut to zero no assert fires, and no active event is overdue |
| `CiaEvents.ProductsInRangeRun` | src/cia.c:101-222 | so no assert fires and no active event is overdue in any run from reset in which the cascade products were within the range of int whenever the timers were scheduled |
| `CiaEvents.CyclesAreConserved` | src/cia.c:101-164 | five times the clocks handed out plus both remainders is always the number of cycles from reset to the last update |
| `CiaEvents.CiaFiresExactly` | src/include/events.h:60-78 | until the due cycle the timers and the event are left alone, and exactly then the handler runs |
| `CiaEvents.TickAtDue` | src/cia.c:224-228 | in the due cycle both chips are handed every clock since the last update, whichever handler runs first |
| `CiaEvents.Quiet` | src/include/events.h:60-80 | with the next event out of reach or passed over, cycles only count |
| `CiaEvents.HsyncIsPeriodic` | src/custom.c:1239-1240 | the line length stays the same and the current line is always the one the counter is in: no drift |
| `CiaEvents.HandlerRunsIffSchedulable` | src/cia.c:166-222 | left to itself, the machine runs CIA_handler again if and only if no cascaded deadline was cut to zero |
| `CiaEvents.LostEventFails` | src/cia.c:101-164 | once the event is lost, the next update fails an assert if and only if some timer of either CIA that counts clocks is handed more than it can take, and for every such timer it does once its time is over |
| `CiaEvents.CutDeadlineMakesAssertFail` | src/cia.c:166-222 | nine register writes after reset can bring this about |
| `CiaEvents.Machine.Reset` | src/cia.c:608-629 | the CIAs start over and the event is worked out afresh |
| `CiaEvents.Machine.EventsSchedule` | src/include/events.h:36-58 | nextevent is the nearest active event |
| `CiaEvents.Machine.CountDown` | src/cia.c:101-164 | the timer section fails its assert exactly when too many clocks are handed out, and otherwise counts them all |
| `CiaEvents.Machine.CiaUpdate` | src/cia.c:101-164 | the whole update is the one described |
| `CiaEvents.Machine.OneCycle` | src/include/events.h:62-77 | one cycle runs exactly the handlers that are due in it |
| `CiaEvents.Machine.Times` | src/cia.c:166-222 | the two deadlines of one CIA, with the cascaded one in 32 bits |
| `CiaEvents.Machine.Earliest` | src/cia.c:196-216 | the result is the earliest of the deadlines that exist |
| `CiaEvents.Machine.Due` | src/cia.c:166-222 | whether an event is needed and how soon |
| `CiaEvents.Machine.CiaCalctimers` | src/cia.c:166-222 | scheduling is the one described |
| `CiaEvents.Machine.CiaHandler` | src/cia.c:224-228 | the handler updates and schedules |
| `CiaEvents.Machine.DoCycles` | src/include/events.h:60-81 | skipping ahead is in every case the same as that many single cycles |
| `CiaEvents.Machine.WriteCia` | src/cia.c:428-603 | a write updates first, stores, and schedules again |
| `AudioClock.StepKeeps` | src/audio.c:531-580 | after a round no busy channel has a counter at zero, the sample clock moves by the cycles taken and by one interval per sample |
| `AudioClock.HandleKeeps` | src/audio.c:298-418 | the channel state machine leaves its channel idle or with a positive counter, leaves other counters alone, and makes no period zero |
| `AudioClock.HandleReaches` | src/audio.c:298-418 | it reaches no further than the next channel, and there only period and volume; it requests no interrupt but its own |
| `AudioClock.StepSplits` | src/audio.c:531-580 | a round that is cut short is taken up again where it was left |
| `AudioClock.UpdateAdds` | src/audio.c:526-583 | advancing m + n cycles in one call is advancing m and then n: same samples, channels and accumulators |
| `AudioClock.UpdateIsCycles` | src/audio.c:526-583 | jumping from event to event gives exactly what single cycles give |
| `AudioClock.SampleRepeats` | src/custom.c:1249-1278 | a playing channel fetches word after word, and with the last word of its sample it starts over at the location and length latched by then, with an interrupt pending; a length of zero is 65536 words |
| `AudioClock.SampleLoops` | src/audio.c:298-418 | once DMA is switched on for an idle channel, handlers and line fetches may follow each other in any order: the words fetched are those of the sample over and over, the handlers take them one after the other without leaving one out, and the channel puts out the high and then the low byte of the one taken |
| `AudioClock.PlayedInOrderIff` | src/custom.c:1249-1278 | every word is the one whose turn it is, in all such runs, if and only if the sample is not two words long |
| `AudioClock.SampleTimes` | src/audio.c:526-583 | with an interval of at least one, the k-th sample is out exactly when cycle floor(k * interval + 1/2) is reached: no drift |
| `AudioClock.SampleTimesInRuns` | src/audio.c:526-583 | in every run of register writes, DMA, interrupt requests and extra calls the samples come at these times: nothing moves a single one |
| `AudioClock.DivisorIsPositiveIff` | src/audio.c:204-216 | every average is over at least one cycle, for ever, if and only if the sample interval is at least one cycle |
| `AudioClock.HighestRateDividesByZero` | src/sd-sound-generic.c:67-70 | the highest rate that the check admits divides by zero in the end |
| `AudioClock.AccumulatorsFit` | src/audio.c:260-272 | the accumulators stay within int if 128 * volume * (interval + 1) does |
| `AudioSound.SoundOfRun` | src/audio.c:204-216 | over any run from reset, once ADKCON has been written, the k-th pair put out is for cycles floor(k * interval + 1/2) up to floor((k + 1) * interval + 1/2): on each side the levels of two channels, averaged over these cycles and rounded toward zero |
| `AudioSound.SoundOfLazyRun` | src/audio.c:526-583 | the same for the machine that catches up late, when interrupt requests are written harmlessly |
| `AudioSound.SteadySound` | src/audio.c:260-272 | if every channel keeps sample and volume, the pair is made of the products, and a channel that modulates the next one adds nothing |
| `AudioSound.DueIsNearest` | src/audio.c:545-552 | the times of the samples are the nearest cycles, halves rounded up |
| `AudioSound.NextChannel` | src/audio.c:367-411 | a channel that modulates hands the next one the word that it would play as its period, zero standing for the longest, or as its volume, and changes nothing else of it |
| `AudioSound.HandlerTimes` | src/audio.c:298-418 | a channel that is started takes one line and asks for an interrupt; then each half word lasts one period |
| `AudioSound.PlayedByCpu` | src/audio.c:381-411 | a channel played by the CPU stops after its word if the last request is unanswered, and otherwise asks again and goes on |
| `AudioSound.InterruptPerPass` | src/audio.c:298-418 | a channel played by DMA asks for an interrupt once for every time it comes to the last word of its sample, however handlers and lines follow each other |
| `AudioSound.BytesAndWords` | src/audio.c:338-339 | samples are signed bytes, and words are read from even addresses |
| `AudioSound.WriteReaches` | src/audio.c:586-667 | a register write reaches the channel that it is for and no other |
| `AudioSound.RegistersWritten` | src/audio.c:626-667 | a period of zero is the longest and one below 16 is 16; volumes of 64 and more are 63 |
| `AudioSound.LocationIsLoaded` | src/audio.c:606-624 | the location is written in two halves, in either order, and is even |
| `AudioSound.DataWritten` | src/audio.c:586-604 | a data word starts an idle channel whose last request is answered, and asks for an interrupt |
| `AudioSound.DmaSwitched` | src/custom.c:429-449 | DMA on starts an idle channel at its latched location and length, DMA off stops one that has not begun to play |
| `AudioSound.ResetIsSilent` | src/audio.c:421-443 | after a reset all channels are idle and silent and nothing has been put out |
| `AudioClock.RunIsEager` | src/audio.c:526-583 | in any run of register writes, interrupt requests and waits the lazy machine shows what an eager one has, provided every handler that is due when interrupt requests are written is harmless |
| `AudioClock.ExtraUpdatesAreHarmless` | src/audio.c:526-583 | in such runs calls of update_audio may be added or left out anywhere |
| `AudioClock.HandlerCommutesIff` | src/audio.c:298-418 | writing interrupt requests before or after one handler comes to the same if and only if the handler requests nothing that is not among them anyway, and a channel played by the CPU finds the same answer to its question |
| `AudioClock.HandlersCommuteIff` | src/audio.c:576-579 | the same for all the handlers that a round calls, one after the other |
| `AudioClock.UpdateCommutesIff` | src/audio.c:526-583 | the write may come before or after the pending cycles, in each of them, if and only if every handler called in them is harmless |
| `AudioClock.SyncNeverShowsIff` | src/custom.c:462-466 | a call of update_audio right before a write is never noticed in any of the next p cycles if and only if the handlers due in them are harmless |
| `AudioClock.NoHandlerDue` | src/audio.c:526-583 | with no channel due they are: sample output and counting never make the order show |
| `AudioClock.InterruptWritesAreNotSynced` | src/custom.c:462-466 | a concrete case in which the outcome depends on whether anybody called update_audio before the write |
| `AudioClock.AudioUnit.Prehandler` | src/audio.c:260-272 | each channel gathers its output for the cycles taken, and its counter goes down by them |
| `AudioClock.AudioUnit.AntiHandler` | src/audio.c:204-216 | the sample put out is the average of each channel, and the accumulators are emptied |
| `AudioClock.AudioUnit.HandleOwn` | src/audio.c:298-418 | the switch on the state of the channel, with its interrupt |
| `AudioClock.AudioUnit.AudioHandler` | src/audio.c:298-418 | both together, with the write to the interrupt request register |
| `AudioClock.AudioUnit.Handlers` | src/audio.c:576-579 | every channel whose counter is at zero gets its state machine called, in order |
| `AudioClock.AudioUnit.Nearest` | src/audio.c:537-540 | the result is the nearest underflow of a busy channel within the limit |
| `AudioClock.AudioUnit.BestEvtime` | src/audio.c:532-552 | the cycles to take are the fewest of the next underflow, the next sample and the end of the stretch |
| `AudioClock.AudioUnit.OneRound` | src/audio.c:531-580 | one pass of the loop is one round |
| `AudioClock.AudioUnit.UpdateAudio` | src/audio.c:526-583 | the loop carries out the whole update, and afterwards the audio side is up to date |
| `AudioClock.AudioUnit.Reset` | src/audio.c:421-443 | a reset leaves a valid state with the sample clock at its start |
| `AudioClock.AudioUnit.SetPeriod` | src/audio.c:626-646 | brings the audio side up to date first, then sets the clamped period |
| `AudioClock.AudioUnit.SetVolume` | src/audio.c:658-667 | brings the audio side up to date first, then sets the volume, at most 63 |
| `AudioClock.AudioUnit.SetData` | src/audio.c:586-604 | brings the audio side up to date first, then sets the data word and starts an idle channel |
| `AudioClock.AudioUnit.SetDma` | src/custom.c:428-451 | brings the audio side up to date first, then starts and stops channels |
| `AudioClock.AudioUnit.FetchLine` | src/custom.c:1246-1278 | brings the audio side up to date first, then fetches a word for every channel that asked for one |
| `ExtendedArith.AddxIsExact` | src/gencpu.c:1111-1119 | the sign-bit formulas give the true sum with its carry, the true signed overflow, and Z that only ever clears |
| `ExtendedArith.SubxIsExact` | src/gencpu.c:1070-1078 | the same for the difference with its borrow |
| `ExtendedArith.AddChainIsExact` | src/gencpu.c:1111-1119 | for limb strings of any length the result is the exact sum, what is carried out is in C and X, and Z, if set at the start, tells whether all of it is zero |
| `ExtendedArith.SubChainIsExact` | src/gencpu.c:1070-1078 | for limb strings of any length the result is the exact difference, with the borrow in C and X |
| `ExtendedArith.SubUndoesAdd` | src/gencpu.c:1070-1119 | subtracting what was added, from the same X, gives back the old limbs and the same X |
| `ExtendedArith.ZeroValue` | src/gencpu.c:678-681 | Z at the end of a chain that started with Z set is the test of the whole number for zero |
| `ExtendedArith.AbcdIsExact` | src/gencpu.c:1120-1136 | two valid digit pairs give the valid digit pair of their decimal sum, with the carry |
| `ExtendedArith.SbcdIsExact` | src/gencpu.c:1079-1096 | two valid digit pairs give the valid digit pair of their difference; the 16-bit wrap-around does no harm |
| `ExtendedArith.AbcdChainIsExact` | src/gencpu.c:1120-1136 | decimal strings of any length are added exactly |
| `ExtendedArith.SbcdChainIsExact` | src/gencpu.c:1079-1096 | decimal strings of any length are subtracted exactly |
| `ExtendedArith.Alu.AddX` | src/gencpu.c:695-699 | the emitted statements, with the flags set in their order, compute the instruction described |
| `ExtendedArith.Alu.SubX` | src/gencpu.c:700-704 | the emitted statements compute the instruction described |
| `ExtendedArith.Alu.AbcdOp` | src/gencpu.c:1120-1136 | the emitted statements compute the instruction described |
| `ExtendedArith.Alu.SbcdOp` | src/gencpu.c:1079-1096 | the emitted statements compute the instruction described |
| `Rotate.ForcedCount` | src/gencpu.c:960-977 | subtracting whole turns brings a count of up to 63 into range and changes no rotation |
| `Rotate.RoxlMovesBits` | src/gencpu.c:1804-1833 | the operand and X form a ring; ROXL by k moves what is at place i to place i + k, counted around |
| `Rotate.RoxrMovesBits` | src/gencpu.c:1834-1866 | ROXR moves it to place i - k |
| `Rotate.AslMovesBits` | src/gencpu.c:1655-1690 | ASL moves bit i to bit i + cnt; C is the last bit that leaves, and V says whether the place of the sign has held another bit on the way |
| `Cpu.SizesAre` | src/gencpu.c:960-977 | 8, 16 and 32 bits, the highest being the sign |
| `Rotate.RoxlIsLeft` | src/gencpu.c:1816-1830 | the shifts and masks of ROXL are cnt one-bit rotations of X and the operand |
| `Rotate.RoxrIsRight` | src/gencpu.c:1846-1863 | the same for ROXR to the right |
| `Rotate.RoxlRotates` | src/gencpu.c:1804-1833 | for every size and every count, with its reduction modulo 64, ROXL is that many one-bit rotations, X included, with C equal to X, V clear, N the top bit, and Z set exactly if the result is zero |
| `Rotate.RoxrRotates` | src/gencpu.c:1834-1866 | the same for ROXR |
| `Rotate.RightUndoesLeft` | src/gencpu.c:1804-1866 | k one-bit rotations right undo k to the left |
| `Rotate.FullTurn` | src/gencpu.c:960-977 | as many rotations as there are bits change nothing |
| `Rotate.RoxrUndoesRoxl` | src/gencpu.c:1804-1866 | ROXR by the same count gives back the operand and X |
| `Rotate.AslOverflow` | src/gencpu.c:1655-1690 | the sign changes at some single step exactly when two neighbouring bits among those shifted past differ |
| `Rotate.MaskFindsEdges` | src/gencpu.c:1678-1682 | the mask test finds exactly that |
| `Rotate.AslIsSteps` | src/gencpu.c:1655-1690 | for every size and count ASL leaves the operand, C, V, N, Z and X of that many one-bit shifts |
| `Rotate.Operand.RoxL` | src/gencpu.c:1804-1833 | the emitted statements compute the instruction described |
| `Rotate.Operand.RoxR` | src/gencpu.c:1834-1866 | the emitted statements compute the instruction described |
| `Rotate.Operand.AslOp` | src/gencpu.c:1655-1690 | the emitted statements compute the instruction described |
| `Movem.NextBits` | src/newcpu.c:196-204 | the next entry of the table loses the lowest bit and no other |
| `Movem.VisitsEachBitOnce` | src/newcpu.c:196-204 | following the table visits every set bit of the mask once, lowest first, and ends |
| `Movem.SwapTwice` | src/compiler.c:51-64 | reversing a mask twice gives it back |
| `Movem.OrdersAreOpposite` | src/gencpu.c:508-562 | storing with a mask and loading with the reversed mask name the same registers in opposite orders |
| `Movem.LoadAfterStore` | src/gencpu.c:508-562 | loading in the opposite order from where storing ended brings back every listed register |
| `Movem.UpLists` | src/gencpu.c:508-532 | a register is listed exactly if its bit is set |
| `Movem.RoundTrip` | src/gencpu.c:508-562 | store with any mask, then load with the reversed one: every listed register is restored, the others are untouched, and An is back |
| `Movem.SaveAndRestore` | src/gencpu.c:508-562 | MOVEM to -(An), a routine that leaves anything in the other registers and outside the saved area, and MOVEM from (An)+ with the reversed mask: the saved registers and An are back, all others are as the routine left them |
| `Movem.MostSignificantFirst` | src/gencpu.c:508-562 | longs and words are stored most significant byte first, and a word is extended by its sign when it is loaded |
| `Movem.StoredAt` | src/gencpu.c:534-562 | the k-th register stored is k + 1 places below the start |
| `Movem.StoreOrderDescends` | src/gencpu.c:534-562 | the registers stand in memory in the order of their numbers, D0 lowest |
| `Movem.Processor.constructor` | src/newcpu.c:196-204 | the loop fills the three tables with the lowest bit, its mirror and the remaining bits |
| `Movem.Processor.LowestBit` | src/newcpu.c:198-200 | the inner loop finds the lowest set bit, or 8 |
| `Movem.Processor.Bitswap` | src/compiler.c:51-64 | the loop reverses the 16 bits |
| `Movem.Processor.StorePredecrement` | src/gencpu.c:534-562 | the two loops store the listed registers downwards from An, and An ends below the last |
| `Movem.Processor.LoadPostincrement` | src/gencpu.c:508-532 | the two loops load the listed registers upwards from An, and An ends above the last |
| `Movem.Processor.StoreHalf` | src/gencpu.c:534-562 | one loop stores the registers of one half, highest first |
| `Movem.Processor.LoadHalf` | src/gencpu.c:508-532 | one loop loads the registers of one half, lowest first |
| `MulDiv.DivUnsigned` | src/newcpu.c:806-829 | overflow exactly when the divisor is zero or the quotient needs more than 32 bits; otherwise quotient and remainder are right |
| `MulDiv.DivStepKeeps` | src/newcpu.c:816-825 | one bit more of the dividend is divided, even when the top bit is shifted out |
| `MulDiv.DivStep` | src/newcpu.c:816-824 | one round of the loop: the dividend shifted by one bit, one bit more of the quotient |
| `MulDiv.DivOverflows` | src/newcpu.c:811-813 | the test at the start is the test for a quotient of more than 32 bits |
| `MulDiv.MulIsExact` | src/newcpu.c:952-969 | the four half products and two carries give the exact 64-bit product |
| `MulDiv.Mul` | src/newcpu.c:952-969 | the statements compute that product |
| `MulDiv.ProductIsExact` | src/newcpu.c:974-1056 | the registers hold the exact product, signed or unsigned; Z and the signed N and V tell the truth about it |
| `MulDiv.BuildsAgree` | src/newcpu.c:974-1056 | the build with a 64-bit type and the one without give the same registers and flags |
| `MulDiv.Multiplier.Mull` | src/newcpu.c:1003-1056 | the instruction writes the low word, and for the long form the high word, and sets the flags described |
| `Md5.OptimisedF` | src/frontends/common/md5.c:154-155 | the form of F with three operations equals the selection of section 3.4 of RFC 1321, for words of any width |
| `Md5.F1` | src/frontends/common/md5.c:155 | equals F of section 3.4 of RFC 1321 |
| `Md5.F2` | src/frontends/common/md5.c:156 | equals G of section 3.4 of RFC 1321 |
| `Md5.F3` | src/frontends/common/md5.c:157 | equals H of section 3.4 of RFC 1321 |
| `Md5.F4` | src/frontends/common/md5.c:158 | equals I of section 3.4 of RFC 1321 |
| `Md5.Step` | src/frontends/common/md5.c:161-162 | equals one operation of section 3.4 of RFC 1321, though the sum is taken in another order |
| `Md5.FirstEight` | src/frontends/common/md5.c:178-185 | these eight statements are operations 1 to 8 of section 3.4 of RFC 1321 |
| `Md5.SecondEight` | src/frontends/common/md5.c:186-193 | these eight statements are operations 9 to 16 of section 3.4 of RFC 1321 |
| `Md5.ThirdEight` | src/frontends/common/md5.c:195-202 | these eight statements are operations 17 to 24 of section 3.4 of RFC 1321 |
| `Md5.FourthEight` | src/frontends/common/md5.c:203-210 | these eight statements are operations 25 to 32 of section 3.4 of RFC 1321 |
| `Md5.FifthEight` | src/frontends/common/md5.c:212-219 | these eight statements are operations 33 to 40 of section 3.4 of RFC 1321 |
| `Md5.SixthEight` | src/frontends/common/md5.c:220-227 | these eight statements are operations 41 to 48 of section 3.4 of RFC 1321 |
| `Md5.SeventhEight` | src/frontends/common/md5.c:229-236 | these eight statements are operations 49 to 56 of section 3.4 of RFC 1321 |
| `Md5.EighthEight` | src/frontends/common/md5.c:237-244 | these eight statements are operations 57 to 64 of section 3.4 of RFC 1321 |
| `Md5.Transform` | src/frontends/common/md5.c:169-250 | one block is compressed as section 3.4 says |
| `Md5.BitsAdd` | src/frontends/common/md5.c:67-74 | the two-word count with its wrap-around test is the bit length modulo 2^64 |
| `Md5.AbsorbJoins` | src/frontends/common/md5.c:63-105 | absorbing whole blocks one after the other is absorbing them together |
| `Md5.PaddingIsWhole` | src/frontends/common/md5.c:111-139 | the padded message is whole blocks |
| `Md5Standard.WordsAreLowByteFirst` | src/frontends/common/md5.c:25-43 | words are read low-order byte first, as they are written (section 2 of RFC 1321) |
| `Md5Standard.StartValues` | src/frontends/common/md5.c:48-58 | the start values are those of section 3.3 of RFC 1321, low-order byte first |
| `Md5Standard.PaddedMessage` | src/frontends/common/md5.c:111-139 | a one bit, zeros to eight bytes before the end of a block, and the length in bits modulo 2^64 (sections 3.1 and 3.2 of RFC 1321) |
| `Md5Standard.OneBlockAfterTheOther` | src/frontends/common/md5.c:94-100 | a message is absorbed block by block |
| `Md5Standard.BitsOfAuxiliary` | src/frontends/common/md5.c:154-158 | F, G, H and I act on each bit as section 3.4 of RFC 1321 says |
| `Md5Standard.BitsOfRotation` | src/frontends/common/md5.c:161-162 | a rotation by s moves bit k - s, counted around, to bit k |
| `Md5Standard.OneOperation` | src/frontends/common/md5.c:161-162 | one operation in plain arithmetic modulo 2^32 |
| `Md5Standard.Rounds` | src/frontends/common/md5.c:178-244 | which words and which shift amounts the four rounds use |
| `Md5Standard.OneBlock` | src/frontends/common/md5.c:169-250 | 64 operations in order, and the old state is added |
| `Md5Standard.SeriesAre` | src/frontends/common/md5.c:178-244 | the cosine and the sine of 1 that the table is worked out from are those of the exponential series, to 64 bits |
| `Md5Standard.TableIsSine` | src/frontends/common/md5.c:178-244 | the 64 constants are the integer parts of 2^32 times the size of the sine of 1 to 64, worked out from the series at 1 and the addition theorem |
| `Md5.Context.constructor` | src/frontends/common/md5.c:48-58 | a new context stands for the empty message |
| `Md5.Context.Update` | src/frontends/common/md5.c:63-105 | the message grows by exactly the new bytes, wherever it is cut |
| `Md5.Context.WholeBlocks` | src/frontends/common/md5.c:94-100 | the loop takes all whole 64-byte chunks in order |
| `Md5.Context.CountBits` | src/frontends/common/md5.c:67-72 | the two-word count goes on counting bits modulo 2^64 |
| `Md5.Context.FillUp` | src/frontends/common/md5.c:78-91 | a piece that completes the buffered block is taken together with what was held over |
| `Md5.Context.TakeRest` | src/frontends/common/md5.c:92-104 | whole chunks are taken and the remainder is held over |
| `Md5.Context.TakeBlock` | src/frontends/common/md5.c:95-97 | the full buffer is compressed as the next block |
| `Md5.Context.PadOut` | src/frontends/common/md5.c:111-139 | the blocks taken and the buffer are the message padded to 56 bytes modulo 64 |
| `Md5.Context.Final` | src/frontends/common/md5.c:111-150 | the result is the digest of the message; only the first two state words are cleared |
| `Md5.DigestPieces` | src/frontends/common/md5.c:63-150 | however a message is cut into pieces, the digest is that of the whole |
| `Fifo.WriteAssertFailsIff` | src/frontends/common/fifo.c:88-113 | the assert fails exactly when doubling has wrapped around the address space |
| `Fifo.ReadIsValid` | src/frontends/common/fifo.c:43-86 | the asserts of reading and halving never fail, and the right number of bytes is left |
| `Fifo.FirstInFirstOut` | src/frontends/common/fifo.c:25-113 | over any run of writes, reads and erasures, what was read is the front of a tape that writes extend and erasures take back from the end, and what is queued is the rest of it |
| `Fifo.NothingIsLost` | src/frontends/common/fifo.c:43-113 | without erasures, what was read and what is queued is what was accepted, in order |
| `Fifo.EraseUndoesWrite` | src/frontends/common/fifo.c:25-32 | erasing takes back exactly the newest bytes |
| `Fifo.WritePays` | src/frontends/common/fifo.c:88-113 | a write pays for its own growth with at most five bytes of copying per byte, out of a potential |
| `Fifo.ReadPays` | src/frontends/common/fifo.c:43-86 | a read costs no more than has been saved up, if shrinking succeeds |
| `Fifo.CopyingIsLinear` | src/frontends/common/fifo.c:25-113 | over any run growing and halving copy at most five bytes per byte written, plus what was saved at the start |
| `Fifo.CopyingFromEmpty` | src/frontends/common/fifo.c:25-113 | from an empty fifo, at most five bytes per byte written |
| `Fifo.FailedShrinkingIsQuadratic` | src/frontends/common/fifo.c:43-66 | if shrinking fails, draining byte by byte copies the rest each time |
| `Fifo.Buffer.constructor` | src/frontends/common/fifo.c:17-23 | a new fifo is empty |
| `Fifo.Buffer.Resize` | src/frontends/common/fifo.c:98-102 | a successful realloc keeps as much of the contents as fits |
| `Fifo.Buffer.Copy` | src/frontends/common/fifo.c:107 | the new bytes follow the old ones |
| `Fifo.Buffer.Write` | src/frontends/common/fifo.c:88-113 | the bytes are appended, or nothing changes when memory is refused |
| `Fifo.Buffer.Halve` | src/frontends/common/fifo.c:43-66 | the contents survive the move and the change of capacity |
| `Fifo.Buffer.MoveDown` | src/frontends/common/fifo.c:43-66 | an overlapping move brings the bytes down unchanged |
| `Fifo.Buffer.Read` | src/frontends/common/fifo.c:68-86 | the oldest bytes come out, as many as there are, and the rest stays |
| `Fifo.Buffer.Erase` | src/frontends/common/fifo.c:25-32 | the newest bytes go, or nothing if there are too few |
| `Fifo.Buffer.Step` | src/frontends/common/fifo.c:25-113 | every operation on the buffer does what it does to the queue |
| `Fifo.Buffer.RunAll` | src/frontends/common/fifo.c:25-113 | what a whole sequence of operations on the buffer reads is the front of the tape, and what it leaves in the buffer is the rest of it |
| `Fifo.CapacityChanges` | src/frontends/common/fifo.c:43-113 | growing makes room for twice what is then there; a read gives half of at least eight bytes back when at most a quarter is left |
| `Ipc.Decodes` | src/frontends/common/uadeipc.c:187-220 | however a valid message is divided between the buffer and the stream, it is decoded, and exactly the bytes after it are left |
| `Ipc.DecodesAll` | src/frontends/common/uadeipc.c:187-220 | any sequence of valid messages comes out message for message |
| `Ipc.Forbidden` | src/frontends/common/uadeipc.c:187-200 | receiving while holding the token fails and changes nothing |
| `Ipc.RunKeeps` | src/frontends/common/uadeipc.c:187-345 | every run keeps the invariant of the link |
| `Ipc.TokenIsUnique` | src/frontends/common/uadeipc.c:187-345 | the token is in exactly one of four places, a peer that may send has nothing coming in, and the two never both wait for nothing |
| `Ipc.BothMayNotSendFirst` | src/frontends/common/uadeipc.c:320-345 | if both begin by sending, both hold the token |
| `Ipc.FileRoundTripIff` | src/frontends/common/uadeipc.c:110-318 | the file arrives as it was sent, and only its messages are taken, if and only if it is shorter than 2^32 - 1 bytes and has no name or one of 1 to 3995 characters |
| `Ipc.MissingFile` | src/frontends/common/uadeipc.c:282-318 | a file that does not exist is reported as missing |
| `Ipc.MessageLayout` | src/frontends/common/uadeipc.c:320-345 | kind and number of data bytes, most significant byte first, and then the data; kinds 1 to 29 and up to 4096 bytes of data |
| `Ipc.Roles` | src/frontends/common/uadeipc.c:187-345 | sending a message of kind 19 gives the right to send away, receiving one gives it; other messages leave the roles |
| `Ipc.FileLayout` | src/frontends/common/uadeipc.c:282-318 | one message of kind 5 with size and name, then messages of kind 6 with 4096 bytes each and the rest in the last |
| `Bytes.NetworkOrder` | src/frontends/common/uadeipc.c:187-220 | numbers are sent most significant byte first |
| `Ipc.Connection.constructor` | src/frontends/common/uadeipc.c:425-434 | a new connection has an empty buffer and no role |
| `Ipc.Connection.SendMessage` | src/frontends/common/uadeipc.c:320-345 | a valid message is appended to the channel in its encoding and the role changes; otherwise nothing is sent |
| `Ipc.Connection.ReceiveMessage` | src/frontends/common/uadeipc.c:187-220 | the class does what the receiver on values does, with its buffer and pipe |
| `Ipc.Connection.More` | src/frontends/common/uadeipc.c:55-70 | the buffer holds as many bytes as asked for, or the stream has ended |
| `Ipc.Connection.ReceiveData` | src/frontends/common/uadeipc.c:162-178 | the data messages are put together until the announced size is reached |
| `Ipc.Connection.SendFile` | src/frontends/common/uadeipc.c:282-318 | the messages of the file are appended to the channel in order |
| `Ipc.Connection.ReceiveFile` | src/frontends/common/uadeipc.c:110-184 | the file, or the failure, that the messages determine |

## Left out

- CommPipe.WriterKeeps: memory is sequentially consistent and each shared access is one step; compiler and processor reordering is not modelled. The pipe is a value changed by one thread's step at a time, since Dafny has no threads.
- CommPipe.ReadsArePrefixOfWrites: one writer and one reader; `size >= 2`. A pipe of one slot can hold nothing.
- RegisterCache.RegisterMapping.GetUnused: scans 8 registers; the loop bound in the source is 24 over arrays of 8.
- RegisterCache.RegisterMapping.GetAndLock: asks that a register is free when a new one is needed; the source prints a message and goes on with register -1. `get_typed_x86_register`, byte and word operands, immediates, the verification of addresses (`x86_verified`), the exits on bad addresses and the saving of flags are not modelled.
- RegisterCache.RegisterMapping.MoveLong: the flags of a move are not modelled; where they are needed afterwards, the test puts the register back into normal order.
- RegisterCache.RegisterMapping.StoreLong: addresses are 32 bits and wrap around; RAM is one array of bytes.
- RegisterCache.Execute: x86 encodings are replaced by what the instruction does to registers, home slots and memory.
- RegisterCache.RegisterMapping.StepAddress: the step is any constant; which one an instruction uses (1, 2, 4 or a multiple) is its parameter.
- FlagLiveness.Scanner.constructor: decoding, the search for the blocks of branch targets and the limit MAX_TRANSLATE are not modelled; a program is given as blocks with the flag sets and successors that the scan would find. Register masks, `jump_target` and `ccuser_follows` are left out.
- CodePages.Compiler.CompileBlock: the translation itself is a parameter (the bytes it would emit and whether it fails); mmap is a flag that says whether it succeeds.
- Copper.SplitInvariance: within one scan line, with fixed memory and fixed values of the registers that a MOVE can change in the Copper's own view; the WAITs met before the split must have a horizontal mask of the kind that Copper.SplitInvariantIffTopMask finds necessary. The two outcomes are compared up to the stage name of a pending WAIT, which every entry rewrites.
- Copper.ForecastIsExact: register numbers below 0x200 and MOVEs of registers in the safe range that do not change the Copper's own view.
- Copper.CopperUnit.UpdateCopper1: what a MOVE does outside the Copper's view (colours, sprites, blitter) is not modelled; bitplane DMA is as in a machine that never sets the number of planes.
- CiaEvents.Machine.WriteCia: time-of-day counters, interrupt masks, the serial port and the parallel ports are not modelled; the cycle counter is unbounded, and an unsigned long has 64 bits.
- CiaEvents.Machine.Reset: the reset of the whole machine, which sets the cycle counter back afterwards, is not modelled.
- AudioClock.SampleTimes: the time of the next sample is a real number; the rounding of float is not modelled.
- AudioClock.AudioUnit.UpdateAudio: the filters, the sinc resampler and the plain sample handler are left out, and the sample memory does not change during a run.
- AudioClock.SampleLoops: the location and length registers are not written during the run, the channel is not attached to another, and DMA stays on; at the start the handler comes before the fetch, as at the beginning of a line.
- FlagLiveness.TableTerminators: opcodes that the table does not define have flag masks that are never set; they are not among the eight.
- AudioClock.RunIsEager: every handler that is due when interrupt requests are written must be harmless, because the source does not bring the audio side up to date there; AudioClock.SyncNeverShowsIff shows that nothing less will do for a single write, AudioClock.InterruptWritesAreNotSynced gives a case.
- ExtendedArith.AddxIsExact: flags are five booleans instead of bits of one word. V of ABCD and SBCD is computed but nothing is claimed about it.
- X after SUB and NEG: the general form of the flag code does not copy the carry there.
- Movem.RoundTrip: memory is plain RAM, with room below An for the registers stored; addresses do not wrap around.
- MulDiv.DivUnsigned: m68k_divl as a whole is left out; its two builds differ.
- Md5.Context.Update: a piece is shorter than 2^32 bytes, as its unsigned length is. Aliasing of the context by the caller is not modelled.
- Fifo.Buffer.Resize: realloc to no bytes at all counts as a success.
- Ipc.Connection.ReceiveMessage: reads and writes on file descriptors always transfer what is asked for or report the end of the stream.
- Ipc.TokenIsUnique: `uade_request_amiga_file` changes the role by hand, and is left out because its other half is in the emulator.
- Ipc.Connection.SendMessage: `uade_send_string` writes without checking the message first, and is left out.
- Format guessing, configuration, song databases, the debugger, sprites and the blitter: heuristics, tables or empty functions.
- File, socket and process handling, command lines and messages to the user: input and output only.
