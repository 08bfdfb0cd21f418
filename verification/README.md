# chippy: Dafny models of its time travel, cores, debugger protocol and formats

chippy is an emulator and debugger for the 6502 family. This project models the parts of it whose
correctness spans many operations and proves what they promise.

- **Time travel** (`Machine`, `Rewind`, `RewindProofs`, `RewindReach`, `RewindRetention`, `Rings`,
  `Debugger`): the fine ring of page before-images, the coarse keyframe ring, `:rewind`, the back key, reset and budget
  changes, over an arbitrary deterministic machine. `Rewind` is the specification over values,
  `RewindProofs` the theorems, and `Rings` and `Debugger` the objects that carry it out.
- **NES core** (`Dma`, `DmaProofs`, `Opcodes`, `NesCore`): DMA windows, the cycles of every opcode, and
  the interrupt poll pipeline, in an environment that sets the lines and requests samples at will.
- **Debug session** (`Session`, `SessionProofs`, `SessionStops`): dispatcher, run loops, terminal UI and
  CPU mutex as an interleaved transition system.
- **Conditions** (`Expressions`, `ExpressionProofs`, `ExpressionLaws`, `Lexer`, `Parser`): tokenizer, parser and
  evaluator of breakpoint expressions.
- **65816** (`Core816`, `Flags816`, `Cpu816`, `BlockMove`): width rules, stack, interrupt frames, block moves.
- **Decimal arithmetic** (`Bcd`): the packed-decimal kernels at two and four digits.
- **Streams and formats** (`DirtyRanges`, `Frame`, `WalkBack`, `Trace`, `TraceProofs`, `TraceReader`):
  memory deltas, message framing, backward disassembly, trace files.

`Basics` and `Text` hold words, options and text helpers.

Where the code differs from what it or its comments say, the model follows the code:

- `rewindReachSteps` advertises cap*4096 steps; the keyframes always reach less far (`RewindReach.StraightReach`).
- `KeyframeRing.Push` asks for ascending steps; after a rewind callers push smaller ones. The newest-first
  search is still right (`RewindProofs.NearestOnTimeline`).
- The reach of deep rewind is advertised as slots times 4096 steps; every pass over a multiple of 4096 uses up a slot, so going back
  and forth over one loses older intervals (`RewindRetention.TogglingForgets`).
- A DMA write cycle adds 5+5 master clocks, not 12 (`NesCore.Nes.Run`).
- DMA drained during an interrupt entry uses the previous instruction's cycle count for its parity
  (`NesCore.Nes.ServiceVector`, `DmaProofs.StaleParityMissizesSample`).
- An abort in the cycle of the sample's read slot, or in the one before it, is too late; a request in the cycle of
  a sample read is lost (`DmaProofs.AbortInTime`, `DmaProofs.SampleAborted`, `DmaProofs.CollisionLosesRequest`).
- A continue can slip between a finished run's `running=false` and its channel close, and disconnect can hold
  the mutex the run loop waits for (`SessionProofs.OvertakingClosesTwice`, `SessionProofs.DeadlockExactly`).
- The 65816 reset comment says M and X are forced to 1; only M is (`Core816.ResetDoesNotLock`).
- In emulation an interrupt frame holds no program bank, so RTI does not bring a nonzero one back
  (`Core816.HandlerReturns`, `Core816.EmulationLosesBank`).
- Block moves run on 16-bit indexes in every mode, so a narrow index can leave its eight bits
  (`Cpu816.Cpu.MoveBlock`, `Cpu816.Cpu.NarrowMoveBreaks`).

## Model

| member | source | states |
|---|---|---|
| `RewindProofs.RewindIsExact` | internal/tui/rewind_deep.go:14-78 | after any run of steps, back steps, rewinds, resets and budget changes, `:rewind n` lands on the exact state n steps earlier by either path, replays exactly target mod 4096 steps, and is turned down, changing nothing, exactly when nothing is asked or no kept snapshot reaches the target |
| `RewindProofs.RunStaysOnTimeline` | internal/tui/model.go:1085-1131 | over every such run the live registers, RAM and devices are the current timeline's state at `StepCount` |
| `RewindProofs.ExecKeepsInv` | internal/tui/rewind_deep.go:14-113 | each single command keeps the history invariant that the theorem rests on: every kept keyframe at or below the present is the timeline's own state, and the fine ring undoes its last steps |
| `RewindProofs.NearestOnTimeline` | cpu/keyframe.go:114-127 | a keyframe found for a reachable target was taken on the current timeline, never on an abandoned one, although rewinds leave the ring out of order |
| `RewindProofs.NearestAfterPush` | cpu/keyframe.go:100-127 | scanning newest first, a pushed keyframe shadows stale ones of the same or a later step, with or without FIFO eviction |
| `RewindProofs.NearestRoundsDown` | cpu/keyframe.go:114-127 | with all keyframes on multiples of 4096 the search depends only on the target rounded down, so the replay distance is target mod 4096 |
| `RewindProofs.NearestIsHeld` | cpu/keyframe.go:114-127 | a keyframe is found exactly when some kept one is at or below the target, and the one found is kept and at or below it |
| `RewindProofs.PopManyLands` | internal/tui/rewind_deep.go:46-60 | k pops of the fine ring restore the timeline's state k steps back, for every k up to its depth |
| `RewindProofs.ReplayRetraces` | internal/tui/rewind_deep.go:61-91 | re-executing from a keyframe of the timeline retraces the recorded states one by one |
| `RewindProofs.DeepRewindKeepsInv` | internal/tui/rewind_deep.go:61-78 | restoring a keyframe and replaying re-establishes the whole history invariant, fine ring included |
| `RewindProofs.StepSnapshotUndoes` | cpu/snapshot.go:51-81 | a step's snapshot with its before-images undoes that step exactly |
| `RewindProofs.FullSnapshotRestores` | cpu/keyframe.go:38-49 | a full snapshot restores its state over any later machine |
| `Machine.UndoWrites` | cpu/memory.go:27-43 | for any writes under any freeze set, applying the before-images gives the memory back byte for byte |
| `Machine.FrozenHolds` | cpu/memory.go:27-43 | a frozen address keeps its byte through any writes |
| `RewindReach.StraightReach` | internal/tui/rewind_deep.go:117-122 | after k forward steps `:rewind n` succeeds exactly up to max(fine depth, (min(cap, k/4096 + 1) - 1)*4096 + k mod 4096); that is short of the cap*4096 the status line advertises exactly when the fine depth is, which a fine ring of fewer than 4096 slots always is |
| `RewindReach.StraightRun` | internal/tui/model.go:1111-1131 | a straight run keeps exactly the last min(cap, k/4096 + 1) multiples of 4096, oldest first |
| `RewindRetention.RingIsRecentHistory` | internal/tui/model.go:1111-1133 | after any run, whatever it looked back at, the ring holds exactly the newest of all keyframes due since it was last emptied (the state before the first step, and each state whose step is a multiple of 4096 every time a step reaches it), oldest first: nothing is lost but to a full ring |
| `RewindRetention.EveryRewindSucceeds` | internal/tui/rewind_deep.go:14-78 | a run without budget changes that steps onto fewer multiples of 4096 than there are slots, however often it looks back: every `:rewind n` within it succeeds and lands on the timeline |
| `RewindRetention.TogglingForgets` | internal/tui/model.go:1123-1133 | stepping back and forth over a multiple of 4096 as often as there are slots pushes every older keyframe out, after which nothing beyond the fine ring can be reached |
| `RewindRetention.BacksUndoSteps` | internal/tui/model.go:827-845 | wherever a run has got to, up to as many steps as the fine ring holds are undone by as many presses of the back key |
| `RewindRetention.ResetStartsOver` | internal/tui/model.go:815-826 | after the reset key every run goes on as from a fresh model on the reset machine |
| `RewindRetention.ResetMachineStarts` | cpu/cpu.go:325-346 | a reset machine starts at the vector, low byte first, with A, X and Y zero, the stack at $FD, I set and D clear; RAM and devices stay, and a second reset changes nothing |
| `RewindRetention.BudgetBuysSlots` | internal/tui/rewind_deep.go:96-113 | a megabyte of budget buys sixteen keyframes, up to a gigabyte; less than one is turned down; nothing but the keyframe ring changes |
| `Rings.SnapshotRing.Push` | cpu/snapshot_ring.go:29-38 | the circular buffer appends to its list of entries, dropping the oldest one when full |
| `Rings.SnapshotRing.Pop` | cpu/snapshot_ring.go:42-50 | the newest entry comes out and the others stay in order; an empty ring says so |
| `Rings.NewKeyframeRing` | cpu/keyframe.go:66-75 | a budget of zero or less gives no ring; a positive one gives an empty ring of as many slots as fit it, at least one |
| `Rings.KeyframeRing.Push` | cpu/keyframe.go:100-109 | FIFO: append, evicting the oldest entry when full |
| `Rings.KeyframeRing.FindNearest` | cpu/keyframe.go:114-127 | the scan of the circular buffer equals the newest-first search over its list of entries |
| `Rings.KeyframeRing.Oldest` | cpu/keyframe.go:131-137 | the step of the oldest entry, or none |
| `Rings.PushEntries` | cpu/snapshot_ring.go:29-38 | writing at head and advancing modulo the capacity is appending to, or shifting, the entries |
| `Rings.PopEntries` | cpu/snapshot_ring.go:42-50 | stepping head back modulo the capacity removes exactly the newest entry |
| `Debugger.Ram.Write` | cpu/memory.go:27-43 | the copy-on-write barrier saves a page's image before its first write of an epoch, and frozen addresses are left alone |
| `Debugger.Ram.TakeShadow` | cpu/memory.go:104-111 | hands over the before-images and starts a new epoch |
| `Debugger.Ram.CopyBack` | cpu/snapshot.go:68-81 | writes saved pages back over memory and touches nothing else |
| `Debugger.Processor.SnapshotFull` | cpu/keyframe.go:38-49 | copies all registers and every page |
| `Debugger.Processor.Restore` | cpu/snapshot.go:68-81 | registers and saved pages come back; other pages stay |
| `Debugger.Model.Step` | internal/tui/model.go:1085-1105 | the object after a step is the specification's session after a step: seeding, snapshot, shadow epoch, ring push, counter, periodic keyframe |
| `Debugger.Model.Back` | internal/tui/model.go:827-845 | the back key is the specification's back step |
| `Debugger.Model.PopDeltas` | internal/tui/rewind_deep.go:46-60 | the pop loop is the specification's k pops |
| `Debugger.Model.ReplayFrom` | internal/tui/rewind_deep.go:61-91 | restore, truncated ring and the replay loop are the specification's replay |
| `Debugger.Model.RewindToStep` | internal/tui/rewind_deep.go:35-78 | choice of path, both paths and the refusal are the specification's rewind |
| `Debugger.Model.RewindBudget` | internal/tui/rewind_deep.go:96-113 | a new budget clamps, replaces the ring and reseeds it as specified |
| `Debugger.Model.Perform` | internal/tui/rewind_deep.go:14-113 | each command carries the object to the state the specification gives |
| `Debugger.Model.PerformAll` | internal/tui/model.go:1085-1131 | any list of commands on the objects ends in the session the specification gives, with the live state on its timeline at `StepCount` |
| `DmaProofs.OamTransferIsExact` | cpu/dma.go:79-175 | whatever sample requests and aborts arrive meanwhile, an OAM transfer reads the 256 bytes of its page in order and stores each on the cycle right after its read, with no other stores |
| `DmaProofs.WindowLogs` | cpu/dma.go:79-175 | a window's log has one operation a tick; each sample is read at the channel's address of its tick, and each read returns the byte of its tick |
| `DmaProofs.EveryRequestIsAccounted` | cpu/dma.go:79-175 | over a whole window, halt cycle included, every sample request is answered by exactly one fetch, cancelled by an abort, or lost to a collision |
| `DmaProofs.CollisionLosesRequest` | cpu/dma.go:107-121 | witness: a request in the very cycle of a sample read is answered by nobody and leaves stale halt and dummy latches behind |
| `DmaProofs.AbortInTime` | cpu/dma.go:107-121 | an abort arriving in any cycle of a window after its halt cancels the waiting sample for the rest of the window, except that the byte is still fetched, once, exactly when that cycle or the next is its read slot |
| `DmaProofs.AbortInHalt` | cpu/dma.go:79-121 | an abort in the halt cycle itself, transfer running or not, stops the waiting sample, except that the byte is still fetched exactly when no alignment is left to do and the read slot comes next |
| `DmaProofs.SampleAborted` | cpu/dma.go:79-175 | an abort in cycle i of a lone sample's n-cycle window closes it after i + 2 cycles with nothing fetched when i + 2 < n, and changes nothing otherwise |
| `DmaProofs.WorkFalls` | cpu/dma.go:96-157 | the loop terminates: once no more requests come a measure falls on every cycle |
| `DmaProofs.DrainTakesRemaining` | cpu/dma.go:96-157 | the length of an undisturbed window depends only on the latches, the parity and the transfer counter |
| `DmaProofs.SampleAlone` | cpu/dma.go:79-157 | drained inside an instruction, a lone sample takes 3 cycles from an even clock and 4 from an odd one |
| `DmaProofs.SpriteAlone` | cpu/dma.go:79-157 | a lone OAM transfer takes 513 or 514 cycles by the parity of the clock |
| `DmaProofs.SpriteAndSample` | cpu/dma.go:79-157 | both pending at entry: exactly two cycles more than the transfer alone |
| `DmaProofs.SampleDuringSprite` | cpu/dma.go:79-157 | one sample armed in any cycle of a transfer adds 3, 1 or 2 cycles, depending only on how far from the end it arrives |
| `DmaProofs.StaleParityMissizesSample` | cpu/exec.go:97-104 | drained on a clock that is ahead by some cycles, a lone sample keeps its length when that count is even and has its 3 and 4 cycles exchanged when it is odd |
| `Opcodes.TableIsWellTimed` | cpu/opcodes.go:27-198 | for each of the 256 slots, documented or not, fetch + resolve + dummy + handler ticks equal the charged cycles, page penalty included |
| `Opcodes.TableIsShaped` | cpu/opcodes.go:27-198 | each of the 256 slots has the mode of its place in the 16 by 16 matrix, as many bytes as that mode takes, and branches exactly in the relative ones |
| `NesCore.Nes.RunInstruction` | cpu/exec.go:97-172 | for every opcode and state, with DMA drained anywhere inside, the ticks issued equal the cycles the table charges for the byte fetched: the cycle-mismatch panic is unreachable; at most two extra cycles, only for branches, by the pages of the next instruction and of where they end up; the I flag changes only as CLI, SEI, PLP, RTI and BRK change it; DMA inside runs on a clock in step with the ticks; afterwards an NMI is due exactly when one was pending before or its edge came before the last tick, an IRQ exactly when its line was high in the tick before the last under the mask of the start (RTI: under the mask it pulls; a branch with one extra cycle: not if the line came up only then, unless DMA intervened) |
| `NesCore.Nes.Step` | cpu/exec.go:21-144 | an NMI that is due is served before an IRQ, an entry leaves nothing due and has read its own vector, that of NMI when hijacked, an instruction leaves the latches its lines determine, and the cycle, master-clock and NMI ledgers are kept by every step |
| `NesCore.Nes.Run` | cpu/cpu.go:406-541 | any number of steps, with NMIs the host triggers in between, passes through states linked by Step; over it `Cycles` grows by the bus ticks, `masterClock` by 12 per tick less 2 per sprite byte written, and rises of the NMI latch equal services plus hijacks plus what is pending |
| `NesCore.NextEntry` | cpu/exec.go:21-144 | in any run, after an instruction other than BRK, RTI and a branch with one extra cycle: an NMI entry follows exactly when an NMI was pending or rose before the last tick, else an IRQ entry follows exactly when the line was high in the tick before the last and the I flag was clear when the instruction began, so that one more instruction follows a CLI |
| `NesCore.HeldLineIsServed` | cpu/exec.go:21-144 | in any run, an IRQ line that is high all through an instruction that is unmasked at both ends is served next, after RTI and every branch as well |
| `NesCore.HandlerStarts` | cpu/cpu.go:675-712 | in any run, the first instruction of a handler, BRK's included, runs before anything else is served |
| `NesCore.Nes.ServiceVector` | cpu/cpu.go:675-712 | seven cycles, at most one hijack and none of an NMI entry, nothing due when it ends; the window before the first cycle runs on a clock ahead by what the last instruction left in the counter, and when nothing else is asked for the entry takes exactly that window and seven ticks, so a lone waiting sample takes its proper 3 or 4 cycles after an even count and the other length after an odd one |
| `NesCore.Nes.EnterHandler` | cpu/cpu.go:675-712 | after two pushes an entry that is not an NMI is hijacked exactly when an NMI is pending by then; it reads the NMI vector for an NMI and when hijacked, else that of IRQ and BRK, low byte first, and leaves nothing due |
| `NesCore.Nes.BreakTo` | cpu/exec.go:515-548 | BRK issues six cycles after its fetch, may be hijacked once, and leaves nothing due |
| `NesCore.Nes.BranchTo` | cpu/exec.go:463-497 | a branch not taken goes on with the next instruction at no extra cycle; a taken one goes to its target in one extra cycle, in two exactly when that lies on another page than the next instruction; with one, an IRQ is due exactly when its line was high in the tick before the last and, unless DMA came between, in the tick before that; otherwise the line of the tick before the last decides |
| `NesCore.Nes.Resolve` | cpu/addressing.go:28-150 | each addressing mode issues its fixed number of bus cycles and moves PC past its operand; a page crossing is reported exactly for ABX, ABY and IZY when base and effective address lie on different pages; a branch target is the next instruction plus the signed byte read last |
| `NesCore.Nes.Indirect` | cpu/addressing.go:28-150 | the pointer of an indirect jump is read low byte first, the high byte from the same page even when the low one ends it |
| `NesCore.Nes.ProcessPendingDma` | cpu/dma.go:79-157 | the object's drain loop follows the DMA specification cycle by cycle, counts exactly the sprite bytes written and keeps all ledgers and latches |
| `NesCore.Nes.DmaCycle` | cpu/dma.go:96-157 | one turn of the loop is one cycle of the specification: same latches, same bus operation, same counters |
| `NesCore.Nes.BusRead` | cpu/cpu.go:453-483 | a read first drains the window that the latches, the page and the clock at its start determine, then takes one tick that leaves the latches as that tick's requests do, and one poll |
| `NesCore.Nes.Write` | cpu/cpu.go:485-508 | a write takes one tick and one poll and never drains DMA |
| `NesCore.Nes.PollLines` | cpu/cpu.go:406-415 | the poll that ends a tick leaves the NMI latches at the edges up to this tick and up to the one before, and the IRQ latches at the unmasked levels of this tick and of the one before |
| `SessionProofs.CarefulRunsAreSafe` | dap/steps.go:53-115 | in every interleaving with an atomic loop exit, or in which no start overtakes an exiting loop: at most one thread steps the CPU, each `runDone` is closed at most once, and each started run reports `stopped` exactly once |
| `SessionProofs.NextKeepsInv` | dap/steps.go:53-115 | every step of every thread in which no start overtakes an exiting loop keeps the session invariant on loops, channels, flags and the mutex |
| `SessionProofs.AtomicExitIsCareful` | dap/steps.go:81-115 | with an atomic exit no start can overtake, so the safety theorem needs no further assumption |
| `SessionProofs.OvertakingClosesTwice` | dap/steps.go:81-115 | from any reachable overtaking state, with or without a CPU mutex, some schedule closes the new run's channel twice, which panics |
| `SessionProofs.OvertakingIsReachable` | dap/steps.go:81-115 | witness run in every session without an atomic exit: two continues with a pause between them reach such a state |
| `SessionProofs.OvertakingEndsSessionEarly` | dap/server.go:512-562 | the same race, with or without a mutex, lets a disconnect finish while the new run is still going |
| `SessionProofs.DisconnectCompletes` | dap/server.go:512-562 | without a CPU mutex a waiting disconnect goes on after at most ten more steps, however the threads are scheduled |
| `SessionProofs.WaitingMakesProgress` | dap/server.go:556-562 | and some thread can always take the next of those steps |
| `SessionProofs.DeadlockExactly` | dap/server.go:244-251 | with a CPU mutex a waiting disconnect is stuck for good exactly when the run loop is on its way to the lock |
| `SessionProofs.DeadlockIsReachable` | dap/steps.go:283-285 | witness run in every session with a mutex: continue, then disconnect, reaches that deadlock |
| `SessionProofs.FreeLoopLetsDisconnectGo` | dap/server.go:556-562 | caught anywhere else, the loop runs out without asking for the lock again |
| `SessionStops.HaltEndsRun` | dap/steps.go:81-115 | a halting iteration ends its run whatever else goes on: the loop never asks for the lock or steps again, stands where the number of its own moves says, and clears `running` with the third |
| `SessionStops.HaltIsReported` | dap/steps.go:110-115 | in a careful run `stopped` is then sent exactly once before another run starts, with the loop's first move |
| `SessionStops.StopHasCause` | dap/steps.go:81-109 | conversely a loop on its way out took a halt or saw a pause request at its check |
| `SessionStops.OnlyExitsReport` | dap/steps.go:110-115 | `stopped` is sent only by a loop on its way out, once |
| `ExpressionProofs.ParserIsGrammar` | expr/expr.go:308-628 | the recursive-descent parser accepts a token string with result e if and only if e is a tree of the stratified grammar whose yield is that string |
| `ExpressionProofs.PrintedTreeParses` | expr/expr.go:65-82 | printing any tree with the fewest parentheses and parsing it gives a tree with the same meaning in every context |
| `ExpressionProofs.MinimalMeansTheSame` | expr/expr.go:308-628 | the printed tree evaluates as the original, left associativity and 32-bit wrap included |
| `ExpressionProofs.PrintedIsShortest` | expr/expr.go:308-628 | no token string the parser reads as the same tree up to parentheses is shorter than the printed one, and none other is as short |
| `ExpressionProofs.MinimalHasFewestParens` | expr/expr.go:591-628 | every tree of the grammar with the same skeleton has at least the parentheses of the printed one, and only that one has so few |
| `ExpressionProofs.MinimalAddsOnlyParens` | expr/expr.go:591-628 | printing adds parentheses only, and none to a tree that needs none |
| `ExpressionProofs.MinimalIsStratified` | expr/expr.go:308-628 | minimal printing always yields a tree of the grammar |
| `ExpressionProofs.NegateIsInverse` | expr/expr.go:550-589 | unary minus is the additive inverse at the width the operand fits: 8, 16 or 32 bits |
| `ExpressionProofs.BitwiseWorksPerBit` | expr/expr.go:417-463 | AND, OR and XOR act on every bit independently |
| `ExpressionLaws.AddAndSub` | expr/expr.go:492-517 | sums and differences are the integers', wrapped once at 2^32 |
| `ExpressionLaws.SubUndoesAdd` | expr/expr.go:492-517 | subtracting what was added, or adding what was subtracted, gives the first operand back |
| `ExpressionLaws.MulWraps` | expr/expr.go:519-548 | a product is the integers' product less a multiple of 2^32, none when it fits |
| `ExpressionLaws.DivDivides` | expr/expr.go:519-548 | a quotient leaves a remainder below the divisor; dividing by zero gives zero |
| `ExpressionLaws.ShiftOperators` | expr/expr.go:465-490 | shifts move bit i by the count modulo 32, and what leaves the 32 bits is gone |
| `ExpressionLaws.BitwiseOperators` | expr/expr.go:417-463 | each of the 32 bits of AND, OR and XOR is that of the operands' bits |
| `ExpressionLaws.BitsDetermine` | expr/expr.go:417-490 | bits determine a value, so the bitwise laws fix the operators |
| `ExpressionLaws.Trichotomy` | expr/expr.go:350-415 | comparisons are unsigned and give 0 or 1; exactly one of less, equal and greater holds, and the other three are their opposites |
| `ExpressionLaws.Logical` | expr/expr.go:308-348 | the logical operators and NOT test for nonzero and give 0 or 1 |
| `ExpressionLaws.DeMorgan` | expr/expr.go:308-348 | NOT exchanges the two logical operators |
| `ExpressionLaws.OneOperand` | expr/expr.go:550-628 | unary minus at the operand's own width, a byte read at the low 16 bits, parentheses without effect |
| `ExpressionLaws.RegistersAreKnown` | expr/expr.go:630-680 | A, X, Y, P, S, SP and PC in any spelling read their registers in every scope |
| `ExpressionLaws.FlagsAreBits` | expr/expr.go:630-680 | C, Z, I, D, B, V and N read bits 0 to 4, 6 and 7 of P |
| `ExpressionLaws.OtherNames` | expr/expr.go:630-680 | any other name is the host's when the host knows it, else a symbol's address, else unknown |
| `ExpressionLaws.LevelIsDocumented` | expr/expr.go:15-30 | each operator's level is its place in the documented order |
| `ExpressionLaws.TighterGoesFirst` | expr/expr.go:15-30 | of two operators without parentheses the second goes first exactly when its documented group is the tighter one |
| `Lexer.PrintCompileEval` | expr/expr.go:65-82 | from tree to text and back: the compiled text of any well-spelled tree evaluates as the tree does |
| `Lexer.LexRendered` | expr/expr.go:121-257 | tokenizing spaced-out tokens gives those tokens back |
| `Lexer.OperatorIsRead` | expr/expr.go:121-257 | each of the 17 binary operators is read from its documented spelling |
| `Lexer.Tokenize` | expr/expr.go:121-257 | the scanning loop produces exactly the tokens or the error of the lexical specification |
| `Lexer.NextLexeme` | expr/expr.go:121-257 | one token at a position: hex, decimal, name or operator, with its length or its error |
| `Lexer.ScanDecimal` | expr/expr.go:121-257 | a decimal literal is its digits' value modulo 2^32 |
| `Lexer.ScanHex` | expr/expr.go:267-283 | a hexadecimal literal is its digits' value modulo 2^32 |
| `Parser.CondParser.ParseLevelAt` | expr/expr.go:308-548 | the cursor-moving loops of the binary levels consume and build what the grammar's specification gives, errors included |
| `Parser.CondParser.ParseUnaryAt` | expr/expr.go:550-589 | the same for the unary level |
| `Parser.CondParser.ParsePrimaryAt` | expr/expr.go:591-628 | the same for literals, names, parentheses and memory brackets |
| `Parser.Compile` | expr/expr.go:65-82 | compilation succeeds only when all tokens are consumed, with the specified tree or error |
| `Bcd.AddIsDecimal` | cpu/arith816.go:166-202 | for any number of decimal digits the corrected sum is the decimal sum with its carry worth 10^n |
| `Bcd.SubIsDecimal` | cpu/arith816.go:206-255 | for any number of digits the corrected difference is the decimal difference with its borrow |
| `Bcd.BinaryCarryIsNoBorrow` | cpu/arith816.go:206-255 | the carry of the parallel binary subtraction is the digit-wise no-borrow, for any nibbles |
| `Bcd.SubUndoesAdd` | cpu/arith816.go:166-255 | subtracting what was added gives the first operand back and borrows exactly when the addition carried |
| `Bcd.ByteSumIsDecimal` | cpu/exec.go:305-325 | what the byte kernels store is the decimal sum modulo 100 with the hundreds in C, and SBC undoes it |
| `Bcd.ByteDifferenceIsDecimal` | cpu/exec.go:328-349 | what the byte kernels store is the decimal difference modulo 100 with the borrow in C |
| `Bcd.WordSumIsDecimal` | cpu/arith816.go:166-202 | the same at four digits |
| `Bcd.WordDifferenceIsDecimal` | cpu/arith816.go:206-255 | the same at four digits |
| `Bcd.Alu.AdcDecimal` | cpu/exec.go:305-325 | the nibble corrections store the digit-wise sum; Z is the binary sum's, N and V those of the half-corrected sum; for decimal operands the result is decimal and, with C, their decimal sum |
| `Bcd.Alu.SbcDecimal` | cpu/exec.go:328-349 | the nibble corrections store the digit-wise difference; all flags are the binary subtraction's; for decimal operands the result is decimal and, with C, their decimal difference |
| `Bcd.Alu.AdcDecimalNarrow` | cpu/arith816.go:166-202 | 8-bit 65816 addition: digit-wise sum, N and Z of the decimal result; for decimal operands the result is decimal and, with C, their decimal sum |
| `Bcd.Alu.SbcDecimalNarrow` | cpu/arith816.go:206-255 | 8-bit 65816 subtraction: digit-wise difference, N and Z of the decimal result; for decimal operands the result is decimal and, with C, their decimal difference |
| `Bcd.Alu.AdcDecimalWide` | cpu/arith816.go:166-202 | 16-bit addition: four corrections store the digit-wise sum; for decimal operands the result is decimal and, with C, their decimal sum |
| `Bcd.Alu.SbcDecimalWide` | cpu/arith816.go:206-255 | 16-bit subtraction: four corrections store the digit-wise difference, C and V from the binary one; for decimal operands the result is decimal and, with C, their decimal difference |
| `BlockMove.Move` | cpu/ctrl816.go:288-304 | C+1 bytes move and the loop ends with C=$FFFF and both indexes moved by C+1 modulo 65536; nothing but the destination is written; the destination holds the source, or repeats its first bytes when the move overtakes its own source |
| `BlockMove.FaithfulUnlessOverlapping` | cpu/ctrl816.go:288-304 | the destination is a faithful copy unless banks match and the destination leads the source by 1..C |
| `BlockMove.OverlapCorrupts` | cpu/ctrl816.go:288-304 | in that case some memory is not copied faithfully, so the condition is exact |
| `Core816.HandlerReturns` | cpu/cpu.go:643-669 | an interrupt, BRK or COP followed by RTI over untouched frame bytes restores PC and SP at every stack position; P comes back exactly when emulation had both width bits set, PBR exactly when native or already in bank 0 |
| `Core816.InterruptReturns` | cpu/exec816.go:988-997 | RTI reads back what any frame on the stack holds, wherever the stack wraps |
| `Core816.CallReturns` | cpu/exec816.go:944-979 | JSR followed by RTS over the untouched return address resumes after the call at every stack position, with the pointer where it was |
| `Core816.PushAllHolds` | cpu/ctrl816.go:9-30 | pushed bytes stay where they were put, wrapping in page one in emulation and in bank 0 natively |
| `Core816.WidthChangesLock` | cpu/exec816.go:222-246 | SEP, REP, XCE and PLP each leave the width rules locked |
| `Flags816.SepSets` | cpu/exec816.go:232-238 | after SEP a status bit is set exactly when it was, or the mask has it, or emulation forces it; an index narrow then has no high byte, and nothing else changes |
| `Flags816.RepClears` | cpu/exec816.go:239-246 | after REP a status bit is set exactly when it was and the mask lacks it, or emulation forces it; nothing else changes |
| `Flags816.SepThenRep` | cpu/exec816.go:232-246 | natively SEP then REP of one mask leaves its bits clear and the others alone |
| `Flags816.XceExchanges` | cpu/exec816.go:222-231 | XCE exchanges C and E and a second one exchanges them back; on the way into emulation M and X are set, the stack goes to page one and the indexes lose their high bytes |
| `Flags816.PlpPulls` | cpu/ctrl816.go:251-254 | PLP takes each flag from the byte on the stack, emulation keeping M and X |
| `Flags816.EntryStarts` | cpu/cpu.go:643-669 | an entry goes to bank 0 at the vector of its mode, low byte first, with I set, D clear and the other flags as they were |
| `Flags816.EntryPushesFlags` | cpu/cpu.go:643-669 | in emulation the pushed status has bit 4 set for BRK and clear for a hardware interrupt, which sets bit 5; everything else is as it was |
| `Flags816.JsrLands` | cpu/exec816.go:944-979 | JSR goes on at its target, having pushed the address of its last operand byte, high byte first |
| `Core816.ResetDoesNotLock` | cpu/cpu.go:325-340 | reset leaves the index width bit clear in emulation, so XCE straight after it arrives in native mode with 16-bit indexes |
| `Flags816.ResetStarts` | cpu/cpu.go:325-345 | reset starts in emulation at the vector, low byte first, with I set, D clear, the stack at $1FD and bank 0 |
| `Core816.ResetLosesFlags` | cpu/cpu.go:325-340 | witness: an interrupt straight after reset comes back with other flags than it interrupted |
| `Core816.EmulationLosesBank` | cpu/exec816.go:222-231 | witness: XCE into emulation outside bank 0, then an interrupt and its RTI, ends in bank 0 instead |
| `Core816.NewStackRoundTrip` | cpu/ctrl816.go:40-59 | PHD then PLD gives the word back when the push stays inside page one or runs natively; the pointer comes back regardless |
| `Core816.NewStackMisses` | cpu/ctrl816.go:40-59 | otherwise the pull reads two bytes the push never wrote |
| `Cpu816.Cpu.Step` | cpu/exec816.go:54-1053 | every opcode except a block move with narrow indexes keeps the rules: emulation has M set and the stack in page one (and X set, once it was), narrow indexes have zero high bytes; XCE, SEP, REP, PLP, RTI, BRK, COP, JSR and RTS have exactly their specified effect; an instruction that does not transfer control moves PC past its operand bytes at the widths in force |
| `Cpu816.SepInstruction` | cpu/exec816.go:232-238 | executing SEP, $E2 by WidthOpcodes, sets the bits of the byte after it and goes on behind that byte |
| `Cpu816.RepInstruction` | cpu/exec816.go:239-246 | executing REP, $C2 by WidthOpcodes, clears them |
| `Cpu816.XceInstruction` | cpu/exec816.go:222-231 | executing XCE, $FB by ExchangeOpcode, exchanges C and E |
| `Cpu816.BrkInstruction` | cpu/ctrl816.go:256-278 | executing BRK, $00 by SoftwareOpcodes, goes to the vector at $FFFE, natively $FFE6, in bank 0 with I set and D clear |
| `Cpu816.CopInstruction` | cpu/ctrl816.go:306-326 | executing COP, $02 by SoftwareOpcodes, goes to the vector at $FFF4, natively $FFE4 |
| `Cpu816.HardwareVectors` | cpu/cpu.go:643-669 | NMI, IRQ and ABORT go to $FFFA, $FFFE and $FFF8, natively $FFEA, $FFEE and $FFE8 |
| `Cpu816.BytesByColumn` | cpu/exec816.go:54-1053 | the operand bytes of an instruction that does not transfer control follow its column of the matrix: immediates as wide as their register, two for absolute and three for long addresses |
| `Cpu816.Cpu.MoveBlock` | cpu/ctrl816.go:288-304 | the first operand byte is the destination bank and becomes DBR, the second the source bank; a block move with narrow indexes keeps the rules exactly when both starting indexes, carried C+1 steps in the move's direction modulo 65536, are below $100 |
| `Cpu816.Cpu.NarrowMoveBreaks` | cpu/ctrl816.go:288-304 | witness: MVN of one byte with X at $FF in emulation leaves X at $100 |
| `Cpu816.Cpu.RunFromReset` | cpu/exec816.go:54-1053 | any run of instructions, NMIs, IRQs and ABORTs out of reset passes through states linked by Step or an interrupt entry, and ends with narrow indexes free of high bytes and the emulation stack in page one unless one of those states stands at a block move with narrow indexes |
| `Cpu816.Cpu.ServiceInterrupt` | cpu/cpu.go:643-669 | a hardware interrupt makes the specified entry and costs 7 cycles, 8 natively |
| `Cpu816.Cpu.SoftwareInterrupt` | cpu/ctrl816.go:256-278 | BRK and COP skip the signature byte and make the specified entry at their own vectors |
| `Cpu816.Cpu.ReturnFromInterrupt` | cpu/exec816.go:988-997 | RTI is the specified return: flags with the widths re-applied, then PC, then PBR in native mode only |
| `Cpu816.Cpu.Push8` | cpu/ctrl816.go:9-17 | a push writes at the pointer and moves it inside page one or through bank 0 |
| `Cpu816.Cpu.PushWordNew` | cpu/ctrl816.go:40-55 | the newer pushes leave page one while running and put the pointer's high byte back after |
| `Cpu816.Cpu.StepPush` | cpu/exec816.go:801-883 | each push instruction pushes its own register at the width in force |
| `Cpu816.Cpu.PullAccumulator` | cpu/exec816.go:809-819 | PLA loads the pulled byte or word, keeps B when narrow, sets N and Z at that width and moves the pointer by one or two |
| `Cpu816.Cpu.PullIndex` | cpu/exec816.go:829-860 | PLX and PLY load their own index at the width in force, with N and Z, and leave the other index alone |
| `Cpu816.Cpu.PullDataBank` | cpu/exec816.go:873-877 | PLB loads the data bank with N and Z of its byte |
| `Cpu816.Cpu.PullDirect` | cpu/exec816.go:887-893 | PLD loads the word the newer pull reads, outside page one if need be, with N and Z, and leaves the pointer forced back |
| `Cpu816.Cpu.StepIndex` | cpu/exec816.go:1063-1073 | index increments wrap at the current width and leave the other half alone |
| `Cpu816.IndexCounts` | cpu/exec816.go:1063-1073 | index increments and decrements count by one, wrapping within the width in force |
| `Cpu816.ResultFlags` | cpu/exec816.go:809-894 | N is a result's top bit at its width, Z says it is zero, and no other flag changes |
| `DirtyRanges.Tracker.Flush` | dap/steps.go:255-279 | a flush yields sorted, disjoint, maximal spans covering exactly the marked addresses with their current bytes, and clears the marks; a span that reaches the top of memory says end 0 |
| `DirtyRanges.CoversDetermines` | dap/steps.go:255-279 | those properties determine the list of spans |
| `DirtyRanges.Tracker.Mark` | dap/steps.go:217-228 | the write hook marks exactly one address and widens the bounds |
| `DirtyRanges.Apply` | internal/tui/model.go:959-963 | applying the spans brings a mirror that lagged only at marked addresses fully in step |
| `DirtyRanges.Follow` | internal/tui/model.go:945-964 | over any run that starts in step the mirror is what the writes made of memory up to the last event, frozen addresses aside, and lags only where marks are pending; after an event it is memory itself |
| `DirtyRanges.MirrorIsLastEvent` | internal/tui/model.go:945-964 | between events the mirror shows memory as it was at the last one |
| `DirtyRanges.Stream` | internal/tui/model.go:966-972 | the full refresh on the stop event leaves the mirror equal to what all the writes made of memory |
| `Frame.StreamReadsBack` | dap/frame.go:17-57 | any concatenation of framed non-empty bodies reads back as those bodies in order, whatever bytes they hold |
| `Frame.FramedReadsBack` | dap/frame.go:17-57 | one framed body reads back with the rest of the stream untouched; an empty body is refused |
| `Frame.OtherHeadersIgnored` | dap/frame.go:27-35 | header lines that do not name a length make no difference |
| `Frame.Stream.ReadMessage` | dap/frame.go:17-46 | the reading loop consumes and returns what the specification gives, each error included |
| `Frame.Stream.ReadLine` | dap/frame.go:20-23 | the buffered line read takes everything up to the first newline |
| `WalkBack.WalkBackAt` | cpu/disasm.go:68-107 | the result is a gap-free chain of instruction starts ending exactly at pc, the last n of the longest chain that starts within 64 bytes, the earliest start winning ties |
| `WalkBack.BestIsLongest` | cpu/disasm.go:98-104 | the winner has at least as many instructions as any other chain starting within 64 bytes, and starts no later than any other of its length |
| `WalkBack.WalkBack` | cpu/disasm.go:61-63 | the same over memory as the NMOS table decodes it |
| `WalkBack.WalkFindsChain` | cpu/disasm.go:82-97 | forward decoding from a start meets pc exactly when a chain begins there, and that chain is unique |
| `WalkBack.Try` | cpu/disasm.go:79-97 | the inner loop is that forward decoding |
| `TraceProofs.TraceReadsBack` | cpu/trace.go:95-130 | parsing the written trace of any steps, of the NMOS or 65C02 table, and interrupts gives every step back in order, each tagged with the interrupt logged just before it |
| `TraceProofs.StepLineParses` | cpu/trace.go:103-130 | one logged line, for any three-capital mnemonic in any operand form, parses to its PC, opcode bytes, mnemonic, registers and cycle count |
| `TraceProofs.InterruptLineParses` | trace/replay.go:309-317 | a marker line gives its interrupt kind back |
| `TraceProofs.DecodedIsPlain` | cpu/disasm.go:112-174 | no three-capital mnemonic and no operand of any form, 65C02 forms included, can be taken for an opcode byte or a register tag |
| `TraceProofs.OperandSyntax` | cpu/disasm.go:127-159 | what an operand starts with tells immediate, indirect and direct modes apart, what it ends with names the index, and the number stands unchanged in it |
| `TraceProofs.TargetsAgree` | cpu/disasm.go:141-143 | the branch target printed is where the processor goes |
| `TraceReader.ParseTrace` | trace/replay.go:39-69 | the line loop with its pending tag computes the specified parse, errors included |
| `TraceReader.ParseLine` | trace/replay.go:225-292 | the field loops compute the specified frame or error |
| `TraceReader.Replay.SeekCycle` | trace/replay.go:125-144 | bisection finds the first frame at or past the target, or reports that there is none and rests on the last |
| `TraceReader.Replay.Step` | trace/replay.go:90-103 | the cursor moves by n clamped to both ends and reports whether it moved |

## Left out

- Cpu816.Cpu.Step: values computed by loads, arithmetic and shifts, effective addresses and the targets of branches and jumps are arbitrary inputs, because the width rules do not depend on them; cycle counts only for interrupts and block moves.
- NesCore.Nes.RunInstruction: data results and memory contents are arbitrary, because only cycles, polls and DMA are claimed; the 65C02-only modes and the NES core without a bus ticker are not modelled.
- RewindProofs.RewindIsExact: NMOS only. The snapshot omits `stoppedBySTP`, IRQ sources, the NES poll latches and the 65816 wide state, so rewinding across them is not exact; debugger pokes, key presses and counter wrap at 2^64 do not occur between a keyframe and its replay.
- TraceProofs.TraceReadsBack: traces without symbols, and interrupt kinds without dashes or blanks, which NMI and IRQ are; the 65816 disassembly is not modelled.
- DirtyRanges.Stream: no event is dropped, and memory changes only through CPU writes while the run lasts.
- Frame.StreamReadsBack: a byte is a character below 256, lengths fit a 63-bit integer, and white space is ASCII.
- Session: protocol messages, JSON, sockets, single-step handlers other than stepIn, and breakpoints; a run-loop iteration either goes on, streams state or halts. Unsynchronised memory accesses are sequentially consistent steps.
- Rewind with either ring absent, and the log lines and labels of the commands.
- Expression closures are trees with an evaluator; name lookup is a given map, memory reads a given function; the ten binary level functions are one function indexed by level; host variables and symbol files.
- The 65C02 decimal kernels and their extra cycle.
- PPU, APU, cartridges, MMIO devices, and the bus-trace pins and dummy addresses of the 65816.
- The panels, prompts, themes and state files of the terminal UI, and the web shells.
- The file handling of the tracer, the trace differ and the other cursor searches, which only add simple members.
