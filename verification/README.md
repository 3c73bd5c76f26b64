# Simple World: a verified model

Simple World (`simpleworld/`, `getopt/` and `src/`) breeds small programs: every
bug has its own 32-bit register-window CPU, lives on a grid that wraps around, pays energy for what it does,
and reproduces with mutated code. This project models the parts of it that carry state, and proves what they
are meant to guarantee. `dafny verify dfyconfig.toml` checks everything.

How the model is laid out:

- **The CPU.** `Machine.dfy` gives every operation as a function on the whole state (136 register words, byte
  memory, running flag), with the writes that an exception leaves behind. `Cpu.dfy` is the class that updates
  registers and memory step by step and is proved equal to it. `Stack.dfy`, `Windows.dfy`, `Runs.dfy` and
  `Faults.dfy` are the theory: sixteen windows and a spill stack are an unbounded list of private windows;
  every properly nested run gives its caller the frame back; which errors escape. `Traces.dfy` shows that
  balanced sequences of instructions and interrupts are such runs. `Transfers.dfy` and
  `Arithmetic.dfy` are about single instructions, `Memory.dfy` and `DbMemory.dfy` about the bytes under them.
  `Instructions.dfy` says, from the bytes at PC, what each instruction and each fault leaves, in numbers.
- **The actions of a bug.** `Timed.dfy` and `BugCpu.dfy`: the `world` instruction as a state machine over the
  cycles, and the overriding interrupt that cancels it.
- **The argument scanner.** `Arguments.dfy` reads a command line once from left to right; that is the meaning.
  `Getopt.dfy` is the resumable in-place scanner of GNU `getopt`, each of whose steps keeps that meaning.
- **The world.** `Movement.dfy` (torus), `World.dfy` (grid), `Simulation.dfy` (grid, rows and lists together,
  and their total matter), `Actions.dfy`, `Cycle.dfy` (phases, cycles, runs), and `SimpleWorld.dfy`, the class
  with the lists, rows and grid updated in place. `Lives.dfy` runs the program of a bug on that world: one
  cycle of its CPU and one turn of the world are the same run.
- **Mutation.** `Mutation.dfy`: the edit script in target coordinates and its replay with two cursors.

What the proofs brought out:

- Parsing a command line twice is not always parsing it once: exactly when the line ends with an option short
  of its required argument and there are operands (`Arguments.RescanSame`, `Arguments.RescanDiffers`).
- The copies of a mutation stay inside both codes for all draws when the length is a multiple of 4, and for no
  other length (`MutationModel.GoodSizes`); the tables only hold such codes. Even then a duplication that comes right where
  the edit before it left the cursor reads the word in front of the mutated code
  (`MutationModel.DuplicationReadsBefore`); nothing else an edit touches is ever outside
  (`MutationModel.ReplayStaysInside`).
- In a world one cell wide a bug can attack itself to death; the tables refuse the row and the program ends
  (`Actions.AttackRefused`).
- A code that mutation has left without words is refused by the tables, which nothing catches: laying or
  spawning an egg with it, or mutating a bug to it, ends the program (`Actions.LayRefused`,
  `Cycle.MutateEnds`). So does an egg source whose frequency is 0, which the tables allow
  (`SimpleWorldObject.SimpleWorld.Spawn`).
- A memory that is resized to a size the tables refuse has that size already when the error is thrown
  (`DbMemoryModel.DbMemory.Resize`).
- In a full region of 65536 cells or more the search for a free cell does not end, because the count has
  sixteen bits (`WorldModel.World.UnusedPosition`).
- An attack or an egg that was interrupted while it waited is carried out later with the code of the
  interruption, 2, as its energy, because the same instruction is run again with the new G0
  (`TimedActions.CancelledBeginsAgain`).
- `SimpleWorld::move` uses the cell in front whatever direction is asked for, and `eat` reports energy for an
  egg that it does not give. `spawn_eggs` counts bugs, not eggs, before it adds eggs. All are modelled as
  written.
- The pops of `reti` and `ret` restore in an order that leaves IP for last, which is why a fault in them can
  still be delivered (`FaultContainment.RetiOutcome`).

The integers are those of the source: `Word` is 32 bits and wraps, `HalfWord` 16, `Offset` a signed 16-bit
value, and the host is little endian. Bounds checks are done without wrap-around, as with a 64-bit `size_t`.

## Model

| member | source | states |
|---|---|---|
| WindowStack.CallCommutes | simpleworld/cpu/operations_function.cpp:101-175 | A `call` or `callr` that goes in pushes one private window on the unbounded list: all older windows, in the file or on the stack, are as they were, LR is the old PC, FP the new SP, memory below SP is untouched |
| WindowStack.InterruptCommutes | simpleworld/cpu/cpu.cpp:239-318 | An enabled interrupt whose frame fits pushes one window over the five saved globals, which can be read back at the old SP, with the code and its two words in G0 to G2 |
| WindowStack.RetCommutes | simpleworld/cpu/operations_function.cpp:114-209 | `ret` on a stacked machine never faults, pops exactly the last window, leaves memory and the other globals alone, and resumes at LR with SP under the spilled locals |
| WindowStack.RetiCommutes | simpleworld/cpu/operations_function.cpp:76-94 | `reti` also puts back IP and G0 to G3 from the 20 bytes below the window |
| WindowStack.CallEnters | simpleworld/cpu/operations_function.cpp:130-148 | What a call does to the state, spilling or not: the counter, SP, LR, FP, the windows of the file and the memory below |
| WindowStack.HandlerEnters | simpleworld/cpu/cpu.cpp:272-317 | The same for the entry of an interrupt handler, with the globals saved below the spilled locals |
| WindowStack.EnteringPushes | simpleworld/cpu/operations_function.cpp:101-107 | Any entry that spills past window 15 or moves on in the file appends one window to the list |
| WindowStack.SpillingAppends | simpleworld/cpu/operations_function.cpp:34-48 | When the file is full, the locals stored on the stack extend the chain of saved frames by exactly the window that was current |
| WindowStack.LeavingPops | simpleworld/cpu/operations_function.cpp:114-120 | Leaving a frame never faults while frames are stacked, and drops exactly the last window of the list |
| WindowStack.LeaveFits | simpleworld/cpu/operations_function.cpp:200-232 | State after the common part of `ret` and `reti`, on both sides of the spill threshold |
| WindowStack.ChainKept | simpleworld/cpu/operations_function.cpp:34-69 | The saved frames depend only on memory below the frame they start from |
| WindowStack.ChainDepth | simpleworld/cpu/operations_function.cpp:34-69 | Saved frames do not overlap: `n` of them need 32n bytes below the frame pointer |
| WindowStack.CounterFits | simpleworld/cpu/operations_function.cpp:101-107 | While frames are stacked in 32-bit memory the window counter cannot wrap |
| WindowStack.GlobalsLeaveWindows | simpleworld/cpu/cpu.cpp:137-165 | Writing global registers other than WC does not change the list of windows |
| NestedRuns.FrameRestores | simpleworld/cpu/operations_function.cpp:130-232 | For every properly nested run of any depth, call to return and interrupt to `reti`: the caller gets back WC, SP, its eight locals, all windows and memory below, IP and G0 to G3 for an interrupt, and goes on at the right PC |
| NestedRuns.RunKeepsFrame | simpleworld/cpu/operations_function.cpp:130-232 | A run of disciplined steps and whole nested frames keeps the frame it runs in |
| NestedRuns.RunKeepsWindows | simpleworld/cpu/operations_function.cpp:101-232 | Such a run leaves every window below its own on the unbounded list exactly as it was |
| NestedRuns.FrameRestoresWindows | simpleworld/cpu/operations_function.cpp:101-232 | A whole frame leaves the whole list of windows as it was |
| NestedRuns.InstructionKeepsFrame | simpleworld/cpu/cpu.cpp:81-128 | Every instruction other than calls, returns and `int` that ends normally, does not write WC, LR or FP, and stores at or above FP with SP at or above FP, is a disciplined step |
| NestedRuns.CallRestores | simpleworld/cpu/operations_function.cpp:130-209 | What `ret` finds when the body kept its frame is what the call left |
| NestedRuns.InterruptRestores | simpleworld/cpu/cpu.cpp:239-318 | Interrupt transparency: PC unchanged after the timer, one word on after an interrupt thrown by an instruction |
| NestedRuns.HandlerRestores | simpleworld/cpu/operations_function.cpp:218-232 | `reti` after a handler that kept its frame restores SP, WC, the locals and the saved globals on both sides of the threshold |
| NestedRuns.LeavingRestores | simpleworld/cpu/operations_function.cpp:114-120 | Leaving after a body that kept its frame gives the entering state its windows and stack back |
| Traces.TraceIsRun | simpleworld/cpu/cpu.cpp:81-128 | For every sequence of `next` and outside interrupts in which each instruction obeys the rules in its own frame and returns match entries, faults that are handled included: the sequence is a run of nested frames and keeps the frame it is in |
| Traces.TraceRestores | simpleworld/cpu/cpu.cpp:81-318 | From the event that enters a frame, be it a call, an interrupt or an instruction that faults, to the return that matches it: the state where it was entered is restored, window by window |
| Traces.SegmentIsRun | simpleworld/cpu/cpu.cpp:81-128 | The induction: up to the return of the innermost open frame the trace is a run, and what follows is balanced again |
| Traces.EventObeys | simpleworld/cpu/cpu.cpp:81-128 | Each event of the machine is what its role says: a step that keeps the frame, an entry, or the return of the frame |
| Traces.FaultKeepsFrame | simpleworld/cpu/cpu.cpp:109-127 | An instruction that faults without leaving its frame has kept it, whatever it had already written |
| Traces.InterruptFaultKeeps | simpleworld/cpu/cpu.cpp:239-318 | An interrupt that cannot be delivered has written no window and nothing below FP |
| FaultContainment.NextContained | simpleworld/cpu/cpu.cpp:81-128 | While running with IP = 0 nothing escapes `next`, for any memory, registers and instruction |
| FaultContainment.NextEscapes | simpleworld/cpu/cpu.cpp:81-128 | With any IP, only a `MemoryError` escapes, and exactly when an instruction faults and its interrupt cannot be delivered: vector unreadable, or 20 (from WC 15 on 52) bytes do not fit at SP |
| FaultContainment.ExecuteContained | simpleworld/cpu/cpu.cpp:66-75 | A whole `execute` during which the table stays off never throws |
| FaultContainment.InterruptSucceeds | simpleworld/cpu/cpu.cpp:239-318 | An interrupt ends normally if and only if it is off or deliverable; when it fails, IP and memory below SP are unchanged |
| FaultContainment.HandlerFits | simpleworld/cpu/cpu.cpp:272-318 | The handler is entered if and only if its frame fits |
| FaultContainment.CallFaultLeavesState | simpleworld/cpu/operations_function.cpp:34-107 | A call goes in if and only if its target is readable and the locals fit; a call that faults leaves all registers and memory below SP unchanged |
| FaultContainment.LeaveOutcome | simpleworld/cpu/operations_function.cpp:114-120 | `ret` can only end normally or with a `MemoryError`, and keeps IP |
| FaultContainment.RetiOutcome | simpleworld/cpu/operations_function.cpp:218-232 | A `reti` that faults half way has not yet reached IP |
| FaultContainment.PerformOutcome | simpleworld/cpu/cpu.cpp:88-112 | Whatever instruction faults, the handler table register is still the one it had |
| FaultContainment.ComputeOutcome | simpleworld/cpu/operations_arithmetic.cpp:198-257 | A division by zero or a bad register operand keeps IP when it faults |
| FaultContainment.PopFaultKeepsLast | simpleworld/cpu/operations_function.cpp:76-94 | Popping registers that faults has not reached the last of them |
| StackLemmas.PushAllFits | simpleworld/cpu/operations_function.cpp:34-48 | Words pushed upwards: they fit if and only if the space exists, each is where it should be, and nothing else changed |
| StackLemmas.PopAllFits | simpleworld/cpu/operations_function.cpp:55-94 | Registers popped downwards: they succeed when the words exist and nothing but those registers and SP changes |
| StackLemmas.PopAllValue | simpleworld/cpu/operations_function.cpp:55-94 | Register `k` of a pop holds the word `k + 1` below the old top |
| StackLemmas.PushLocalsFits | simpleworld/cpu/operations_function.cpp:34-48 | The eight locals land in order in the 32 bytes at SP, or no register changes |
| StackLemmas.IncreaseFits | simpleworld/cpu/operations_function.cpp:101-107 | Exact state after `increase_window`, success if and only if nothing spills or 32 bytes fit |
| StackLemmas.PopLocalsFits | simpleworld/cpu/operations_function.cpp:55-69 | The eight locals come back from the 32 bytes below SP |
| StackLemmas.DecreaseFits | simpleworld/cpu/operations_function.cpp:114-120 | Exact state after `decrease_window` |
| StackLemmas.PopGlobalsFits | simpleworld/cpu/operations_function.cpp:76-94 | The five globals come back and nothing else but SP changes |
| StackLemmas.SetGet | simpleworld/cpu/cpu.cpp:137-165 | A register written is read back and no other register of any window changes |
| CpuObject.Cpu.constructor | simpleworld/cpu/cpu.cpp:42-50 | A register memory that is too short is extended with zeros, a longer one is used as it is |
| CpuObject.Cpu.GetReg | simpleworld/cpu/cpu.cpp:137-147 | Reads through the window map, counters past 15 using window 15 |
| CpuObject.Cpu.SetReg | simpleworld/cpu/cpu.cpp:155-165 | Writes through the window map and changes no other register |
| CpuObject.Cpu.PushLocals | simpleworld/cpu/operations_function.cpp:34-48 | The loop over SP does the abstract push, faults included |
| CpuObject.Cpu.PopLocals | simpleworld/cpu/operations_function.cpp:55-69 | The loop does the abstract pop, a fault keeping what was already loaded |
| CpuObject.Cpu.PopGlobals | simpleworld/cpu/operations_function.cpp:76-94 | The loop pops G3 down to IP and then writes SP |
| CpuObject.Cpu.IncreaseWindow | simpleworld/cpu/operations_function.cpp:101-107 | New state and outcome as specified, the counter moving only when the push succeeded |
| CpuObject.Cpu.DecreaseWindow | simpleworld/cpu/operations_function.cpp:114-120 | New state and outcome as specified, the counter moving first |
| CpuObject.Cpu.Call | simpleworld/cpu/operations_function.cpp:130-148 | PC-relative call: the target is checked before the window moves |
| CpuObject.Cpu.Callr | simpleworld/cpu/operations_function.cpp:157-175 | Call through a register, read before the window moves |
| CpuObject.Cpu.Ret | simpleworld/cpu/operations_function.cpp:200-209 | PC and SP from LR and FP, then the window, then the PC update |
| CpuObject.Cpu.Reti | simpleworld/cpu/operations_function.cpp:218-232 | The same and the globals, without PC update |
| CpuObject.Cpu.InterruptEnabled | simpleworld/cpu/cpu.cpp:354-369 | Off with IP 0, else by the vector word, else a `MemoryError` |
| CpuObject.Cpu.Interrupt | simpleworld/cpu/cpu.cpp:239-318 | The whole delivery, statement by statement, with the writes each fault leaves behind |
| CpuObject.Cpu.EnterHandler | simpleworld/cpu/cpu.cpp:272-318 | Saving globals and locals, then LR, FP, G0 to G2 and PC |
| CpuObject.Cpu.GetByData | simpleworld/cpu/cpu.cpp:137-147 | A register number from the data field is cut to 8 bits and may be past the register memory |
| CpuObject.Cpu.Load | simpleworld/cpu/operations_move.cpp:74-208 | Nine loads: PC-relative, indexed and offset, in three widths, big endian |
| CpuObject.Cpu.Store | simpleworld/cpu/operations_move.cpp:271-403 | Nine stores, cutting the value to the width |
| CpuObject.Cpu.Push | simpleworld/cpu/operations_move.cpp:414-422 | Stores at SP and moves SP up |
| CpuObject.Cpu.Pop | simpleworld/cpu/operations_move.cpp:430-438 | SP has already moved when the load faults |
| CpuObject.Cpu.Restart | simpleworld/cpu/operations_management.cpp:45-51 | The loop zeroes registers 0 to 15 in order, so that window 0 is the one cleared |
| CpuObject.Cpu.Compute | simpleworld/cpu/operations_arithmetic.cpp:198-257 | One register written, a branch whose target is checked, or the division interrupt |
| CpuObject.Cpu.Perform | simpleworld/cpu/cpu.cpp:88-112 | Every instruction of the base set, unknown codes being a `CodeError` |
| CpuObject.Cpu.FetchInstruction | simpleworld/cpu/cpu.cpp:335-344 | The instruction fields of the word at PC, or the fault address |
| CpuObject.Cpu.Next | simpleworld/cpu/cpu.cpp:81-128 | One instruction with its PC update, and its errors as interrupts |
| CpuObject.Cpu.Execute | simpleworld/cpu/cpu.cpp:66-75 | The loop over cycles; the number left is returned in 8 bits, as written |
| Transfers.StoreThenLoad | simpleworld/cpu/operations_move.cpp:74-403 | A load in the same mode finds what a store left, cut to its width; both reach the same address and fault together; a store changes no other byte |
| Transfers.PushThenPop | simpleworld/cpu/operations_move.cpp:414-438 | `pop` undoes `push`: the value arrives, SP is back, wherever the stack is |
| Transfers.RestartClears | simpleworld/cpu/operations_management.cpp:45-51 | The globals and window 0 are cleared, whatever window was current; the other windows and memory stay |
| InstructionSet.FetchDecodes | simpleworld/cpu/instruction.cpp:51-90 | The four bytes an instruction is encoded to are decoded to it: code, two nibbles, and the data most significant byte first |
| InstructionSet.InterruptDelivers | simpleworld/cpu/cpu.cpp:239-318 | An interrupt that is taken and ends normally: G0, G1, G2 are its code and its two words in order, PC is the word at IP + 4 * code, LR is PC + 4, or PC after the timer and world events, FP and SP are above the frame of 20 or 52 bytes, in which IP, G0 to G3 and the locals lie in order; one that is off only moves PC |
| InstructionSet.EntryMissing | simpleworld/cpu/cpu.cpp:354-369 | An entry that cannot be read fails with its address, PC having moved |
| InstructionSet.Delivered | simpleworld/cpu/cpu.cpp:239-318 | An interrupt thrown by an instruction ends normally exactly when it is off or its frame fits, and then has handed over its words or only moved PC |
| InstructionSet.MissingInstruction | simpleworld/cpu/cpu.cpp:81-128 | Without an instruction at PC, interrupt 3 is handed PC twice |
| InstructionSet.UnknownInstruction | simpleworld/cpu/cpu.cpp:108-112 | A code that is none of the instruction set hands PC and the code to interrupt 2 |
| InstructionSet.SoftwareInterruptMeans | simpleworld/cpu/operations_function.cpp:184-192 | `int` hands its data and zero to interrupt 1 |
| InstructionSet.LoadMeans | simpleworld/cpu/operations_move.cpp:74-208 | Each of the nine loads by its code: address, width, byte order and the register it reaches; an address that does not exist is handed, with PC, to interrupt 3 |
| InstructionSet.StoreMeans | simpleworld/cpu/operations_move.cpp:271-403 | Each of the nine stores by its code: which register goes where, cut to the width, with every other byte as it was; a missing address as for loads |
| InstructionSet.MoveMeans | simpleworld/cpu/operations_move.cpp:42-47 | The second register is copied to the first |
| InstructionSet.PushMeans | simpleworld/cpu/operations_move.cpp:414-422 | The register is stored at SP and SP moves up a word |
| InstructionSet.PopMeans | simpleworld/cpu/operations_move.cpp:430-438 | SP moves down a word and the word there reaches the register; a fault finds SP moved |
| InstructionSet.StopMeans | simpleworld/cpu/operations_management.cpp:34-51 | `stop` stops; `restart` clears registers 0 to 15 and goes on at 0 |
| InstructionSet.CallMeans | simpleworld/cpu/operations_function.cpp:130-175 | `call` goes to PC plus its signed offset and `callr` to what its register holds; the new window is linked by LR and FP, and from window 15 on the locals lie in order where SP was; a missing target is handed to interrupt 3 |
| InstructionSet.RetMeans | simpleworld/cpu/operations_function.cpp:200-209 | `ret` goes on behind the word at LR with the counter down, SP below the frame and, past window 15, the eight locals back from it |
| InstructionSet.RetiMeans | simpleworld/cpu/operations_function.cpp:218-232 | `reti` goes on at LR itself, with IP and G0 to G3 back from the five words below |
| InstructionSet.ComputeMeans | simpleworld/cpu/cpu.cpp:81-128 | The other instructions: the result reaches the first register; a branch goes to PC plus its signed offset, which must exist even when it is not taken; a division by zero hands PC and the dividend to interrupt 4; a bad register goes to interrupt 3 |
| InstructionSet.ExecuteSplit | simpleworld/cpu/cpu.cpp:66-75 | Executing a + b instructions is executing a and then b, unless the first end in an error; executing one is `next` |
| MemoryModel.WordRoundTrip | simpleworld/cpu/memory.cpp:113-207 | A stored word is read back and no byte outside its four changes |
| MemoryModel.WordIsTwoHalves | simpleworld/cpu/memory.cpp:113-238 | A word is its two halves, read or written |
| MemoryModel.DisjointWords | simpleworld/cpu/memory.cpp:188-207 | Writes to disjoint words commute and do not see each other |
| MemoryModel.AlignedWords | simpleworld/cpu/cpu.cpp:137-165 | Aligned access makes the register memory an array of words |
| MemoryModel.NativeIsSwapped | simpleworld/cpu/memory.cpp:113-207 | Reversing the bytes and storing natively is storing big endian |
| MemoryModel.SwapTwice | simpleworld/cpu/memory.cpp:113-130 | The byte order reversed twice is the word |
| MemoryModel.Resized | simpleworld/cpu/memory.cpp:84-100 | The common prefix is kept and the rest is zero |
| MemoryModel.Memory.Resize | simpleworld/cpu/memory.cpp:84-100 | New contents and size |
| MemoryModel.Memory.GetWord | simpleworld/cpu/memory.cpp:113-130 | Bounds check, then the big-endian or raw word |
| MemoryModel.Memory.SetWord | simpleworld/cpu/memory.cpp:188-207 | Bounds check; an access out of range changes nothing |
| MemoryModel.Memory.SetHalfWord | simpleworld/cpu/memory.cpp:219-238 | The same for half words |
| MemoryModel.Memory.SetQuarterWord | simpleworld/cpu/memory.cpp:246-255 | The same for bytes |
| MemoryModel.Memory.Assign | simpleworld/cpu/memory.cpp:263-270 | Becomes a copy of the other memory, also of itself |
| DbMemoryModel.DbMemory.SetWord | simpleworld/dbmemory.cpp:77-89 | Memory and stored blob stay the same bytes; a write out of range reaches neither |
| DbMemoryModel.DbMemory.SetHalfWord | simpleworld/dbmemory.cpp:101-108 | The same for half words |
| DbMemoryModel.DbMemory.SetQuarterWord | simpleworld/dbmemory.cpp:116-120 | The same for bytes |
| DbMemoryModel.DbMemory.Resize | simpleworld/dbmemory.cpp:60-64 | The memory is resized; the blob follows if and only if the table takes the size (whole words and not none for codes, 544 bytes for registers), and otherwise keeps its bytes, so that the two differ |
| DbMemoryModel.DbMemory.Update | simpleworld/dbmemory.cpp:46-52 | The memory becomes the blob again |
| DbMemoryModel.DbMemory.Assign | simpleworld/dbmemory.cpp:128-134 | A copied memory is written through; a size the table refuses leaves the blob alone and the memory resized but not copied |
| DbMemoryModel.WrittenWord | simpleworld/dbmemory.cpp:77-89 | On a little-endian host the bytes handed to the database are the four big-endian bytes of the word |
| DbMemoryModel.Blob.WriteAt | simpleworld/db/blob.cpp:177-191 | A part of a blob is replaced if it fits, and never changes its size |
| ArithmeticUnit.ProductIsExact | simpleworld/cpu/operations_arithmetic.cpp:99-172 | For all operands multhu * 2^32 + mult is the exact product; both fault on the same bad register |
| ArithmeticUnit.QuotientRecombines | simpleworld/cpu/operations_arithmetic.cpp:198-257 | div * divisor + mod is the dividend with mod below the divisor; both interrupt exactly when the divisor is zero |
| ArithmeticUnit.RotateMultiplies | simpleworld/cpu/operations_shift.cpp:129-154 | For counts 1 to 31, `rl` by n is multiplication by 2^n modulo 2^32 - 1 |
| ArithmeticUnit.RotateMeans | simpleworld/cpu/operations_shift.cpp:129-189 | A rotation exchanges the high n bits with the rest, and rotating right by 32 - n is rotating left by n |
| ArithmeticUnit.RotateUndone | simpleworld/cpu/operations_shift.cpp:129-189 | `rr` undoes `rl` and `rl` undoes `rr` |
| ArithmeticUnit.RotationsCancel | simpleworld/cpu/operations_shift.cpp:129-189 | The instructions, in register and immediate form, undo each other |
| ArithmeticUnit.OperateGives | simpleworld/cpu/operations_arithmetic.cpp:34-278 | By code, the result is the sum, difference, low or high half of the product, quotient, remainder, or the rotation to the left or right, each characterised by what it gives; a divisor of zero interrupts with the dividend |
| ArithmeticUnit.CodesMean | simpleworld/cpu/isa.cpp:128-166 | The instructions with these codes apply that to the second register and to the data, or, in the even codes, the register it numbers |
| ArithmeticUnit.OrAdds | simpleworld/cpu/operations_shift.cpp:129-189 | The bitwise or of the two shifted parts is their sum, because they share no bit |
| TimedActions.ActionEnds | simpleworld/operations_world.cpp:78-268 | An action begun in cycle t with duration d waits with PC, registers and memory unchanged, whatever interrupts come that are switched off, the timer included, and is carried out once, in cycle t + d |
| TimedActions.ActionWaits | simpleworld/operations_world.cpp:78-139 | In the cycles from t up to t + d nothing but its date is written and nothing is done, whatever the world would answer and whatever interrupts come that are switched off |
| TimedActions.QuietUnnoticed | simpleworld/cpu.cpp:67-80 | A timer interrupt or an event of the world that is switched off changes nothing of a bug, with or without an action in progress |
| TimedActions.EndingCompletes | simpleworld/operations_world.cpp:142-270 | On its date the action is done once with the energy in G0, dated and cleared; G0 tells success or failure, G1 and G2 hold the two words of the answer exactly for the actions that tell them, and nothing else but PC changes |
| TimedActions.DurationTable | simpleworld/operations_world.cpp:82-131 | How long each action takes, by its code |
| TimedActions.BeginningRefused | simpleworld/operations_world.cpp:80-139 | Beginning an action ends the program exactly when its date, in 32 bits, is past, zero or not a positive signed number |
| TimedActions.ReceiveOne | simpleworld/simpleworld.cpp:804-821 | A failed timer interrupt loses the bug; an event that cannot be told does not |
| TimedActions.BugNextIsNext | simpleworld/cpu.cpp:50-80 | With no action in progress and a readable table, every instruction but `world` does for a bug what it does for the CPU, faults and what they hand over included |
| TimedActions.UnknownActionHandsOver | simpleworld/cpu.cpp:50-60 | A `world` instruction with an unknown code hands PC and that code to interrupt 5 |
| TimedActions.WaitingChangesNothing | simpleworld/operations_world.cpp:137-139 | A waiting cycle changes nothing at all |
| TimedActions.CancellingPushesNothing | simpleworld/cpu.cpp:69-77 | An enabled interrupt during an action clears it, sets G0 to ActionInterrupted, and touches no other register and no memory |
| TimedActions.CancelledBeginsAgain | simpleworld/cpu.cpp:69-77 | An action cancelled by an interrupt that is on begins again from the start, ends d cycles after it, and is then given the interruption code as its energy |
| TimedActions.IdleInterrupts | simpleworld/cpu.cpp:69-80 | With no action in progress the interrupt is the one of the base CPU |
| TimedActions.BugInterruptSucceeds | simpleworld/cpu.cpp:69-80 | The interrupt of a bug ends normally if and only if it cancels an action or can be delivered |
| TimedActions.BugNextEscapes | simpleworld/cpu.cpp:50-80 | For any IP: no action error leaves the cycle of a bug, and a `MemoryError` leaves exactly when an instruction fails and its interrupt neither cancels an action nor can be delivered |
| TimedActions.BugNextContained | simpleworld/cpu.cpp:50-60 | With IP = 0 no error of the CPU leaves the cycle of a bug |
| BugCpuObject.BugCpu.World | simpleworld/operations_world.cpp:65-270 | The `world` instruction: beginning, blocking, unknown actions, the answers and the errors |
| BugCpuObject.BugCpu.Interrupt | simpleworld/cpu.cpp:69-80 | The overriding interrupt as specified |
| BugCpuObject.BugCpu.Perform | simpleworld/cpu.cpp:69-80 | Software and division interrupts of the base instructions go through the override |
| BugCpuObject.BugCpu.Next | simpleworld/cpu.cpp:50-60 | One instruction of a bug; an action error becomes its interrupt with the instruction data |
| BugCpuObject.BugCpu.Execute | simpleworld/simpleworld.cpp:1048-1055 | The instructions of one cycle, until one blocks or throws |
| GetoptObject.Getopt.ScanAll | getopt/getopt.c:393-503 | The calls up to the first -1 report exactly the events of one left-to-right reading up to one that is itself -1; when there is none, argv is options then operands and optind the boundary |
| Arguments.ScanIsStable | getopt/getopt.c:426-485 | The options with their arguments and a first `--`, and the operands, each keep the order of the command line |
| Arguments.ScanIsPermutation | getopt/getopt.c:426-485 | No argument is lost, added or changed |
| Arguments.RescanSame | src/egg.cpp:182-194 | Scanning the permuted line again gives the same events, options and operands if and only if the line does not both have operands and end with an option short of its required argument |
| Arguments.RescanStarved | getopt/getopt.c:1082-1124 | When it does, the second scan takes the first operand as that argument |
| Arguments.RescanDiffers | getopt/getopt.c:1082-1124 | The line `file -c` with `c:` is one |
| Arguments.Rescan | getopt/getopt.c:406-485 | The options of a scan, followed by operands, scan to the same events and options |
| Arguments.LeftOverOperands | getopt/getopt.c:426-467 | Without a `--` that ends the options, what is left over is only operands |
| Arguments.ScanNeverEnds | getopt/getopt.c:393-503 | Only the end of a scan reports -1, when no long option has that value and no declared option character is the one that a signed `char` turns into it |
| Arguments.LongWithValue | getopt/getopt.c:596-620 | `--name=value` for a name that stands for one option: its declared result and the text after the first equals sign; a complaint with its value when it takes no argument |
| Arguments.LongAlone | getopt/getopt.c:660-716 | `--name`: a required argument is the next of the line, whatever it looks like, or is missing at the end, with a colon or question mark; other options are reported without one |
| Arguments.LongUnknown | getopt/getopt.c:570-594 | A name that stands for no option or for different ones is a question mark with `optopt` 0 |
| Arguments.ShortRead | getopt/getopt.c:496-503 | A dash and characters that are no long option are read one by one |
| Arguments.ShortUnknown | getopt/getopt.c:784-840 | A character that is not declared, or a colon, is a question mark with itself in `optopt`, and the next one is read |
| Arguments.ShortPlain | getopt/getopt.c:784-800 | A character declared without a colon is reported, and the next one read |
| Arguments.ShortWithArgument | getopt/getopt.c:1056-1120 | With one colon it takes the rest of its element, or the next argument, or complains; with two, the rest or nothing |
| Arguments.OthersRead | getopt/getopt.c:393-503 | An argument without a dash in front, or a dash alone, is an operand; `--` ends the options |
| Arguments.ResolvesOnce | getopt/getopt.c:528-594 | The rule for abbreviations decides every search |
| Arguments.ByteValue | getopt/getopt.c:784-784 | The number of a byte is itself, or 256 less from 128 on |
| Arguments.LookupResolves | getopt/getopt.c:528-594 | The search loop for long options finds exactly the exact or unambiguous match |
| GetoptObject.Getopt.ScanTwice | src/egg.cpp:182-194 | Two scans in a row through the same object: same reports, same order, same boundary, outside the one failing family, when no event is itself -1 |
| GetoptObject.Getopt.Exchange | getopt/getopt.c:191-268 | For all block lengths: the second block, then the first, both in order, nothing else touched, and the bounds describe the moved operands |
| GetoptObject.SwapSegments | getopt/getopt.c:225-262 | The inner loop swaps two disjoint segments |
| GetoptObject.Getopt.Initialize | getopt/getopt.c:272-283 | A new scan begins with no skipped operands |
| GetoptObject.Getopt.Next | getopt/getopt.c:393-503 | One call takes one event off the meaning of the line; bounds 1 <= first <= last <= optind <= argc hold; a call that reports something leaves a later element or fewer characters |
| GetoptObject.Getopt.Permute | getopt/getopt.c:433-452 | Bringing skipped operands behind the options and skipping more keeps the meaning |
| GetoptObject.Getopt.Terminate | getopt/getopt.c:463-473 | `--` joins the options and everything after it is an operand |
| GetoptObject.Getopt.Advance | getopt/getopt.c:423-503 | Either the next option element, or the end with argv permuted and optind at the first operand |
| GetoptObject.Getopt.FindLong | getopt/getopt.c:528-594 | The search loop returns the specified match |
| GetoptObject.Getopt.LongCall | getopt/getopt.c:515-777 | Ambiguous, unknown, and matching long options with attached, separate, unwanted and missing arguments |
| GetoptObject.Getopt.ShortCall | getopt/getopt.c:783-1124 | One character of a cluster: unknown, plain, optional and required arguments |
| GetoptObject.ExchangeMeans | getopt/getopt.c:438-442 | Exchanging the blocks does not change what the line means |
| GetoptObject.TerminatorMeans | getopt/getopt.c:463-473 | What is left to report after `--` is nothing, and which arguments are options and operands |
| MutationModel.WordsAreGood | simpleworld/mutation.cpp:100-313 | From a size that is a multiple of 4, for all draws on which generation finishes: every copy is inside both codes, the cursors end with the same rest in both, new size = old + 4 (additions + duplications - deletions), and every word an edit reads or writes is inside its code but for the word in front of the mutated code, touched exactly when a duplication comes where the edit before it left the cursor |
| MutationModel.ReplayStaysInside | simpleworld/mutation.cpp:177-313 | The replay reads and writes nothing outside either code if and only if no duplication of the script comes where the edit before it left the cursor |
| MutationModel.DuplicationReadsBefore | simpleworld/mutation.cpp:277-288 | A one-word code with an addition and a duplication right behind it reads the word in front of the mutated code |
| MutationModel.ReplayTouches | simpleworld/mutation.cpp:177-313 | The induction: which words the edits touch from any point of the generation on |
| MutationModel.ApplyTouches | simpleworld/mutation.cpp:195-303 | The words one edit reads and writes are inside both codes, but for a duplication at the cursor, and where the edit leaves the cursor |
| MutationModel.GoodSizes | simpleworld/mutation.cpp:100-313 | All that `WordsAreGood` says holds for all draws if and only if the size is a multiple of 4 |
| MutationModel.PartialWordIsOverrun | simpleworld/mutation.cpp:100-167 | For every other size, a run that replaces the last partial word copies outside the code |
| MutationModel.ReplayMeets | simpleworld/mutation.cpp:177-313 | The induction on cursors and copies: generation and replay stay in step from any point on |
| MutationModel.GenerationEnds | simpleworld/mutation.cpp:100-167 | A generation that finishes ends exactly at its size, never past it |
| MutationModel.ApplyInside | simpleworld/mutation.cpp:184-303 | The chunk copied before an edit is inside both codes, and the cursors move as the edit says |
| MutationModel.DrawsMean | simpleworld/mutation.cpp:106-164 | Each of the six draws, and a miss, by number: what is recorded, where the address goes and how the size changes |
| MutationModel.EditMeans | simpleworld/mutation.cpp:184-303 | Each edit by its kind: the chunk copied, the words read and written, and how far each cursor goes |
| MutationModel.RestMeans | simpleworld/mutation.cpp:308-310 | What is left of the mutated code is copied in the end |
| MutationModel.GenerateList | simpleworld/mutation.cpp:100-167 | The `while` loop writes the specified script and size |
| MutationModel.Mutate | simpleworld/mutation.cpp:177-313 | The replay loop moves the cursors, copies, and touches words as specified |
| Movement.FrontCell | simpleworld/movement.cpp:85-125 | The cell in front, for each orientation and at the edges |
| Movement.TurnTable | simpleworld/movement.cpp:38-60 | Each orientation turned left and right |
| Movement.MoveUndone | simpleworld/movement.cpp:68-125 | For all sizes moves stay in range, and backward and forward undo each other |
| Movement.WalkAround | simpleworld/movement.cpp:85-125 | Walking the full width or height returns to the start |
| Movement.WalkCounts | simpleworld/movement.cpp:85-125 | After n steps the coordinate has moved by n modulo the size |
| Movement.EggFacesFather | simpleworld/simpleworld.cpp:624-628 | What is laid in front, turned twice left, faces the cell of its father |
| Movement.TurnsCancel | simpleworld/movement.cpp:38-60 | Left undoes right, and four turns give the orientation back |
| Movement.FrontIsOther | simpleworld/simpleworld.cpp:668-673 | In a world at least two wide both ways the front is another cell |
| WorldModel.RegionCells | simpleworld/world.cpp:109-139 | The nested loops count exactly the occupied cells of the region |
| WorldModel.FreeCellExists | simpleworld/world.cpp:231-244 | Pigeonhole: when the check passes, a free cell exists |
| WorldModel.RegionFull | simpleworld/world.cpp:231-235 | A region counts as many as its area only if it is full, and never more |
| WorldModel.FullWhenCounted | simpleworld/world.cpp:231-235 | A region is full if and only if it counts as many elements as it has cells |
| WorldModel.NumberAdds | simpleworld/world.cpp:109-158 | A new element adds one to its kind in the regions that hold it and to no other count |
| WorldModel.World.NumElements | simpleworld/world.cpp:109-139 | The two loops compute the count of the region in sixteen bits |
| WorldModel.World.UnusedPosition | simpleworld/world.cpp:231-244 | The error if and only if the region is full and has fewer than 65536 cells, no end if it is full and has more, else a free cell of it |
| WorldModel.World.UnusedAnywhere | simpleworld/world.cpp:210-222 | The same for the whole world, from the element counter |
| WorldModel.World.Add | simpleworld/world.cpp:149-158 | Refuses positions outside or used, else the cell holds the element and the counter follows |
| WorldModel.World.Remove | simpleworld/world.cpp:166-173 | Refuses positions that hold nothing |
| WorldModel.World.Get | simpleworld/world.cpp:196-202 | The element or the error |
| WorldModel.World.Relocate | simpleworld/world.cpp:265-282 | Moves only bugs, only to a free cell of the world; otherwise nothing changes |
| WorldModel.World.constructor | simpleworld/world.cpp:78-101 | An empty grid of the given size |
| Simulation.CellMeans | simpleworld/simpleworld.cpp:69-121 | A cell holds an element if and only if the element is in one of the three lists and says that position; no element is in two lists |
| Simulation.InsertAgrees | simpleworld/simpleworld.cpp:686-712 | A new element on a free cell keeps grid, rows and lists in agreement |
| Simulation.DeleteAgrees | simpleworld/simpleworld.cpp:1117-1125 | Dropping an element keeps them in agreement |
| Simulation.RelocateAgrees | simpleworld/simpleworld.cpp:440-447 | Moving an element keeps them in agreement |
| Simulation.TotalInserted | simpleworld/simpleworld.cpp:740-748 | A new element adds exactly its weight to the matter of the world |
| Simulation.TotalDeleted | simpleworld/simpleworld.cpp:1117-1125 | Dropping one takes exactly its weight away |
| Simulation.TotalUpdated | simpleworld/simpleworld.cpp:828-853 | Changing a row changes matter by the change of its weight |
| Simulation.TotalRelocated | simpleworld/simpleworld.cpp:440-447 | Moving changes no matter |
| Actions.KillKeeps | simpleworld/simpleworld.cpp:960-992 | A death loses exactly the energy left: the code lies there as food; grid and lists agree |
| Actions.KillLeavesFood | simpleworld/simpleworld.cpp:966-975 | The food lies on the cell of the dead and has the size of its code |
| Actions.BirthKeeps | simpleworld/simpleworld.cpp:859-877 | A birth loses nothing and leaves everything in agreement |
| Actions.SpendKeeps | simpleworld/simpleworld.cpp:828-853 | Paying takes exactly the cost, or takes nothing and announces the death |
| Actions.FrontOfCell | simpleworld/simpleworld.cpp:668-673 | The cell a bug looks at, for each orientation and at the edges |
| Actions.MoveEnds | simpleworld/simpleworld.cpp:430-451 | A move is a death exactly when the fee is not covered, an action error exactly when the cell in front is taken, and otherwise puts the bug there; all that it changes |
| Actions.TurnEnds | simpleworld/simpleworld.cpp:459-474 | A turn is a death exactly when the fee is not covered, and otherwise turns the bug to the side asked for |
| Actions.AttackEnds | simpleworld/simpleworld.cpp:482-537 | An attack, on eggs and bugs alike: an action error exactly at an empty cell or food, refused exactly when the bug would kill itself, an event error exactly when a surviving bug cannot be told, a death exactly when fee or energy are not covered, and a success otherwise; what was paid and lost in each case |
| Actions.EatEnds | simpleworld/simpleworld.cpp:545-591 | A meal: an action error exactly at an empty cell or a bug, refused exactly when the sum does not fit the column, a death exactly when the fee is not covered, and a success otherwise |
| Actions.LayEnds | simpleworld/simpleworld.cpp:599-660 | Laying: which of the fee, the code and the energy is not covered, or the cell or code not usable, decides how it ends; only a layer that dies of the energy leaves an egg behind |
| Actions.MoveSteps | simpleworld/simpleworld.cpp:430-451 | A move goes to the cell in front or nowhere, costs exactly its fee and keeps agreement |
| Actions.TurnSteps | simpleworld/simpleworld.cpp:459-474 | A turn costs exactly its fee |
| Actions.AttackSteps | simpleworld/simpleworld.cpp:482-537 | However an attack ends, the world agrees, the attacker is still in it, and matter has not grown |
| Actions.AttackMeans | simpleworld/simpleworld.cpp:482-537 | A blow that lands, also on the attacker itself: exact account of attacker, target and matter, nothing else changed |
| Actions.AttackRefused | simpleworld/simpleworld.cpp:482-537 | An attack ends the program if and only if it would make a bug its own killer, which the tables refuse; that takes a world one cell wide |
| Actions.EatSteps | simpleworld/simpleworld.cpp:545-591 | However a meal ends, the world agrees and matter has not grown |
| Actions.EatMeans | simpleworld/simpleworld.cpp:545-591 | Food moves to the bug and frees the cell; an egg becomes food and gives no energy; exact account of matter |
| Actions.LaySteps | simpleworld/simpleworld.cpp:599-660 | Laying and surviving changes matter by exactly the fee; a layer that dies before the egg is placed adds nothing; one that dies after adds the code less the fee, less the energy it had over what the egg was to get; an egg that is refused costs the fee |
| Actions.LayRefused | simpleworld/simpleworld.cpp:599-640 | Laying ends the program if and only if the fee was paid, the egg was to have energy, the cell in front is free, and the possibly mutated code is empty or not made of whole words, which the tables refuse |
| Actions.LayMeans | simpleworld/simpleworld.cpp:599-660 | The egg is in front, faces its father, and has all the energy it was to have: the minimum in the source never bites for a survivor |
| Cycle.ActDecides | simpleworld/operations_world.cpp:142-268 | An action is dated exactly when it ends well or with an action error |
| Cycle.TurnDecides | simpleworld/simpleworld.cpp:1048-1060 | How a turn ends after any actions that were carried: by the death or refusal of the next one, or as the CPU leaves the cycle |
| Cycle.BugsRunSplit | simpleworld/simpleworld.cpp:1036-1062 | The turns of a list in two parts run one after the other |
| Cycle.BugsRunDecides | simpleworld/simpleworld.cpp:1036-1062 | Each bug that is alive when its place comes takes its own turn then, and no other does |
| Cycle.VisitDecides | simpleworld/simpleworld.cpp:759-1130 | What each phase makes of one element, by its row: hatching with the same energy, code, cell and orientation when old enough, death exactly on a failed timer, the fee or death of laziness exactly when the cycles since the last action, or birth, are a multiple of the period, and rot likewise |
| Cycle.WalkDecides | simpleworld/simpleworld.cpp:759-1130 | A phase over a list decides the fate of each of its elements so, and leaves every other element and cell alone |
| Cycle.PhasedDecides | simpleworld/simpleworld.cpp:759-1130 | The same for all elements of the kind in the world |
| Cycle.MutateDecides | simpleworld/simpleworld.cpp:773-799 | A mutation phase that ends well: every bug that is due and drawn to change has its new length, and nothing else has changed |
| Cycle.DawnDecides | simpleworld/simpleworld.cpp:238-250 | When the turns begin: eggs of this very cycle hatched, bugs mutated and told of the timer, and nothing else changed |
| Cycle.DuskDecides | simpleworld/simpleworld.cpp:251-252 | After the turns: laziness counts what was done in this cycle, food rots, and what laziness leaves does not rot yet |
| Cycle.CycleDecides | simpleworld/simpleworld.cpp:238-256 | A cycle goes from one part to the next only if the program has not ended, and every bug has the turn of its own program |
| Cycle.RunCut | simpleworld/simpleworld.cpp:229-263 | A run that was cut short does not go on |
| Cycle.SproutShows | simpleworld/simpleworld.cpp:734-750 | What comes up is on a free cell of the world, in its list, with a new number, or does not come |
| Cycle.ActKeeps | simpleworld/simpleworld.cpp:430-660 | Every action keeps agreement and living energy; matter does not grow, but for the code less the fee of an egg that was placed and whose layer dies |
| Cycle.TurnKeeps | simpleworld/simpleworld.cpp:1048-1060 | The same for a whole turn |
| Cycle.BugsRunKeeps | simpleworld/simpleworld.cpp:1036-1062 | All turns of a cycle, bugs killed by others being passed over: matter grows at most by the codes, less the fees, of eggs that were placed and whose layers died of them |
| Cycle.VisitKeeps | simpleworld/simpleworld.cpp:759-815 | One visit of hatching, timer, laziness or rot keeps agreement, does not add matter and changes no other row |
| Cycle.PhasedKeeps | simpleworld/simpleworld.cpp:1067-1130 | Each phase over a copy of its list does |
| Cycle.SproutKeeps | simpleworld/simpleworld.cpp:679-755 | What comes up adds exactly its weight and keeps agreement |
| Cycle.MutateKeeps | simpleworld/simpleworld.cpp:773-799 | Mutating codes keeps agreement and changes matter by exactly the change of their lengths, also when the program ends on the way |
| Cycle.MutateEnds | simpleworld/simpleworld.cpp:773-799 | The phase ends the program if and only if some bug is due and mutates to a code the tables refuse, or cannot be told of its mutation |
| Cycle.OneCycleKeeps | simpleworld/simpleworld.cpp:229-255 | A cycle keeps agreement; matter grows at most by what came up, by what codes grew when they mutated, and by the codes less the fees of eggs that were placed and whose layers died |
| Cycle.RunKeeps | simpleworld/simpleworld.cpp:229-263 | Safety over every run of cycles, for all programs and draws: grid, rows and lists agree, living bugs and eggs have energy, matter is bounded by what there was and was supplied |
| Cycle.RunSplit | simpleworld/simpleworld.cpp:229-263 | A run that was not cut short goes on with its next cycle |
| SimpleWorldObject.SimpleWorld.Kill | simpleworld/simpleworld.cpp:960-992 | List, grid and rows are updated in the order of the source and end as specified, in agreement |
| SimpleWorldObject.SimpleWorld.Birth | simpleworld/simpleworld.cpp:859-877 | The same for a hatching egg |
| SimpleWorldObject.SimpleWorld.MoveBug | simpleworld/simpleworld.cpp:430-451 | The position columns and the grid end as the specified move |
| SimpleWorldObject.SimpleWorld.TurnBug | simpleworld/simpleworld.cpp:459-474 | As specified |
| SimpleWorldObject.SimpleWorld.Attack | simpleworld/simpleworld.cpp:482-537 | As specified: the death of another caught on the way, its own refused by the tables |
| SimpleWorldObject.SimpleWorld.Eat | simpleworld/simpleworld.cpp:545-591 | As specified; a sum the database does not take ends the program |
| SimpleWorldObject.SimpleWorld.LayEgg | simpleworld/simpleworld.cpp:599-660 | As specified, with the code stored and paid before the egg is placed and its energy after |
| SimpleWorldObject.SimpleWorld.Perform | simpleworld/simpleworld.cpp:430-660 | Dispatch to the action |
| SimpleWorldObject.SimpleWorld.Act | simpleworld/operations_world.cpp:142-268 | An action that ends, well or with an action error, is dated |
| SimpleWorldObject.SimpleWorld.TakeTurn | simpleworld/simpleworld.cpp:1048-1060 | The loop over the actions of a bug and the errors that end it |
| SimpleWorldObject.SimpleWorld.BugsRun | simpleworld/simpleworld.cpp:1036-1062 | The loop over a copy of the list with the test for bugs already dead |
| SimpleWorldObject.SimpleWorld.Visit | simpleworld/simpleworld.cpp:759-1130 | What hatching, timer, laziness and rot do to one element |
| SimpleWorldObject.SimpleWorld.Phase | simpleworld/simpleworld.cpp:759-768 | The loop over a copy of the list while the list changes |
| SimpleWorldObject.SimpleWorld.BugsMutate | simpleworld/simpleworld.cpp:773-799 | The loop in place, with its period check and the two errors that nothing catches |
| SimpleWorldObject.SimpleWorld.AddEgg | simpleworld/simpleworld.cpp:166-196 | Which eggs are refused before anything changes, and what an accepted one changes |
| SimpleWorldObject.SimpleWorld.AddFood | simpleworld/simpleworld.cpp:204-222 | The same for food |
| SimpleWorldObject.SimpleWorld.SpawnIn | simpleworld/simpleworld.cpp:679-755 | Adds exactly the missing elements, each in the region, with the size or energy of the source and the orientation and code drawn for it; or stops at one the tables refuse, or at a full region, or, if that has 65536 cells and more, looks for ever: which of them happens, and after how many elements, is told exactly |
| SimpleWorldObject.SimpleWorld.Spawn | simpleworld/simpleworld.cpp:679-755 | Each due resource that was processed has at least its maximum of food at the end, each due egg source has added as many eggs as bugs were missing, and all of them no more than that; the loop goes on to the next cycle early only at a full region of fewer than 65536 cells; it divides by zero exactly at an egg source without a period |
| SimpleWorldObject.SimpleWorld.SpawnAll | simpleworld/simpleworld.cpp:238-239 | Eggs and then food, each source having given what it owes up to one in a full region, unless a source halts the program |
| SimpleWorldObject.SimpleWorld.Cycle | simpleworld/simpleworld.cpp:238-256 | One cycle is the specified one, for the input that the sources, draws and programs decide: clock, timer, what came up and what was owed |
| SimpleWorldObject.SimpleWorld.Run | simpleworld/simpleworld.cpp:229-263 | Any number of cycles is a run of the specification, one for each choice unless the program ends, each from where the one before ended, so agreement and the matter account hold at its end |
| Lives.LifeIsCycle | simpleworld/operations_world.cpp:66-271 | A bug whose program runs on the world: for its CPU this is one cycle of the timed actions, in which every answer is what the world made of the action |
| Lives.LifeIsTurn | simpleworld/simpleworld.cpp:1048-1060 | For the world the same run is one turn: the actions the program asked for, with the energy found in G0, one after the other, and its error, death or end of the program |
| Lives.CodesAct | simpleworld/operations_world.cpp:146-258 | Which action of the world each code is, with the energy of G0 where one is used |
| Lives.LifeReads | simpleworld/operations_world.cpp:146-258 | What a bug finds in G0 to G2 after its action: the kind of what is in front, a datum of its own row or of the one in front, the size of what it ate, as the rows say; or a failure and nothing else |
| Lives.LifeDoes | simpleworld/operations_world.cpp:66-271 | What the bug has done grows by exactly the actions the world carried out, well or with an action error, in order and with their energy |
| Lives.LifeDates | simpleworld/operations_world.cpp:266-268 | The date of the last action in the row of the bug and the one its CPU knows stay the same through any cycle |
| Lives.NextInStep | simpleworld/operations_world.cpp:66-271 | One instruction: it ends as the action it asked for ended, which is done and dated exactly when the world carried it out |
| Lives.AskedEnds | simpleworld/operations_world.cpp:66-271 | What an instruction makes of each answer of the world: done and dated, dead, handled as an interrupt or fatal, or the end of the program; an action that became unknown while it waited fails whatever the answer |
| Lives.UnaskedEnds | simpleworld/cpu.cpp:50-60 | An instruction that does not reach the world does nothing there, kills nobody and lets no action error out |
| Lives.ActDates | simpleworld/operations_world.cpp:142-268 | The row of a bug is dated by an action that is carried out and by nothing else |
| Lives.ExecuteSame | simpleworld/cpu/cpu.cpp:66-75 | A cycle depends on the answers of the world and on nothing else outside |
| SimpleWorldObject.SproutGrows | simpleworld/simpleworld.cpp:723-755 | Sprouting takes nothing out of any region |

## Left out

- The register memory is an array of words, justified by `MemoryModel.AlignedWords`; bytes past its last whole word are not modelled.
- The arithmetic, logic, sign, immediate and branch instructions are an arbitrary function that writes one register, branches, divides by zero or names a bad register, so that every theorem holds for all of them; `ArithmeticUnit.With` fills in add, sub, mult, multhu, div, mod and the rotations.
- `sra`, `srai`, `multh`, `multhi`, and counts for which C++ would shift by 32 or more (also a rotation by 0): the documented meaning is not what the code gives, or C++ leaves it undefined; they stay arbitrary.
- CpuObject.Cpu.Execute: the result is cut to 8 bits as written, so it is not the number of cycles left that the comment promises.
- NestedRuns.FrameRestores: the body of a frame is a sequence of disciplined steps and whole nested frames; a body that itself jumps out of its frame is not a nested run. `Traces.TraceIsRun` gives the runs of the machine itself.
- `getopt` orderings other than permuting, and the `-W` branch: `Arguments.Permutes` is required of the option string; POSIXLY_CORRECT is unset, `long_only` is off, messages are not printed, and `flag` is not stored through but only decides whether 0 is returned.
- The values of the words that `mutate` writes: edits are placed at the length of the chunk rather than after what was already written, so the result is not the script applied; cursors, copies, sizes and which words are touched are modelled.
- MutationModel.WordsAreGood: assumes the size and four bytes per draw fit in 32 bits; a code that large does not fit a blob.
- MutationModel.GoodSizes: the same for one edit per word.
- The database: rows are plain fields, a blob is a byte sequence, transactions and savepoints are not modelled except that laying an egg that cannot be paid leaves nothing behind; an energy outside 1 to 2^31 - 1 is refused and ends the program, because the columns are signed and checked.
- CPU programs inside the world: a cycle takes any actions from each bug; `Lives` shows that what the program of a bug asks for is such a turn. The damage an attack does (a floating-point product), whether the timer, attack or mutation interrupt of another bug fails, element numbers, and what a code mutates to are arbitrary inputs: the CPUs of all bugs are not kept together in one state.
- TimedActions.ActionWaits: the program in the memory of the bug is not mutated while it waits.
- In `getopt`, plain `char` is signed, as on x86, and arguments are bytes.
- Cycle.RunKeeps: needs positive periods of laziness and rot, by which the source divides.
- WorldModel.World.UnusedPosition: the product of the sides is exact, where the source multiplies 32-bit integers and would overflow for regions of 2^31 cells.
- TimedActions.ActionEnds: dates below 2^31, what the column of the row takes; other dates end the program.
- Random draws are arbitrary, and a search for a free cell, when there is one, ends on any of them: how long it takes is a matter of chance.
- Loading an existing world, resources and spawns tables, statistics, messages, the assembler, disassembler, files and command-line programs.
