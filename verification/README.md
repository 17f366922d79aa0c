# remniw in Dafny

A model of the remniw compiler (syntax tree, LLVM-like IR, instruction selection, register allocation, RISC-V and x86-64 frames), of its type analysis, and of its guarded heap, with proofs. `dafny verify dfyconfig.toml` checks everything.

## What is modelled

Code that changes things step by step is imperative here too: the allocator, the rewriter, the union-find with `unify` and `solve`, the generated labeller, the AST visitors with their flag, the IR generator, the assembly builders, the frame rewriters and the guarded pool are classes whose methods update fields in place. Each method is proved against a function or a predicate on plain values, and the theorems are about those.

| files | what they model |
|---|---|
| `Registers`, `Options`, `FiniteSets`, `RegAlloc`, `CallClass` | linear-scan register allocation: safety over sequences of functions, least number of spills, call classes |
| `LiveRanges` | live ranges, built while instructions are appended |
| `Int64`, `RiscV` | 64-bit arithmetic, and a machine for straight-line RISC-V code |
| `Selection`, `SelectionProof`, `SelectionLists`, `SelectionBuilder` | selection of expression trees, loads, array elements and stores, one instruction of the intermediate language after another |
| `SpillCode`, `RewriteProof`, `Rewriting` | virtual registers to physical registers, and spill code around instructions |
| `SaveAreas`, `RiscVFrame`, `X86Frame` | prologue and epilogue |
| `Lowering` | places of stack objects, and large displacements and immediates brought through the return-address register |
| `Backend`, `SelectedFunctions` | live ranges, allocation, rewriting, frame and lowering put together for a whole RISC-V function, and selection in front of them |
| `Ast`, `Arrays`, `Ir`, `IrCodegen`, `BlockOrder`, `ExprProof`, `StmtProof`, `CodegenTheorem` | programs and their meaning, array elements, the visitors, the control-flow graph and its machine, the generator, the order of its blocks, and that meaning is preserved |
| `Labeller`, `AsmGrammar`, `CallCosts`, `GrammarCovers` | the labeller that olive emits, for any grammar, the grammar of the back end, what its cost clauses for calls lead to, and which statements it covers at what cost |
| `Types`, `Partitions`, `UnionFinds`, `TypeAnalysis` | union-find, unification and solving of type constraints |
| `Typing`, `TypingProof`, `TypingComplete` | generation of the constraints of a program, and that they can be solved if and only if the program is well typed |
| `Bits`, `PoolGeometry`, `PoolMachine`, `PoolDiagnosis`, `GuardedPool` | the guarded pool: arithmetic on slots and pages, threads taking turns, crash diagnosis, and the allocator object |

Each file holds the module of its name.

The main results. `SelectedFunctions.SelectedRuns` follows a straight-line RISC-V function through the whole back end: what is put out, from prologue to epilogue, fits its encoding, ends with the memory that the instructions of the intermediate language end with, and gives the caller back its registers. It rests on `SelectionLists.ListFollows` (selection), `LiveRanges.OccurrencesCovered` (ranges cover every occurrence), `RegAlloc.LinearScanRegisterAllocator.DoRegAlloc` (no interference), `RewriteProof.ListSimulates` (simulation), `RiscVFrame.FrameRoundTrip`, and `Lowering.LoweredRuns`, put together in `Backend.FunctionRuns` and `Backend.FunctionLowered`. `CodegenTheorem.CompiledRuns` says the same of statements and the control-flow graph. `TypingComplete.Analyze` ties the type analysis to typing rules.

## Where the code falls short of what one expects

The code is modelled as it is. Each of these is stated with an input that shows it and, where there is one, the exact condition.

* `unify` drops the results of its nested calls (`src/semantic/TypeAnalysis.cpp:43,50,55,60,70,74`), so `solve` returns true for constraints without a solution (`TypeAnalysis.NestedClashIsDropped`). Unless arrays of different lengths end in one class, there is a solution if and only if `solve` returns true and no two types that have been put together have components whose classes hold different shapes (`TypeAnalysis.AnswerIsRight`); no array types of different lengths among the constraints is enough (`TypeAnalysis.OneLengthIsRight`).
* The cost clauses for calls leave out the arguments (`src/codegen/asm/AsmBuilderHelper.gen:506,520,534`), but the labeller adds up all costs below 32767. Labels are least among all derivations that cost less, at every node, if and only if the argument list of every call, if it can be derived at all, has a derivation that costs less (`CallCosts.LeastIffArgumentsBounded`). A call of constants has a derivation of cost 1, and it is recorded if and only if there are fewer than 32767 of them (`AsmGrammar.LongCallIsMissed`). For all the statements that the tree builder makes, `GrammarCovers.GenRoot` says which are covered, and at what cost; an address stored through a pointer in a register and a comparison of two numbers have no rule at all.
* `createADDIInst` touches its registers before it splits a large immediate into LI and ADD (`src/codegen/asm/RISCV/RISCVAsmBuilder.cpp:635-652`), so the destination's range starts one instruction early. A range starts at the first occurrence if and only if no split ADDI was the first to name the register (`LiveRanges.RangeOfVirtual`), and the ranges of a physical register are its occurrences if and only if it was never given to one (`LiveRanges.RangesOfPhysical`).
* A steal does not look at the call class of the interval it serves (`src/codegen/asm/RegisterAllocator.h:163-170`): an interval over a call can get a caller-saved register (`CallClass.StealCrosses`). A steal keeps save classes if and only if both intervals are flagged alike (`CallClass.StealKeepsClass`), and so for runs (`CallClass.RunKeepsClass`). What can be seen from the input: if no register serves both classes and, wherever more intervals of one class are alive than there are registers for it, no interval of the other class is alive, then nothing is stolen across classes and each class has as few spills as can be (`CallClass.SeparableKeepsClass`, `RegAlloc.LinearScanRegisterAllocator.DoRegAlloc`). It is enough that overlapping intervals are flagged alike, or that there are registers for all (`RegAlloc.SeparableWhen`).
* Displacements and immediates of more than 12 bits go through the return-address register, with no look at whether the instruction itself reads it (`src/codegen/asm/RISCV/RISCVAsmRewriter.h:310-336`). One instruction is lowered right if and only if it does not read that register, or fits (`Lowering.RightExactly`). Selected code never reads it (`SelectedFunctions.SelectedRuns`), and prologue and epilogue, which do, fit (`Lowering.FrameStays`).
* The free set is not reset between functions (`src/codegen/asm/RegisterAllocator.h:53-60`). Allocation is safe in every function of a sequence all the same; registers still held at the end of one are lost to the next (`RegAlloc.LinearScanRegisterAllocator.DoRegAlloc`).
* Offsets of spill cells leave out the area of saved registers (`src/codegen/asm/AsmRewriter.h:94-107`), which the offsets of local objects include (`src/codegen/asm/RISCV/RISCVAsmRewriter.h:272-273`, `src/codegen/asm/X86/X86AsmRewriter.h:219`). Cells stay clear of saved registers if and only if there are no cells or local objects take as many bytes as saved registers do (`Backend.CellsApartExactly`); in a RISC-V function without local objects the first spill slot is the one with the return address (`Backend.SpilledIsReturnAddress`). Which cells lie among saved registers and local objects is told by `RiscVFrame.SpillCellOverlaps` and `X86Frame.SpillCellOverlaps`. The simulation theorems take the cells as memory of their own.

## Model

| member | source | states |
|---|---|---|
| RegAlloc.LinearScanRegisterAllocator.DoRegAlloc | src/codegen/asm/RegisterAllocator.h:52-80 | after any earlier functions: every virtual register has a free physical register without a fixed range or a slot of its own, registers that share one have disjoint half-open intervals, and slots are numbered below the spill count; over separable intervals each call class keeps to its registers, and no assignment of a class to them that keeps overlapping intervals apart keeps more of it; the free set loses what is still held |
| RegAlloc.SpillLatestEnd | src/codegen/asm/RegisterAllocator.h:162-176 | the exchange argument: when more than k intervals are alive at one point, spilling the one that ends last still leaves, for every choice that fits into k registers, one as large that avoids all spilled ones |
| RegAlloc.AvoidanceIsOptimal | src/codegen/asm/RegisterAllocator.h:162-176 | a set of spilled intervals that every choice can avoid is as small as any |
| RegAlloc.StepInv | src/codegen/asm/RegisterAllocator.h:60-80 | expiring, taking a free register and evicting keep: no conflict, distinct locations of active intervals, spills counted, and no spill too many |
| RegAlloc.RunInv | src/codegen/asm/RegisterAllocator.h:60-80 | the same for every state of every run of the scan |
| RegAlloc.EndOfScan | src/codegen/asm/RegisterAllocator.h:60-80 | a finished run is free of interference, uses the initial pool only, and over separable intervals spills least in each call class |
| RegAlloc.SeparableWhen | src/codegen/asm/RegisterAllocator.h:132-160 | intervals are separable if all have one call class, if overlapping ones have, or if there is a register of its class for every interval alive at one point |
| RegAlloc.SpillsOwnClass | src/codegen/asm/RegisterAllocator.h:162-176 | over separable intervals, when no register of the class is free the interval that ends last is of the same class |
| RegAlloc.LinearScanRegisterAllocator.InitIntervalSets | src/codegen/asm/RegisterAllocator.h:101-116 | the queue has one interval for every virtual register, and the fixed list every range of every physical register |
| RegAlloc.LinearScanRegisterAllocator.SortActive | src/codegen/asm/RegisterAllocator.h:24-31 | the active list is the same set, ordered by end |
| RegAlloc.LinearScanRegisterAllocator.ExpireOldIntervals | src/codegen/asm/RegisterAllocator.h:118-130 | exactly the intervals that end by the start of the next one leave, and exactly their registers become free |
| RegAlloc.LinearScanRegisterAllocator.GetFreePhysReg | src/codegen/asm/RegisterAllocator.h:132-160 | a free register of the right class that no instruction names, and none only if there is none: one fixed range anywhere rules a register out |
| RegAlloc.LinearScanRegisterAllocator.SpillAtInterval | src/codegen/asm/RegisterAllocator.h:162-176 | the interval that ends last, new one included, goes to the next slot, and the new one takes its register |
| CallClass.StepKeepsClass | src/codegen/asm/RegisterAllocator.h:132-176 | a step keeps every interval in its save class if and only if it is not a steal between intervals with different flags |
| CallClass.StealKeepsClass | src/codegen/asm/RegisterAllocator.h:163-170 | where no register is caller- and callee-saved at once, a steal keeps save classes if and only if the two intervals agree on whether they are used across a call |
| CallClass.RunKeepsClass | src/codegen/asm/RegisterAllocator.h:132-176 | a run keeps save classes in all its states if and only if all its steals are between intervals flagged alike |
| CallClass.SeparableKeepsClass | src/codegen/asm/RegisterAllocator.h:132-176 | over separable intervals, which can be told before the call, every run keeps save classes in every state |
| CallClass.StealCrosses | src/codegen/asm/RegisterAllocator.h:163-170 | a run in which an interval over a call ends in a caller-saved register |
| LiveRanges.BuiltExact | src/codegen/asm/AsmBuilder.h:157-231 | after any sequence of creations every virtual register has one range, from its first to behind its last touch, the ranges of a physical register are its touches, and touches are occurrences and what split ADDIs touch besides |
| LiveRanges.OccurrencesCovered | src/codegen/asm/AsmBuilder.h:157-258 | every occurrence of a register lies in its ranges; a virtual register has one |
| LiveRanges.BuiltWellFormed | src/codegen/asm/AsmBuilder.h:157-231 | no register has an empty list of ranges, and no range is empty |
| LiveRanges.RangeOfVirtual | src/codegen/asm/AsmBuilder.h:157-231 | a virtual register's range ends behind its last occurrence; it starts at the first one if and only if no split ADDI was the first to name the register |
| LiveRanges.RangesOfPhysical | src/codegen/asm/AsmBuilder.h:157-231 | the union of a physical register's ranges is the set of indices that name it if and only if it was never given to a split ADDI |
| LiveRanges.SplitAddiStartsEarly | src/codegen/asm/RISCV/RISCVAsmBuilder.cpp:635-652 | after one split ADDI the destination's range starts at 0, and it first occurs at 1 |
| LiveRanges.FlaggedIffSpansCall | src/codegen/asm/AsmBuilder.h:157-231 | a virtual register is flagged if and only if the index behind some call lies in its range |
| LiveRanges.PhysicalFlagged | src/codegen/asm/AsmBuilder.h:157-231 | each range of a physical register is flagged if and only if the index behind some call lies in it |
| LiveRanges.LiveAcrossCallIsFlagged | src/codegen/asm/RISCV/RISCVAsmBuilder.cpp:693-706 | a register that occurs at or before a call and again behind it is flagged |
| LiveRanges.AsmBuilder.HasCallIn | src/codegen/asm/AsmBuilder.h:157-231 | the search over the notes about calls finds one in the range if and only if there is one |
| LiveRanges.AsmBuilder.UpdateRegLiveRanges | src/codegen/asm/AsmBuilder.h:157-231 | the map in place becomes what `Touched` says, whose ranges `BuiltExact` is about |
| LiveRanges.AsmBuilder.CreateADDIInst | src/codegen/asm/RISCV/RISCVAsmBuilder.cpp:635-652 | touches first, then ADDI, or LI into the temporary and ADD, as `Created` says |
| LiveRanges.AsmBuilder.CreateInst | src/codegen/asm/RISCV/RISCVAsmBuilder.cpp:693-706 | touches, then the instruction, then the note behind a call |
| SelectionProof.TreeSelected | src/codegen/asm/RISCV/RISCVAsmBuilder.cpp:251-399 | for every tree of loads, immediates, add, sub, mul and sdiv without an operator on two immediates, with whatever nodes selected before: the code leaves the tree's 64-bit value in the register returned, and changes neither memory nor any earlier register; the value of an instruction that has run is the one it had then |
| SelectionProof.PlaceSelected | src/codegen/asm/RISCV/RISCVAsmBuilder.cpp:111-175 | the operand selected for a place reads as its address (or as the pointer, for pointers in registers), array elements with constant and computed indices included |
| SelectionProof.ImmLeftRuns | src/codegen/asm/RISCV/RISCVAsmBuilder.cpp:271-394 | an immediate on the left of each operator, in the order that keeps subtraction and division right |
| SelectionProof.AddImmRuns | src/codegen/asm/RISCV/RISCVAsmBuilder.cpp:635-652 | base plus displacement for every displacement, in one instruction or two, and only the destination and, if needed, the temporary change |
| SelectionProof.ScaleRuns | src/codegen/asm/RISCV/RISCVAsmBuilder.cpp:123-175 | base plus index times element size, wrapped to 64 bits |
| SelectionBuilder.RiscVAsmBuilder.ActReg | src/codegen/asm/AsmBuilderHelper.gen:54-80 | running the actions appends what `SelectReg` gives and returns its register; a node whose action has been executed is not selected again |
| SelectionBuilder.RiscVAsmBuilder.ActPlace | src/codegen/asm/RISCV/RISCVAsmBuilder.cpp:111-175 | the same for places |
| SelectionBuilder.RiscVAsmBuilder.HandleGepReg | src/codegen/asm/RISCV/RISCVAsmBuilder.cpp:123-175 | the code for a computed index in place: address of the base, scaled index, sum |
| SelectionBuilder.RiscVAsmBuilder.HandleGepImm | src/codegen/asm/RISCV/RISCVAsmBuilder.cpp:111-154 | a constant index becomes the displacement of the place |
| SelectionBuilder.RiscVAsmBuilder.HandleImmReg | src/codegen/asm/RISCV/RISCVAsmBuilder.cpp:271-394 | the code for an immediate on the left, in place, with a new register |
| SelectionBuilder.RiscVAsmBuilder.ActStore | src/codegen/asm/AsmBuilderHelper.gen:103-147 | value, address and store in place, numbers and addresses through a new register, as `SelectItem` says |
| SelectionBuilder.RiscVAsmBuilder.BuildAsmFunction | src/codegen/asm/AsmBuilderHelper.gen:579-590 | the loop over the instructions of a function appends what `SelectAll` gives |
| SelectionLists.ListFollows | src/codegen/asm/AsmBuilderHelper.gen:579-590 | for every list of instructions in order, stores among them: the selected code does to memory what the list does, and every instruction's value is in its register, loads from cells since overwritten included |
| SelectionLists.StoreRuns | src/codegen/asm/RISCV/RISCVAsmBuilder.cpp:43-82 | the handlers of a store, for values, numbers and addresses of places: one cell changes, and no register in use |
| SpillCode.ExpandRuns | src/codegen/asm/RISCV/RISCVAsmRewriter.h:25-102 | save, load, instruction, store and restore around every spilled operand, nested, come to what the instruction over the slots comes to, but for reserved cells; a register that is destination and source included, as operand 0 is stored back last |
| SpillCode.OneReplaced | src/codegen/asm/RISCV/RISCVAsmRewriter.h:57-102 | replacing one operand is right, and gives the displaced register its value back |
| SpillCode.AvailableIsUnused | src/codegen/asm/RISCV/RISCVAsmRewriter.h:342-378 | the register chosen is free for use and not used by the instruction, and there is one as long as fewer are used than exist |
| RewriteProof.InstrSimulates | src/codegen/asm/RISCV/RISCVAsmRewriter.h:17-102 | one rewritten instruction keeps: memory outside the frame the same, every active virtual register's value in its place, named physical registers the same |
| RewriteProof.ListSimulates | src/codegen/asm/AsmRewriter.h:47-65 | the same over whole call-free lists and every allocation without interference |
| RewriteProof.RewrittenRuns | src/codegen/asm/AsmRewriter.h:29-65 | run over virtual registers and run as rewritten, a function ends with the same memory outside the cells |
| Rewriting.TwoPasses | src/codegen/asm/AsmRewriter.h:42-52 | first all virtual to physical, then all spill code, is the same as both passes instruction by instruction |
| Rewriting.AsmRewriter.RewriteVirtToPhys | src/codegen/asm/AsmRewriter.h:67-92 | every operand whose register has a physical register names it, in place; others stay |
| Rewriting.AsmRewriter.GetAvailableRegister | src/codegen/asm/RISCV/RISCVAsmRewriter.h:369-378 | the search gives the first register of the list that is not in use, or none |
| Rewriting.AsmRewriter.SpillOperand | src/codegen/asm/RISCV/RISCVAsmRewriter.h:57-102 | four instructions are inserted around the one in hand, closest to it, and its operand becomes the available register |
| Rewriting.AsmRewriter.RewriteSpilledAt | src/codegen/asm/RISCV/RISCVAsmRewriter.h:25-55 | the instruction is replaced in place by its expansion, and the maximum of reserved slots is kept |
| Rewriting.AsmRewriter.RewriteSpilled | src/codegen/asm/AsmRewriter.h:50-52 | the whole list is expanded in place, and the maximum is that over the list |
| Rewriting.AsmRewriter.RewriteFunction | src/codegen/asm/AsmRewriter.h:29-65 | the output is rewritten with an allocation without interference that fits its frame; its cells are as many as the registers that have none, and over separable intervals no assignment to the registers free at the time leaves fewer |
| Rewriting.AsmRewriter.Rewrite | src/codegen/asm/AsmRewriter.h:29-65 | so is every non-empty function of a sequence, in order, the first from all registers and later ones from no others, while the free set only shrinks |
| Rewriting.OutputRuns | src/codegen/asm/AsmRewriter.h:29-65 | everything that `Rewrite` puts out ends with the memory its source ends with |
| RiscVFrame.FrameImmediatesFit | src/codegen/asm/RISCV/RISCVAsmRewriter.h:104-247 | for every frame size and saved set, all ADDI immediates and save offsets fit 12 signed bits (section 2.4 of the RISC-V Unprivileged ISA) |
| RiscVFrame.SaveAreaFits | src/codegen/asm/RISCV/RISCVAsmRewriter.h:108-150 | the save area fits into the first of the two steps, which is at most 2047, and the frame is a multiple of 16 |
| RiscVFrame.PrologueRuns | src/codegen/asm/RISCV/RISCVAsmRewriter.h:104-192 | the stack pointer goes down by the frame in one or two steps, the frame pointer to the old stack pointer, and every saved register to its cell; other memory and registers but T0 stay |
| RiscVFrame.EpilogueUndoes | src/codegen/asm/RISCV/RISCVAsmRewriter.h:194-247 | from any state with the body's stack pointer and the save area intact, the caller's registers come back and memory stays |
| RiscVFrame.FrameRoundTrip | src/codegen/asm/RISCV/RISCVAsmRewriter.h:104-247 | prologue, any body that keeps stack pointer and save area, epilogue: the caller's registers are back; the body is aligned if and only if the caller is |
| RiscVFrame.SpillCellOverlaps | src/codegen/asm/RISCV/RISCVAsmRewriter.h:269-285 | a spill cell lies among saved registers and local objects if and only if its number is below the number of saved registers |
| RiscVFrame.CellsLieInFrame | src/codegen/asm/AsmRewriter.h:94-107 | every cell lies inside the frame, above the bytes that are passed to called functions |
| RiscVFrame.OutgoingApart | src/codegen/asm/RISCV/RISCVAsmRewriter.h:104-192 | in the state that the prologue leaves, none of the bytes for outgoing arguments, from the stack pointer up, belongs to a cell, a local object or a saved register, and less than 16 bytes of the frame are padding |
| RiscVFrame.FrameRewriter.InsertPrologue | src/codegen/asm/RISCV/RISCVAsmRewriter.h:104-192 | the prologue goes in front of the list, and the frame size, the one that `OutgoingApart` is about, is noted |
| RiscVFrame.FrameRewriter.InsertEpilogue | src/codegen/asm/RISCV/RISCVAsmRewriter.h:194-247 | the epilogue goes to the end of the list |
| X86Frame.BodyIsAligned | src/codegen/asm/X86/X86AsmRewriter.h:148-170 | the stack pointer is a multiple of 16 in the body if and only if it is 8 off at entry (section 3.2.2 of the System V AMD64 psABI), whatever the sizes |
| X86Frame.PrologueRuns | src/codegen/asm/X86/X86AsmRewriter.h:127-171 | pushes put every saved register into its cell, the frame pointer points at the first one, and the rest of memory stays |
| X86Frame.EpilogueUndoes | src/codegen/asm/X86/X86AsmRewriter.h:173-195 | pops in reverse order bring the caller's registers back |
| X86Frame.FrameRoundTrip | src/codegen/asm/X86/X86AsmRewriter.h:127-195 | prologue, any body that keeps stack pointer and save area, epilogue: the caller's registers are back, and the body was aligned |
| X86Frame.SpillCellOverlaps | src/codegen/asm/X86/X86AsmRewriter.h:215-225 | a spill cell lies among saved registers and local objects if and only if its number is below the number of saved registers |
| X86Frame.OutgoingApart | src/codegen/asm/X86/X86AsmRewriter.h:127-171 | in the state that the prologue leaves, none of the bytes for outgoing arguments belongs to a cell, a local object or a saved register, and less than 16 bytes are padding |
| X86Frame.FrameRewriter.InsertPrologue | src/codegen/asm/X86/X86AsmRewriter.h:127-171 | the prologue goes in front of the list, and the padded size is noted |
| X86Frame.FrameRewriter.InsertEpilogue | src/codegen/asm/X86/X86AsmRewriter.h:173-195 | the epilogue goes to the end, registers popped last to first |
| Backend.BuiltCodeOk | src/codegen/asm/AsmBuilder.h:157-258 | live ranges as built satisfy what the rewriter needs of them, for any build sequence |
| Backend.EveryListCanBeBuilt | src/codegen/asm/AsmBuilder.h:157-258 | every list over virtual and physical registers comes from a build sequence |
| Backend.BuiltThenRewritten | src/codegen/asm/AsmRewriter.h:29-65 | live ranges, allocation and rewriting together preserve the final memory |
| Backend.ListKeeps | src/codegen/asm/RISCV/RISCVAsmRewriter.h:57-102 | a physical register that is nobody's place and no destination has its value at the end, in spite of spill code |
| Backend.CellsApartExactly | src/codegen/asm/AsmRewriter.h:94-107 | cells and saved registers are apart, as words, if and only if there are no cells or local objects take as many bytes as saved registers |
| Backend.SpilledIsReturnAddress | src/codegen/asm/AsmRewriter.h:94-107 | without local objects a function returns to whatever was spilled last to its first slot |
| Backend.FunctionRuns | src/codegen/asm/AsmRewriter.h:29-65 | prologue, rewritten body, epilogue: final memory as over virtual registers, and stack pointer, frame pointer, return address and callee-saved registers as before the call |
| Backend.FunctionLowered | src/codegen/asm/AsmRewriter.h:29-65 | the same of the code as put out, with large displacements lowered, and all of it fits 12 bits; for functions that do not read the return address |
| SelectedFunctions.SelectedRuns | src/codegen/asm/AsmRewriter.h:29-65 | the same from the instructions of the intermediate language on, for every straight-line list of them |
| Lowering.LoweredFits | src/codegen/asm/RISCV/RISCVAsmRewriter.h:310-336 | afterwards all displacements and immediates fit 12 signed bits, whatever the code was |
| Lowering.LoweredRuns | src/codegen/asm/RISCV/RISCVAsmRewriter.h:310-336 | lowered code that does not read the return-address register does what it did, that register apart |
| Lowering.RightExactly | src/codegen/asm/RISCV/RISCVAsmRewriter.h:310-336 | an instruction is lowered right for every machine if and only if it does not read the return-address register or needs no lowering |
| Lowering.FarStoreOfRA | src/codegen/asm/RISCV/RISCVAsmRewriter.h:314-329 | a far store of the return address stores the address of the cell instead |
| Lowering.FrameStays | src/codegen/asm/RISCV/RISCVAsmRewriter.h:310-336 | prologue and epilogue, for every frame, are left as they are |
| Lowering.ObjectsApart | src/codegen/asm/RISCV/RISCVAsmRewriter.h:270-285 | local objects fill the bytes below the saved registers and arguments the bytes from the frame pointer on, and no two of a kind share a byte |
| Lowering.ObjectsFollow | src/codegen/asm/RISCV/RISCVAsmRewriter.h:270-285 | each object begins where the one of its kind before it ends, so that nothing lies between them |
| Lowering.LocalsLieInFrame | src/codegen/asm/RISCV/RISCVAsmRewriter.h:270-285 | every local object lies below the saved registers and above the bytes that are passed to called functions |
| Lowering.StackFrameAdjuster.PlaceObjects | src/codegen/asm/RISCV/RISCVAsmRewriter.h:270-285 | the loop gives every object the offset that `ObjectsApart` is about |
| Lowering.StackFrameAdjuster.LowerImmediates | src/codegen/asm/RISCV/RISCVAsmRewriter.h:310-336 | the loop over instructions and operands inserts and edits in place until the list is what `LoweredAll` gives |
| Backend.CalleeSavedKept | src/codegen/asm/AsmRewriter.h:54-61 | saving the callee-saved registers that were given out is enough for all of them |
| Ast.MoreFuel | src/codegen/ir/IRCodeGeneratorImpl.cpp:434-475 | the bound on loop rounds does not change what a run comes to |
| Arrays.ElementsApart | src/codegen/ir/IRCodeGeneratorImpl.cpp:299-316 | different indices in range lead to elements of arrays of arrays that share no byte |
| Arrays.SubscriptIsOffset | src/codegen/ir/IRCodeGeneratorImpl.cpp:299-316 | a subscript of any number of dimensions denotes the cell at the offset of its indices |
| Int64.TruncatedLeavesRest | src/codegen/ir/IRCodeGeneratorImpl.cpp:325-340 | a quotient leaves a rest smaller than the divisor, with the sign of the dividend |
| Int64.RestIsUnique | src/codegen/ir/IRCodeGeneratorImpl.cpp:325-340 | no other number does |
| Ast.AstBuilder.VisitExpr | src/frontend/ASTBuilder.cpp:184-289 | whatever the flag is when an expression is visited, the marks are those of a traversal that passes the mode down: L, *L and L[E] in address mode, pointers' contents and subscripts in value mode |
| Ast.AstBuilder.VisitStmt | src/frontend/ASTBuilder.cpp:446-458 | statements are marked as if by that traversal: the left side of an assignment in address mode, everything else in value mode |
| IrCodegen.GenGrows | src/codegen/ir/IRCodeGeneratorImpl.cpp:378-482 | a statement's code leaves exactly one block open, only extends the block it starts in, and touches no finished block |
| IrCodegen.GenLinked | src/codegen/ir/IRCodeGeneratorImpl.cpp:389-475 | every other block ends in exactly one terminator, whose targets exist |
| IrCodegen.GenLaidOut | src/codegen/ir/IRCodeGeneratorImpl.cpp:389-475 | the function lists every block once, and none besides |
| BlockOrder.GenInOrder | src/codegen/ir/IRCodeGeneratorImpl.cpp:389-475 | a statement's blocks go behind all the others, each behind one that jumps to it, and the block left open is last |
| BlockOrder.IfInOrder | src/codegen/ir/IRCodeGeneratorImpl.cpp:389-432 | the first case, what it inserts, the second case, what it inserts, the join: in this order, behind the blocks there were |
| BlockOrder.WhileInOrder | src/codegen/ir/IRCodeGeneratorImpl.cpp:434-475 | the condition, the body, what it inserts, the block behind the loop: in this order |
| IrCodegen.IrCodeGenerator.CodegenExpr | src/codegen/ir/IRCodeGeneratorImpl.cpp:138-174 | in place: the code of `GenExpr` is appended to the block at the insertion point |
| IrCodegen.IrCodeGenerator.CodegenDerefExpr | src/codegen/ir/IRCodeGeneratorImpl.cpp:288-297 | in place: one load in either mode, through the pointer's cell for the address and through the pointer for the value |
| IrCodegen.IrCodeGenerator.CodegenArraySubscriptExpr | src/codegen/ir/IRCodeGeneratorImpl.cpp:299-316 | in place: the element's address, and a load in value mode only |
| IrCodegen.IrCodeGenerator.CodegenStmt | src/codegen/ir/IRCodeGeneratorImpl.cpp:176-210 | in place: blocks, insertion point and counters become those of `GenStmt` |
| IrCodegen.IrCodeGenerator.CodegenAssignmentStmt | src/codegen/ir/IRCodeGeneratorImpl.cpp:477-482 | in place: right side, left side, store |
| IrCodegen.IrCodeGenerator.CodegenIfStmt | src/codegen/ir/IRCodeGeneratorImpl.cpp:389-432 | in place: condition, cases and join, blocks inserted when their turn comes |
| IrCodegen.IrCodeGenerator.CodegenWhileStmt | src/codegen/ir/IRCodeGeneratorImpl.cpp:434-475 | in place: condition block, body, jump back, block behind |
| ExprProof.ExprComputes | src/codegen/ir/IRCodeGeneratorImpl.cpp:138-340 | code for a marked expression computes in address mode the address of the cell it denotes, and in value mode its value, consuming the same input; memory need hold only the slots that the code uses |
| ExprProof.ConditionComputes | src/codegen/ir/IRCodeGeneratorImpl.cpp:389-450 | the value branched on is 0 if and only if the condition's value is, for comparisons and integers, in `if` and in `while` |
| ExprProof.ComparisonsAreI1 | src/codegen/ir/IRCodeGeneratorImpl.cpp:325-340 | of generated code, the test of the type and the test of the instruction both tell comparisons, as the program has them |
| StmtProof.StmtRuns | src/codegen/ir/IRCodeGeneratorImpl.cpp:353-482 | a terminating run of a statement is matched by the graph from the insertion point before its code to the one behind it, with store, output and input alike |
| StmtProof.IfRuns | src/codegen/ir/IRCodeGeneratorImpl.cpp:389-432 | the same for `if`, with and without `else` |
| StmtProof.LoopRuns | src/codegen/ir/IRCodeGeneratorImpl.cpp:434-475 | the same for loops, by the number of rounds |
| CodegenTheorem.Compile | src/codegen/ir/IRCodeGeneratorImpl.cpp:176-210 | visitors and generator together put out a graph that is closed and linked, whose list of blocks begins with the entry, ends with the open block, and has every other one behind a block that jumps to it |
| CodegenTheorem.CompiledRuns | src/codegen/ir/IRCodeGeneratorImpl.cpp:318-482 | every terminating run of a program is matched by its graph, from the entry to the final insertion point |
| Labeller.State.Record | thirdparty/olive/iburg.c:795-813 | a rule that lowers a cost is recorded, chain rules follow at once, costs only go down, and the recursion ends, cycles of chain rules included |
| Labeller.State.Closure | thirdparty/olive/iburg.c:602-618 | afterwards no chain rule of the nonterminal could lower a cost |
| Labeller.Label | thirdparty/olive/iburg.c:911-963 | for every node and nonterminal: a rule is recorded if and only if a bounded derivation exists, the cost is the least of all of them, and the recorded rules lead to one that has it |
| Labeller.LabelIsLeast | thirdparty/olive/iburg.c:520-617 | no bounded derivation is cheaper than the recorded cost |
| Labeller.WitnessFollows | thirdparty/olive/iburg.c:795-813 | the recorded rules, followed from the root, are a derivation with the recorded cost |
| Labeller.RecordedIffDerivable | thirdparty/olive/iburg.c:1073-1093 | the test for a recorded rule is the test for a bounded derivation |
| Labeller.CheapIsBounded | thirdparty/olive/iburg.c:520-600 | where all costs count, the bounded derivations are those that cost less than 32767 |
| Labeller.Cover | thirdparty/olive/iburg.c:746-751 | a tree is covered if and only if the start symbol has a bounded derivation of it |
| AsmGrammar.AsmFacts | src/codegen/asm/AsmBuilderHelper.gen:23-545 | the grammar is well-formed, and all its rules but those for calls count what they match; which rules it has is told by `GrammarCovers.AsmIsBackEnd` |
| AsmGrammar.LongCallIsMissed | src/codegen/asm/AsmBuilderHelper.gen:505-545 | a call of n constants has a derivation of cost 1, and a rule is recorded, at that cost, if and only if n < 32767 |
| CallCosts.LeastIffArgumentsBounded | src/codegen/asm/AsmBuilderHelper.gen:505-545 | for every labelled tree: recorded costs are least among all derivations that cost less than 32767, at every node and nonterminal, if and only if every call's argument list that can be derived has a bounded derivation |
| CallCosts.BoundedBeside | src/codegen/asm/AsmBuilderHelper.gen:505-545 | where that holds, every derivation below 32767 has a bounded one beside it at the same cost |
| AsmGrammar.Gen | thirdparty/olive/iburg.c:746-751 | the statement nonterminal covers a tree if and only if it has a bounded derivation in this grammar; for the trees that there are, `GrammarCovers.GenRoot` says which |
| GrammarCovers.AsmIsBackEnd | src/codegen/asm/AsmBuilderHelper.gen:23-545 | a rule is in the grammar if and only if it is one of those listed operator by operator |
| GrammarCovers.ValueCovered | src/codegen/asm/AsmBuilderHelper.gen:23-463 | every value made of numbers, loads and the four operators, over places of any depth, is derived from the register nonterminal (a number from the one for immediates), at the cost that a recursion over the value gives, and from no other nonterminal and at no other cost |
| GrammarCovers.PlaceCovered | src/codegen/asm/AsmBuilderHelper.gen:38-210 | the same for places: objects and elements from the one for memory, pointers in registers from the one for registers |
| GrammarCovers.ArgsCovered | src/codegen/asm/AsmBuilderHelper.gen:465-504 | an argument list has a derivation if and only if each argument is a value, a place or a label, at one for each and what they cost |
| GrammarCovers.RootCovered | src/codegen/asm/AsmBuilderHelper.gen:78-545 | every statement, store, return, branch and call has a derivation at the cost that a function of its parts gives, and no other; where that gives none, none |
| GrammarCovers.RootLabelled | src/codegen/asm/AsmBuilderHelper.gen:78-545 | the labeller records the statement nonterminal if and only if that cost, and the one of the arguments of a call, is below 32767, and it records that cost |
| GrammarCovers.GenRoot | src/codegen/asm/AsmBuilderHelper.gen:552-559 | `gen` in place: a statement is covered if and only if it has a cost below the bound, and the label says it |
| GrammarCovers.SelectedIsCovered | src/codegen/asm/BrgTreeBuilder.h:376-563 | the instructions that selection has code for are the covered ones |
| UnionFinds.UnionFind.Find | src/semantic/TypeAnalysis.h:40-50 | gives the representative, ends, and leaves the partition as it was although paths are compressed |
| UnionFinds.UnionFind.MakeSet | src/semantic/TypeAnalysis.h:35-38 | a new type is alone in its class; known ones stay where they are |
| UnionFinds.UnionFind.UnionTypes | src/semantic/TypeAnalysis.h:28-33 | exactly the two classes are joined, under the second representative |
| Partitions.MergeShrinks | src/semantic/TypeAnalysis.cpp:25-83 | a merge lowers the number of classes of a closed set, so that unification ends on all inputs, cyclic ones included |
| TypeAnalysis.Analysis.Unify | src/semantic/TypeAnalysis.cpp:25-83 | ends; returns true if and only if the representatives are compatible at the top; merges only what every congruent partition contains; with true the two types end in one class, with false there are different shapes in their classes or arrays of different lengths in one class; what was joined along types whose components have met still is; a class with a proper type has a proper representative |
| TypeAnalysis.Analysis.UnifyParts | src/semantic/TypeAnalysis.cpp:38-74 | the nested calls for components: each pair of components ends in one class, or there are types of different shapes in their classes; every congruent partition that puts the two types together keeps up with it |
| TypeAnalysis.Analysis.Solve | src/semantic/TypeAnalysis.cpp:85-97 | the final partition is contained in every solution, and joins proper types along chains of types whose components have met and in no other way; with true it puts the sides of every constraint together; with false, there are different shapes in the classes of the sides of some constraint, or arrays of different lengths in one class |
| TypeAnalysis.AnswerIsRight | src/semantic/TypeAnalysis.cpp:85-97 | unless arrays of different lengths end in one class: the constraints have a solution if and only if they are accepted and no shapes have met below the top, and then the final partition is one |
| TypeAnalysis.AcceptedIffTogether | src/semantic/TypeAnalysis.cpp:85-97 | under the same condition, constraints are accepted if and only if no constraint has types of different shapes in the classes of its sides |
| TypeAnalysis.OneLengthIsRight | src/semantic/TypeAnalysis.cpp:25-97 | a condition on the constraints alone is enough for both: no two array types of different lengths |
| TypeAnalysis.StuckHasNoSolution | src/semantic/TypeAnalysis.cpp:38-74 | shapes that have met in a nested call mean that there is no solution, whatever else has met |
| Partitions.LinkedIsSolved | src/semantic/TypeAnalysis.cpp:25-83 | what unification leaves behind is in solved form, cyclic sets included, unless array lengths or shapes have met in it |
| Partitions.LinkedSameShape | src/semantic/TypeAnalysis.cpp:25-83 | proper types of one class have one shape, whatever has been met |
| TypeAnalysis.AssignmentIsSolution | src/semantic/TypeAnalysis.cpp:85-97 | every assignment that satisfies the constraints modulo array-to-pointer decay gives a solution |
| TypeAnalysis.ClassesHaveOneValue | src/semantic/TypeAnalysis.cpp:25-83 | under every satisfying assignment the members of one class of the final partition have one value |
| TypeAnalysis.SolveSatisfiable | src/semantic/TypeAnalysis.cpp:85-97 | unless arrays of different lengths end in one class, constraints with a satisfying assignment are accepted with a solution; either way what is put together has one value |
| TypeAnalysis.NestedClashIsDropped | src/semantic/TypeAnalysis.cpp:39-43 | true is returned for a constraint between pointers that has no solution |
| Typing.ConstraintVisitor.VisitExpr | src/semantic/TypeAnalysis.h:110-174 | in place: the constraints of an expression's nodes are appended, children first |
| Typing.ConstraintVisitor.VisitStmt | src/semantic/TypeAnalysis.h:86-108 | in place: those of a statement |
| Typing.ConstraintVisitor.VisitFunction | src/semantic/TypeAnalysis.h:66-84 | in place: those of the body and the result, then the function's own, with integers for `main` |
| TypingProof.SameDecays | src/semantic/TypeAnalysis.cpp:25-83 | declared types that a solution puts into one class are one type, arrays decayed |
| TypingProof.ExprTold | src/semantic/TypeAnalysis.h:110-174 | under any solution every expression has a verdict other than ill-typed, and its type is in its node's class |
| TypingProof.SolvableIsWellTyped | src/semantic/TypeAnalysis.h:66-174 | a program whose constraints have a solution, a cyclic partition included, is well typed |
| TypingComplete.ExprGiven | src/semantic/TypeAnalysis.h:110-174 | an expression that is not ill-typed has types for its nodes that satisfy its constraints and give it any type that its verdict allows |
| TypingComplete.ProgramGiven | src/semantic/TypeAnalysis.h:66-174 | so has a whole well-typed program |
| TypingComplete.WellTypedIffSolvable | src/semantic/TypeAnalysis.h:66-174 | a program is well typed if and only if its constraints have a solution, and if and only if types for its nodes satisfy them |
| TypingComplete.Analyze | src/semantic/TypeAnalysis.cpp:85-97 | the whole analysis: unless arrays of different lengths end in one class, a program is well typed if and only if it is accepted and no shapes have met below the top; well-typed programs never have such shapes |
| Bits.MaskLow | src/runtime/aphotic_shield/guarded_pool_allocator.cpp:31-49 | masking with 2^k - 1 is the remainder |
| Bits.MaskHigh | src/runtime/aphotic_shield/guarded_pool_allocator.cpp:19-25 | masking with the complement of 2^k - 1 subtracts the remainder |
| Bits.PowerTest | src/runtime/aphotic_shield/guarded_pool_allocator.cpp:27-29 | x and x - 1 have no common bit if and only if x is a power of two |
| PoolGeometry.PageAddrClearsOffset | src/runtime/aphotic_shield/guarded_pool_allocator.cpp:23-25 | the mask gives the beginning of the page |
| PoolGeometry.SizesRoundToOnePage | src/runtime/aphotic_shield/guarded_pool_allocator.cpp:19-21 | every size up to a page rounds to one page |
| PoolGeometry.PowerOfTwoTest | src/runtime/aphotic_shield/guarded_pool_allocator.cpp:27-29 | the test accepts 0 and the powers of two |
| PoolGeometry.NearestInverts | src/runtime/aphotic_shield/guarded_pool_allocator.cpp:51-80 | on every byte of a slot page the nearest slot is that slot, for every base, page size and slot count |
| PoolGeometry.GuardPagesAreTheRest | src/runtime/aphotic_shield/guarded_pool_allocator.cpp:75-80 | a pool address is on a guard page if and only if it is on no slot |
| PoolGeometry.NearestIsNearest | src/runtime/aphotic_shield/guarded_pool_allocator.cpp:61-73 | no slot's boundary is nearer than the one given, and ties go down |
| PoolGeometry.PlacedInSlot | src/runtime/aphotic_shield/guarded_pool_allocator.cpp:121-164 | for every size, power-of-two alignment up to a page and either choice: aligned, the whole block in its slot, and the pages opened are the slot's |
| PoolGeometry.SlotsAreApart | src/runtime/aphotic_shield/guarded_pool_allocator.cpp:57-59 | no byte belongs to two slots |
| PoolMachine.StepInv | src/runtime/aphotic_shield/guarded_pool_allocator.cpp:121-198 | every step of every thread between critical sections keeps the invariant about slots, list, metadata and open pages |
| PoolMachine.RunInv | src/runtime/aphotic_shield/guarded_pool_allocator.cpp:121-198 | so every state of every interleaving has it |
| PoolMachine.OneState | src/runtime/aphotic_shield/guarded_pool_allocator.cpp:136-198 | each slot is in exactly one state: never reserved, free, being allocated, live, being freed; at most once in the list and with at most one thread |
| PoolMachine.HandedOutOnce | src/runtime/aphotic_shield/guarded_pool_allocator.cpp:225-242 | between two times that a slot is handed out it is deallocated |
| PoolMachine.FreeListHasRoom | src/runtime/aphotic_shield/guarded_pool_allocator.cpp:239-242 | the list of free slots never overflows |
| PoolMachine.GuardPagesAreClosed | src/runtime/aphotic_shield/guarded_pool_allocator.cpp:244-260 | no byte of a guard page is ever accessible |
| PoolMachine.LiveBlocks | src/runtime/aphotic_shield/guarded_pool_allocator.cpp:121-164 | every byte of a live block is accessible and in no other live block |
| PoolDiagnosis.AllocatedEffect | src/runtime/aphotic_shield/guarded_pool_allocator.cpp:121-164 | the steps of `allocate` run through: the aligned block in the reserved slot, its metadata and its open page, or nothing at all |
| PoolDiagnosis.RequestServed | src/runtime/aphotic_shield/guarded_pool_allocator.cpp:121-164 | in the caller's words: turned down if and only if it asks for more than a page, for an alignment that is no power of two or more than a page, or no slot is left; else as many bytes as asked for on one slot, every byte accessible, aligned as asked (to 16 by default), at the end of the slot that was asked for, with the size on record, and other slots as they were |
| PoolDiagnosis.DeallocatedEffect | src/runtime/aphotic_shield/guarded_pool_allocator.cpp:166-198 | the steps of `deallocate` run through: which trap, or the slot marked, closed and in the list |
| PoolDiagnosis.HistoryIsRemembered | src/runtime/aphotic_shield/guarded_pool_allocator.cpp:82-90 | after any calls without a trap the metadata tell the last block of each slot and whether it was taken back |
| PoolDiagnosis.VerdictOnSlotPage | src/runtime/aphotic_shield/error_report.cpp:44-80 | on a slot page the verdict is use after free if and only if the slot's last block was taken back |
| PoolDiagnosis.VerdictOnClosedPage | src/runtime/aphotic_shield/error_report.cpp:44-80 | on an inaccessible slot page that is if and only if the slot was ever given out |
| PoolDiagnosis.VerdictOnGuardPage | src/runtime/aphotic_shield/error_report.cpp:44-80 | on a guard page overflow or underflow if and only if the nearest slot was ever given out, by whether it lies below or above |
| PoolDiagnosis.VerdictOnDeallocation | src/runtime/aphotic_shield/guarded_pool_allocator.cpp:166-182 | a block can be taken back if and only if it is its slot's last one and still out; otherwise the verdict is invalid or double free, as the case may be |
| GuardedPool.GuardedPoolAllocator.ReserveSlot | src/runtime/aphotic_shield/guarded_pool_allocator.cpp:225-237 | in place, on the array: fresh slots first, then a random one, whose place the last takes |
| GuardedPool.GuardedPoolAllocator.FreeSlot | src/runtime/aphotic_shield/guarded_pool_allocator.cpp:239-242 | in place: the slot goes to the end of the list |
| GuardedPool.GuardedPoolAllocator.Allocate | src/runtime/aphotic_shield/guarded_pool_allocator.cpp:121-164 | fields, arrays and result become what the steps of one thread lead to, and the request is served as `RequestServed` says |
| GuardedPool.GuardedPoolAllocator.Deallocate | src/runtime/aphotic_shield/guarded_pool_allocator.cpp:166-198 | the same, up to the trap where there is one |

## Left out

- Backend.FunctionRuns: calls, branches and labels are not among the instructions of the machine; the theorem is about straight-line functions whose source run does not use the cells of the frame as memory. `CellsApart` is the exact condition under which cells stay clear of saved registers.
- SelectedFunctions.SelectedRuns: the same functions; stores of labels and of incoming arguments have no counterpart in the model.
- RewriteProof.ListSimulates: takes cells as memory that the program does not use otherwise, since the offsets in the code do not keep them apart from local objects.
- SelectionProof.TreeSelected: trees need no more virtual registers than the numbering has; operators on two immediates have no handler; quotients by zero and the quotient that overflows are excluded, as they have no value in the source language.
- CodegenTheorem.CompiledRuns: programs of variables, pointers, arrays, arithmetic, conditions, input, output, blocks, if and while; comparisons are used as conditions only, and lvalues under `*` are not calls or `&x`, which the generator does not lower correctly.
- TypeAnalysis.Analysis.Solve: when arrays of different lengths end in one class, the partition is still contained in every solution and still joins nothing but what hangs together, but it is not claimed to be a solution, because elements of such arrays are not compared.
- PoolDiagnosis.VerdictOnSlotPage: runs of one thread; the verdicts during other threads' operations are not modelled.
- Rewriting.AsmRewriter.Rewrite: the number of virtual registers of one function is at most the number of stack slots, 2^30.
- Memory is made of word-sized cells at integer addresses: partial overlaps between words are not modelled, except in the lemmas about offsets.
- Index registers of memory operands, which the RISC-V builder never sets.
- Stack objects as operands until the end; SelectionProof treats an object as a place at a fixed distance from the frame pointer, the one that Lowering computes.
- An array element whose node is used by two instructions: its action is not guarded, and the second time asks a node that has become a memory operand for its instruction (`src/codegen/asm/BrgTreeBuilder.h:178-181,268-271`). The generator makes one node per use; the model selects the element anew.
- Branch instructions with spilled operands: the code that restores a register stands behind the branch and is skipped when it is taken.
- X86 instruction selection and X86 spill code: two-address instructions overwrite operands, and quotients stay in a fixed register.
- Types of loaded values: the mark of `*L` selects the type that is loaded, a pointer or what it points to (`src/codegen/ir/IRCodeGeneratorImpl.cpp:288-297`); values of the modelled IR are 64-bit words, comparisons apart, so that the instruction is the same.
- Calls, allocation and deallocation statements, null and sizeof, return: they would add cases without new difficulty.
- LLVM's own behaviour: constant folding, the data layout, and the order in which hash maps are traversed, which is left open where it matters (`GetFreePhysReg`, ties in `SortActive`).
- TypingComplete.Analyze: types as written contain no type variables, and nodes are numbered apart, in place of their addresses; null and sizeof are not constrained by the code, so the rules let them have any type.
- Random numbers, mapping and protection of memory, the lock, and signals of the guarded pool: random choices are parameters, protection is a set of open pages, a critical section is one step, and a trap ends the run.
- `RecordAllocation` is one step of the thread; two fields written without the lock in between are not seen half done.
- Parsing, printing, option handling, linking, and the brainfuck example program.
- olive's own front end and the text that it prints.
