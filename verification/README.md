# Verification model of gbasm

gbasm is an assembler, a linker and a compiler for the small language Boson. This
project models its most delicate parts in Dafny and proves what they promise.

**Register allocation and the stack frame** (`Registers`, `RegisterFile`,
`Allocation*`, `Machine`, `Allocator`, `Frame`, `FunctionBody`, `CodePositions`). The classes
`RegisterBits`, `Ralloc`, `Rallocs` and `Function` are the source's objects, with
their in-use bits, LRU list, maps, free list and emitted code. Each method is
proved to act on a ghost `model` exactly as a function of `Allocation` does, and
the theorems are about those functions. `Machine` executes the emitted
instructions on registers with their sub-registers and on stack bytes. The main
results: after any run of allocator calls and of writes through what the allocator
handed out, with callees that leave any values in the caller-saved registers, the
machine holds what a plain map from variable to value holds (`RunRefines`), also where
a variable is written through its address, which keeps it out of registers for good
(`AllocationVolatile.VolatileStaysInSlot`); and so it does whatever way control takes through a function's code, jumps and loops
included (`AllocationJumps.PathRefines`), each jump landing, in the patched bytes,
on the code that is run next (`CodePositions.TakenJumpLands`). What is refused, and at
whose cost the rest is met, is exact as well (`AllocationAnswers`).

**Ownership checking and loop lowering** (`Boson`, `Lowering`, `Ownership*`,
`Checker`). `Boson` gives the language a meaning; its worlds know which bindings hold
something and record each resource that is given, read and taken, and a use of what
is not held is an outcome. `Checker` is the compiler's pass over linked contexts,
snapshots and frame stacks, proved against the function `Ownership.Check`. A function
is accepted exactly if no path through its text is refused and paths that meet agree
(`OwnershipAcceptance.AcceptedExactly`, with the paths of `OwnershipPaths`). An accepted
function is safe on every run exactly if each use in it is of a name that is certainly
given before (`OwnershipSoundness.AcceptedIsSafe`), which `OwnershipGiven` defines on
the text and shows to be necessary. Without loops it takes every resource exactly once
exactly if, besides, no join forgets one (`OwnershipLeaks.TakenExactlyOnce`), and with
loops exactly if those are tight (`OwnershipLoops.HeldOrTakenExactly`).
`OwnershipLimits` has the inputs.

**Linking** (`ObjectFile`, `Linkage`, `Linker`, `Relocating`, `Linking`,
`Objects`, `Resolving`). The worklist and the mutually recursive placement are
methods of the class `Linker`; the relocation passes patch arrays in place. The
result is stated without them: exactly the reachable symbols are placed, at
disjoint addresses, and every slot leads to its target. Names are taken apart again: a
symbol finds the definition of its package and no other (`Objects.SymbolFinds`).

**Object files** (`Codecs`, `ObjectFormat`, `ObjectStream`). A format is a codec
that is proved to read back what it writes; the writers and readers of the source
are methods of the class `Stream`, written out separately, field by field and loop
by loop, and each is proved to follow the format.

**Instruction encoding** (`Encoder`, `Decoding`, `FormDecoding`), against a decoder
written from the Intel manual, which reads the operand size, too; **executable files** (`Elf`, `Loading`, `Executable`), which load as what was linked; **type
descriptors** (`TypeInfo`); **shape words and names** (`Shape`); **static
initialisers and string literals** (`StaticInit`, `StaticInitMeaning`, `StringLiteral`),
whose bytes read as the constant; and **implicit coercion** (`Types`, `TypePaths`). `Wrappers` holds the option type.

To verify: `dafny verify dfyconfig.toml` (Dafny 4.11).

## What turned out not to hold

Each of these is a lemma: an input, reachable from the start, on which the code fails,
or a condition that holds exactly where it does not, or both.

- The checker takes a name to be declared wherever it is in scope, and compares at
  joins and at the ways out of a loop only what was bound before. It accepts a use of
  what holds nothing where the declaration is an arm of an `if`, the body of a loop or
  the step of a `continue` and another way leads to the use, where the ways out of a
  loop disagree on a name bound in it, or where a declaration names itself: one
  accepted function with a failing run for each (`OwnershipLimits`). An accepted
  function is safe exactly if each use is of a name that is certainly given
  (`OwnershipSoundness.AcceptedIsSafe`).
- A resource is lost where one arm of an `if` declares a name and the other gives it
  one: the join goes by the first arm (`OwnershipLimits.JoinForgets`). Without loops,
  every resource is taken exactly once exactly if there is no such join and each use
  is of a given name (`OwnershipLeaks.TakenExactlyOnce`).
- A resource is lost where a `break` or `continue` leaves the scope of what holds it,
  and where a loop body gives a name one that it did not hold before the loop
  (`OwnershipLimits.BreakGiftIsLost`, `OwnershipLimits.LoopGiftIsLost`). Each resource is
  held by a binding in scope until it is taken exactly if neither can happen and each
  use is of a given name (`OwnershipLoops.HeldOrTakenExactly`).
- A function that ends in an `if` both of whose arms leave is refused if it has a
  parameter, even if each arm returns it: the end of the text is looked at though it is
  not reached, in the state before the `if` (`OwnershipLimits.LeavingArmsAreRefused`,
  `OwnershipLimits.ReturningArmsAreRefused`). What is accepted exactly is
  `OwnershipAcceptance.AcceptedExactly`.
- A variable that gets its first value after a label, in the body of a loop, is not
  loaded again when control comes back: its slot holds the value, but a register that
  `Register` or `UseRegister` answers with need not
  (`AllocationLabels.LateValueIsLost`). At any label that knows a variable in the same
  slot, a register finds the value exactly if the allocator there expects it in memory
  (`AllocationLabels.JumpKeepsExactly`).
- Forgetting a variable of 256 MiB or more cuts its size in bits to 32 bits first:
  the slots stay sound exactly if that is not negative (`AllocationSlots.ForgetKeeps`,
  `AllocationLimits.ForgetFails`).
- `Arg` and `UseRegister` ignore the result of marking their register. `Arg` keeps
  the allocator's invariant exactly if the register shares bits with none in use, or
  is held by hand itself (`AllocationSlots.ArgKeeps`); `UseRegister`, which evicts
  first, exactly if none held by hand shares bits with it but itself
  (`AllocationInvariant.UseRegisterExactly`). Runs that break it are
  `AllocationLimits.ArgFails` and `AllocationLimits.UseRegisterFails`.
- A byte may be refused a register although one could be had: the register used least
  recently is evicted for it even if that is RSI or RDI, of which no byte is handed out
  (`AllocationLimits.ByteIsRefused`). When `Register` panics exactly is
  `AllocationAnswers.RegisterSucceeds`.
- Loading a byte into a low-byte register first clears the whole register, and
  with it whatever lives in the high byte beside it
  (`AllocationRefinement.LoadClearsBrother`, and a run: `AllocationLimits.TenantIsLost`).
- A form whose first encoding fails is encoded by the next, behind what the first one
  began: the bytes are those of one encoding alone exactly if the others had written
  nothing (`Encoder.NothingTakenBack`, `Encoder.PrefixStays`).
- An instruction form keeps only the relocations of its last part, so that of a
  global operand survives exactly if nothing follows the ModRM part
  (`Decoding.RelocationSurvives`).
- RSP as an index encodes no index (`Decoding.IndexRecovered`).
- The 4-bit count of a shape word wraps at 16 levels; the word determines the
  stack all the same (`Shape.CountWraps`, `Shape.WordGivesStack`).
- The backing array of an empty slice literal is declared with the size of a slice
  header and has no bytes. All queued globals have the size of their type exactly
  if the initialiser holds no empty list (`StaticInit.EmittedIsSound`,
  `StaticInit.EmptySliceIsDishonest`).
- `Accepts` compares the signatures of function pointers exactly if the destination
  owns something, and then only by ownership (`Types.SignatureComparedIfOwned`).
  So nothing is gained inside signatures exactly if the type holds no function
  pointer (`Types.NothingGainedInsideSignatures`, `Types.OwnedSignatureGains`);
  ownership is not gained even there (`Types.OwnershipNeverGained`).
- An array is coerced by its elements alone, whatever its name, pointer levels and
  qualifiers. A coercion gains nothing exactly if no array level that is not
  accepted as it is gains a qualifier (`Types.CoercionGainsNothing`,
  `Types.ArrayQualifiersIgnored`, `Types.ArrayCoercesToPointer`).
- The section count of an ELF file has 16 bits: from 65532 sections on, the contents
  would start inside the headers and the padding is negative, which is a panic
  (`Elf.WriteElf`, `Elf.HeadersBelowContents`).
- A map in an object file, and with it the file, reads back exactly if its records
  are filed under their own names (`Codecs.MapReadsBack`,
  `ObjectFormat.OFileReadsBack`).

## Model

| member | source | states |
|---|---|---|
| AllocationRuns.RunRefines | function.go:82-253 | after every run of allocator calls, writes, also through the address of a volatile variable, and calls that breaks no obligation of the client, executing the emitted code leaves each live initialised variable's value, as a plain map computes it, in its register or its slot |
| AllocationRuns.ApplyGood | function.go:110-253 | every single operation, from any good state, keeps the invariant and the refinement |
| AllocationRuns.InitialIsGood | function.go:809-829 | the allocator after the prologue, holding RBP and RSP, refines the empty map |
| AllocationRuns.CallGood | function.go:648-655 | after EvictForCall, a callee that leaves any values in the caller-saved registers and below the frame changes no variable |
| AllocationRuns.CallEvicts | function.go:648-655 | no caller-saved register is still tracked at a call |
| AllocationVolatile.VolatileStaysInSlot | function.go:403-421 | once the address of a variable has been taken, in every state of a run that does not forget it, it is in no register, Register and UseRegister panic, Location and Indirect lead to the slot that it had, without code, and any part of it may be written through the address |
| AllocationVolatile.FlagKept | function.go:110-253 | no operation on any variable but Forget on this one changes anything of a volatile variable |
| AllocationRuns.WriteThroughGood | function.go:403-421 | bytes written through the address of a volatile variable, by the function or a callee, become its value |
| AllocationRuns.EvictAllForgetsRegisters | function.go:638-646 | at a label or jump nothing is tracked: any register contents over the same memory and base hold every value |
| AllocationJumps.PathRefines | function.go:854-902 | whatever way control takes through the code, any jumps taken or not, any number of times round its loops, with different values written on each visit, each point reached holds the value of every live variable where the allocator's state at that point says |
| AllocationJumps.PieceIsEmitted | function.go:82-253 | the code that an operation emits does not depend on the code before it |
| AllocationLabels.JumpKeepsExactly | function.go:854-902 | at a label that knows a variable in the slot in which a taken jump brings its value, Location and Indirect find it there without code; the register that Register or UseRegister answers with holds it, for all register contents on arrival, exactly if the allocator expects it in memory |
| AllocationLabels.RegisterFindsExactly | function.go:170-231 | so it is for Register at any state with nothing tracked |
| AllocationLabels.UseRegisterFindsExactly | function.go:110-168 | and for UseRegister, whichever register is asked for |
| AllocationLabels.SlotIsFound | function.go:82-108 | Location without a preference and Indirect lead to the slot, with no code |
| AllocationLabels.LateValueIsLost | function.go:854-902 | a loop, compiled from the empty function, in which a variable gets its first value before a call: back at the label the value is in its slot, and the register that Register answers with holds what the callee left there |
| CodePositions.TakenJumpLands | function.go:1090-1114 | in the resolved bytes, a jump that control takes leads from its end to the first byte of the code that is run next |
| CodePositions.SlotsApart | function.go:869-902 | the displacements of all recorded jumps lie in the code and apart |
| AllocationRefinement.ToRegisterGood | function.go:170-231 | a variable brought into a register is there with its value, and every other keeps its own |
| AllocationRefinement.UseRegisterGood | function.go:110-168 | a variable moved or loaded into a particular register keeps its value, and so do those evicted from it |
| AllocationRefinement.LoadClearsBrother | function.go:170-231 | a byte load into a low-byte register destroys the tenant of the high byte beside it unless that is zero |
| AllocationInvariant.EvictForSucceeds | function.go:603-613 | for 16, 32 and 64 bits eviction succeeds exactly if a tracked register is wide enough, and evicts the least recently used such one and no other |
| AllocationInvariant.VictimIsFirst | function.go:603-613 | the victim is the first wide enough register of the LRU list, and there is none exactly if all are narrower |
| AllocationInvariant.AcquireKeeps | function.go:657-677 | Acquire panics exactly if an overlapping register is held by hand; otherwise the register is held, untracked, and the invariant kept, so the final panic is unreachable |
| AllocationInvariant.EvictRegKeeps | function.go:618-636 | evicting around a register frees exactly the tracked registers that overlap it and keeps the invariant and the slots |
| AllocationInvariant.ToRegisterKeeps | function.go:170-231 | Register keeps the map, LRU and in-use bits in step, and the variable is in the register it returns |
| AllocationInvariant.UseRegisterKeeps | function.go:110-168 | UseRegister keeps them in step, and the variable is in the register asked for |
| AllocationInvariant.UseRegisterExactly | function.go:110-168 | it keeps them in step exactly if no register held by hand, other than the one asked for, shares bits with that |
| AllocationAnswers.RegisterSucceeds | function.go:170-231 | Register panics exactly for a volatile variable and where no register can be had: none is spare, and no tracked one is wide enough, or, for a byte, the one used least recently leaves no byte register |
| AllocationAnswers.RegisterCosts | function.go:170-231 | a variable in a register stays there without code; otherwise nothing else is evicted if a register is spare, and if none is, exactly the least recently used one of those wide enough |
| AllocationAnswers.UseRegisterSucceeds | function.go:110-127 | UseRegister panics exactly for a volatile variable and for a register of another width |
| AllocationAnswers.UseRegisterCosts | function.go:110-168 | nothing happens if the variable is there; otherwise exactly the registers that overlap the one asked for, and the one that the variable was in, are given up |
| AllocationAnswers.LocationAnswers | function.go:82-108 | a variable in a register is answered with that, any other, unless a register is preferred, with its slot, neither with any code; only the rest asks for a register |
| AllocationAnswers.ByteSucceeds | regalloc.go:105-117 | a byte register is found exactly if the low byte of a register other than RSI and RDI is free |
| AllocationAnswers.LruIsByUse | function.go:170-231 | after any run, the list orders the tracked registers by the last operation that noted their use, which UseRegister does not do for a variable that is there |
| AllocationAnswers.VictimIsOldest | function.go:603-613 | in any state of a function's compilation the victim is, of the registers wide enough, the one whose last use is the longest ago |
| AllocationAnswers.CallEvictsExactly | function.go:648-655 | a call evicts the caller-saved registers and no others |
| AllocationAnswers.ForgetFreesRegister | function.go:366-380 | the register of what is forgotten, and no other, is free again |
| AllocationAnswers.ForgetFreesSlot | function.go:366-380 | a variable of the size of a forgotten one takes no further space in the frame |
| AllocationAnswers.SpaceReuses | function.go:288-305 | the first freed slot of exactly that size is handed out, and the frame grows exactly if there is none |
| AllocationSlots.SpaceFits | function.go:288-306 | a slot handed out lies in the frame and shares no byte with a live variable or a freed slot |
| AllocationSlots.ArgKeeps | function.go:428-449 | Arg keeps the slots apart, and the register invariant exactly if the register is bindable |
| AllocationSlots.ArgLosesTracked | function.go:428-449 | binding an argument to a register that overlaps one in use breaks the invariant |
| AllocationSlots.ForgetKeeps | function.go:366-381 | a forgotten variable gives up its name and register; its freed slot stays apart from all others exactly if its size cut to 32 bits is not negative |
| AllocationSlots.FrameCoversSlots | function.go:831-852 | the patched frame size is a multiple of 16, more than the local offset, and covers every local slot |
| AllocationLimits.ForgetFails | function.go:366-381 | from the empty function: 256 MiB allocated and forgotten, after which the slots are unsound |
| AllocationLimits.UseRegisterFails | function.go:110-168 | AL acquired, then a variable put in RAX: the registers in use overlap |
| AllocationLimits.ArgFails | function.go:428-449 | two arguments in one register |
| AllocationLimits.TenantIsLost | function.go:170-231 | a byte put in BH, then another loaded into BL: the allocator still has the first in BH, which is zero |
| AllocationLimits.ByteIsRefused | function.go:603-613 | from the empty function: Register panics for a byte because the victim is RSI, although evicting RAX would leave a byte register |
| RegisterFile.ConflictsAreOverlaps | regalloc.go:148-188 | Conflicts lists each overlapping register in use once, and is empty exactly if InUse is false |
| RegisterFile.ChoiceIsFree | regalloc.go:105-146 | what Get picks is free, has the width asked for, and is never AH, BH, CH or DH |
| RegisterFile.ChoiceSucceeds | regalloc.go:119-146 | for 16, 32 and 64 bits Get succeeds exactly if some full register is free |
| RegisterFile.RegisterBits.InUse | regalloc.go:148-160 | says whether the register overlaps one in use |
| RegisterFile.RegisterBits.Conflicts | regalloc.go:162-188 | lists the overlapping registers in use, as the in-use bits of sub-registers show them |
| RegisterFile.RegisterBits.Use | regalloc.go:207-227 | marks a register exactly if it overlaps none in use |
| RegisterFile.RegisterBits.Release | regalloc.go:190-205 | unmarks the register and no other |
| RegisterFile.RegisterBits.Get | regalloc.go:119-146 | marks and returns the first free register in order of priority |
| RegisterFile.RegisterBits.Unused8 | regalloc.go:105-117 | finds the first byte register, in order of priority, that shares no bits with one in use |
| Allocator.Ralloc.Register | function.go:170-231 | the objects' step is the model's, panics included |
| Allocator.Ralloc.UseRegister | function.go:110-168 | the objects' step is the model's, panics included |
| Allocator.Ralloc.Evict | function.go:233-253 | the value is stored and the register given back, as in the model |
| Allocator.Ralloc.RegSize | function.go:68-76 | the bits of the register it is in, of the variable, or of an address |
| Allocator.Ralloc.Location | function.go:91-108 | the location and the step are the model's |
| Allocator.Ralloc.Indirect | function.go:82-89 | the variable is forced to memory and its slot returned, as in the model |
| Allocator.Rallocs.NewLocal | function.go:320-350 | a new object for a new name, none for a known one, as in the model |
| Allocator.Rallocs.AllocBytes | function.go:383-397 | a new object over a slot of that many bytes, as in the model |
| Allocator.Rallocs.VolatileLocal | function.go:406-426 | the variable is forced to memory for good, as in the model, where `VolatileStaysInSlot` says what that means |
| Allocator.Rallocs.Arg | function.go:428-449 | the step is the model's, and the invariant survives a bindable register |
| Allocator.Rallocs.Forget | function.go:366-381 | the name and its register are given up and its slot freed, its size cut to 32 bits, as in the model |
| Allocator.Rallocs.Space | function.go:288-306 | reuses the first freed slot of that size, or extends the frame |
| Allocator.Rallocs.ReturnSpace | function.go:308-318 | adds the slot to the free list |
| Allocator.Rallocs.Evict | function.go:603-613 | the register and the state left, also on failure, are the model's |
| Allocator.Rallocs.EvictReg | function.go:618-636 | the loop over the conflicts is the model's eviction |
| Allocator.Rallocs.EvictAll | function.go:638-646 | the loop that evicts while evicting changes the list is the model's eviction |
| Allocator.Rallocs.EvictForCall | function.go:648-655 | the loop over the caller-saved registers is the model's eviction |
| Allocator.Rallocs.Acquire | function.go:657-677 | the step is the model's, panic included |
| Allocator.Rallocs.UpdateLRU | function.go:579-589 | compacting in place removes the register and puts it last |
| Allocator.Rallocs.RemoveLRU | function.go:591-601 | compacting in place removes the register and keeps the order |
| Frame.CalleeSavedRestored | function.go:809-852 | prologue, the code of any run, and epilogue leave every callee-saved register of System V AMD64 (section 3.2.1) as it was |
| Frame.SavedInFrame | function.go:809-829 | RBP ends up exactly past the saved registers and the return address, and the saved values lie above it |
| FunctionBody.Function.Prologue | function.go:809-829 | emits the saves and the frame reservation whose size is patched later |
| FunctionBody.Function.Epilogue | function.go:831-852 | patches the frame size that covers all slots and appends the restores |
| FunctionBody.Function.StackArg | function.go:455-471 | binds the i-th stack argument exactly past the saved registers and the return address |
| FunctionBody.Function.Label | function.go:854-867 | evicts everything and records how many bytes were emitted, once |
| FunctionBody.PatchKeepsPositions | function.go:831-852 | patching the frame size in place moves no label and no jump |
| FunctionBody.Function.Jump | function.go:869-902 | evicts what the jump or call may lose and records its last four bytes |
| Lowering.LowerPreservesRuns | cmd/bosc/ast.go:3190-3216 | a lowered statement has exactly the effects and the outcome of the source statement, for any nesting and any number of iterations |
| Lowering.LowerAllPreservesRuns | cmd/bosc/ast.go:3190-3216 | and so has a lowered list of statements |
| Lowering.RewriteMeaning | cmd/bosc/ast.go:3163-3188 | rewriting continues means running the step after each own continue and nothing else, inner loops left alone |
| Lowering.LowerIsPlain | cmd/bosc/ast.go:3163-3216 | the continues that lowering leaves to an enclosing loop carry no step yet |
| Lowering.RewriteDropsOldStep | cmd/bosc/ast.go:3163-3188 | a continue that already carries a step loses it |
| OwnershipSoundness.AcceptedIsSafe | cmd/bosc/compile.go:4573-4760 | an accepted body never reads, moves or disposes of a binding that holds nothing, on any run, exactly if each use in it is of a name that is certainly given on every way to it |
| OwnershipSoundness.AcceptedSourceIsSafe | cmd/bosc/compile.go:4661-4760 | nor does a source body with for loops, whose lowering was checked, exactly then |
| OwnershipSoundness.NoUseAfterMove | cmd/bosc/compile.go:4573-4760 | the one half, from any world where the parameters hold something |
| OwnershipSoundness.CheckExplainsRuns | cmd/bosc/compile.go:4573-4760 | at every exit of every run, what is given and the checker believes live is live; each loop body being checked once |
| OwnershipSoundness.Untouched | cmd/bosc/compile.go:4573-4760 | a name that is in scope and counts as live, but is not given, is neither moved nor given by an accepted statement that uses only given names |
| OwnershipGiven.SomeRunFails | cmd/bosc/compile.go:4573-4760 | a body with a use of a name that is not certainly given has a failing run, accepted or not |
| OwnershipGiven.Way | cmd/bosc/compile.go:4573-4760 | each way out of a statement that the analysis sees is a run, on which a name that is not given there holds nothing |
| OwnershipGiven.HeadStays | cmd/bosc/compile.go:4661-4760 | what is given at the head of a loop is given again at each way back to it |
| OwnershipLeaks.TakenExactlyOnce | cmd/bosc/compile.go:4772-4800 | without loops, every resource given to a parameter or binding of an accepted body is taken exactly once before the function is left, on every run, exactly if each use is of a given name and no join forgets one |
| OwnershipLeaks.ForgottenIsLost | cmd/bosc/compile.go:4615-4657 | a join that forgets a name leads to runs on which its resource is lost |
| OwnershipLeaks.StrayStays | cmd/bosc/compile.go:4573-4660 | and what is lost stays lost |
| OwnershipExact.CheckSettlesRuns | cmd/bosc/compile.go:4573-4660 | without loops and where no join forgets, what the run holds is what the trace says was given and not taken, and the checker knows it to be live, at every statement |
| OwnershipLoops.HeldOrTakenExactly | cmd/bosc/compile.go:4661-4760 | on every run of an accepted body, loops included, each resource that was given is held by a binding in scope until it is taken, once, and none is held when the function is left, exactly if each use is of a given name, no break or continue leaves one behind, and no way back to a loop's head brings one that was not held before |
| OwnershipLoops.SourceHeldOrTaken | cmd/bosc/compile.go:4661-4760 | the same for a source body with for loops, run as it is written |
| OwnershipLoops.RunMatches | cmd/bosc/compile.go:4573-4760 | in tight bodies what a run holds is at every exit exactly what the checker takes to be live there |
| OwnershipLoops.UntightLoses | cmd/bosc/compile.go:4661-4760 | each statement that is not tight has answers of its conditions with which every run loses a resource |
| OwnershipLoops.RunFollows | cmd/bosc/compile.go:4661-4760 | a run that holds more than another goes the same way, and what only it holds is lost when the other is given it |
| OwnershipLoops.LostStays | cmd/bosc/compile.go:4573-4760 | what is lost stays lost, whatever is run |
| OwnershipTraces.EveryUseIsHeld | cmd/bosc/compile.go:4573-4760 | on every run of an accepted source body, loops included, each read or take of a binding has a matching gift before it that nothing took in between, exactly if each use is of a given name |
| OwnershipTraces.RunIsSound | cmd/bosc/compile.go:4573-4760 | a run of any program shows only uses of what is held; a use of anything else ends it |
| OwnershipLimits.BareDeclarationIsUnsound | cmd/bosc/compile.go:4573-4660 | an accepted body with a declaration as an arm, and a run that takes the binding twice on the other arm |
| OwnershipLimits.ElseDeclarationIsUnsound | cmd/bosc/compile.go:4573-4660 | one with a declaration as the `else` arm, taken where it was not made |
| OwnershipLimits.ElseThatSpeaksIsUnsound | cmd/bosc/compile.go:4573-4660 | one whose `else` arm takes what the other arm declares |
| OwnershipLimits.LoopDeclarationIsUnsound | cmd/bosc/compile.go:4661-4760 | one that takes what the body of a loop declares, with a run that breaks first |
| OwnershipLimits.StepDeclarationIsUnsound | cmd/bosc/compile.go:5018-5026 | one that takes what the step of a `continue` declares |
| OwnershipLimits.SelfInitialiserIsUnsound | cmd/bosc/compile.go:3197-3412 | an accepted body that moves a binding while declaring it |
| OwnershipLimits.LoopExitsAreUnsound | cmd/bosc/compile.go:4700-4740 | one that takes what its loop binds, which only one of the two ways out left live |
| OwnershipLimits.JoinForgets | cmd/bosc/compile.go:4615-4657 | an accepted body that gives a binding a resource and never takes it |
| OwnershipLimits.GivenLater | cmd/bosc/compile.go:4573-4660 | a bare declaration before a gift is accepted and safe |
| OwnershipLimits.NeverUsed | cmd/bosc/compile.go:4661-4760 | and so is one of a name that is not used |
| OwnershipLimits.ArmMayDeclare | cmd/bosc/compile.go:4573-4660 | a declaration as an arm whose other arm leaves is accepted and safe |
| OwnershipLimits.BreakGiftIsLost | cmd/bosc/ast.go:1060-1085 | an accepted body with a break out of the scope of a binding that holds a resource |
| OwnershipLimits.LoopGiftIsLost | cmd/bosc/compile.go:4675-4759 | an accepted loop whose body gives a binding a resource that is never taken |
| OwnershipLimits.LeavingArmsAreRefused | cmd/bosc/compile.go:2942-2945 | a function of parameters whose body is an if both of whose arms leave is refused, whatever they do |
| OwnershipLimits.ReturningArmsAreRefused | cmd/bosc/compile.go:4656-4657 | `{ if (c) return x else return x }` is refused, although every run takes x and leaves |
| OwnershipAcceptance.AcceptedExactly | cmd/bosc/compile.go:4573-4760 | a function body is accepted exactly if, on every path through its text, each loop body being entered once, every read, move, assignment and declaration is of a name in the state it needs, what was declared in a block is moved at its end, everything is moved at a return, nothing that was held before a loop is gone at its head; if paths that meet behind an if, at the head or behind a loop agree on what is moved; and if the parameters are moved at the end |
| OwnershipAcceptance.SourceAcceptedExactly | cmd/bosc/compile.go:4661-4760 | the same for a source body with for loops, on the paths of its lowered form |
| OwnershipAcceptance.Accepted | cmd/bosc/compile.go:4573-4760 | no path through an accepted statement is refused, paths that meet agree, and the states and snapshots of the checker are those at the ends of paths, all of them |
| OwnershipAcceptance.FineIsAccepted | cmd/bosc/compile.go:4573-4760 | a statement whose paths all pass and agree is accepted |
| Ownership.Check | cmd/bosc/compile.go:4573-4760 | an accepted statement leaves the stack of loops as deep as it was and forgets no binding; `AcceptedExactly` says what is accepted |
| Checker.CompileFunctionBody | cmd/bosc/compile.go:2846-2952 | the pass over linked contexts accepts exactly the bodies that the checking function does, which `AcceptedExactly` characterises by paths |
| Checker.Context.Compile | cmd/bosc/compile.go:2954-3020 | one statement changes bindings, moved marks and frame stacks as the checking function says |
| Checker.Context.CompileIf | cmd/bosc/compile.go:4573-4660 | the arms are checked from the same snapshot and joined |
| Checker.Context.CompileLoop | cmd/bosc/compile.go:4661-4760 | the body is checked once and its back edges and breaks compared |
| Checker.Context.CompileBlock | cmd/bosc/compile.go:3631-3652 | the scope's own bindings must be moved where its end is reached |
| Checker.Context.CompileReturn | cmd/bosc/compile.go:4772-4800 | every visible obligation must be moved at a return, the returned one being moved by it, as in the checking function |
| Checker.Context.CompileContinue | cmd/bosc/compile.go:5018-5026 | the step is compiled before the snapshot is recorded |
| Checker.Context.CompileAssign | cmd/bosc/compile.go:4253-4330 | only a moved binding may be given a new obligation |
| Checker.Context.CompileDeclare | cmd/bosc/compile.go:3197-3412 | a declared binding is live exactly if it was initialised |
| Checker.Context.Symbol | cmd/bosc/compile.go:5030-5054 | a symbol may be read exactly if it is not moved |
| Checker.Context.MoveOwnedSource | cmd/bosc/compile.go:2242-2281 | the source of a move must be live and is marked |
| Checker.Context.Join | cmd/bosc/compile.go:4629-4657 | an arm that does not fall through does not take part in the join |
| Checker.Context.LoopEnd | cmd/bosc/compile.go:4675-4759 | back edges agree with what was live before and breaks with each other |
| Checker.Context.Move | cmd/bosc/checker.go:297-346 | marks the nearest binding of that name and no other |
| Checker.Context.Unmove | cmd/bosc/checker.go:348-358 | unmarks the nearest binding of that name and no other |
| Checker.Context.IsMoved | cmd/bosc/checker.go:360-368 | tells the mark of the nearest binding |
| Checker.Context.OwnedBindingsSnapshot | cmd/bosc/checker.go:370-386 | the snapshot is what is visible through the whole chain of scopes |
| Checker.Context.RestoreOwnedBindings | cmd/bosc/checker.go:388-397 | the visible marks are those of the snapshot again |
| Checker.Context.BindVar | cmd/bosc/ast.go:415-440 | a name is bound, live, in the innermost scope, unless one is visible |
| Checker.LoopStacks.RecordBreak | cmd/bosc/checker.go:202-209 | the snapshot joins those of the innermost loop |
| Checker.LoopStacks.RecordContinue | cmd/bosc/checker.go:175-182 | the snapshot joins those of the innermost loop |
| Checker.Context.SameAcross | cmd/bosc/checker.go:736-747 | all snapshots agree on the given names |
| Checker.Context.BackedgesAgree | cmd/bosc/compile.go:4684-4752 | all back edges agree, and none loses what was live before the loop |
| Linking.LinkProgram | linker.go:144-378 | succeeds exactly if the entry point exists and no reachable symbol is missing; the binary then holds exactly the reachable functions, vars and data, in order and apart, with every slot leading to its target and every other byte as it was |
| Linker.Linker.Place | linker.go:271-308 | the worklist ends, fails exactly on a dangling reference, and has placed exactly what is reachable |
| Linker.Linker.PlaceNext | linker.go:271-308 | each round places one more function, behind the others |
| Linker.Linker.Scan | linker.go:289-303 | everything a function refers to is placed or waiting, and its relocations are collected shifted |
| Linker.Linker.AddNeeded | linker.go:183-190 | a function is queued at most once |
| Linker.Linker.AddNeededDataReloc | linker.go:217-233 | follows a slot to its target; fails only on a symbol that does not exist |
| Linker.Linker.AddVar | linker.go:234-251 | places a var once and all it points to, cycles included |
| Linker.Linker.AddData | linker.go:252-269 | places a datum once and all it points to, cycles included |
| Linker.Linker.Start | linker.go:272-282 | the first function of the worklist leaves it and gets its place |
| Linkage.ClosedIsAll | linker.go:271-308 | a set that holds the entry point and is closed under references holds everything reachable |
| Linkage.SymbolsApart | linker.go:209-269 | the blocks of a section do not overlap |
| Linkage.QualifiedSplits | linker.go:122-128 | a name belongs to a package, what stands before its first dot, exactly if it is the qualified name of what stands after it |
| Linkage.TargetSplits | linker.go:130-142 | a bare target comes to belong to the package of the variable, and a target with a dot stays |
| ObjectFile.SlotLeadsToTarget | ofile.go:89-98 | the address past a patched code slot plus its contents is the target's address plus the addend, modulo 2^32 |
| ObjectFile.ApplyRelocation | ofile.go:89-98 | writes those four bytes and nothing else |
| ObjectFile.ApplyDataReloc | ofile.go:55-58 | writes the eight bytes of the address and nothing else |
| Relocating.RelocateText | linker.go:325-340 | every code slot holds its displacement, every other byte is as it was |
| Relocating.RelocateData | linker.go:345-369 | every data slot holds its address, whatever the order of the map, and every other byte is as it was |
| Relocating.RelocateVar | linker.go:358-363 | every slot of one var holds its address, and every other byte is as it was |
| Relocating.OffsetLeadsToVA | linker.go:325-340 | the 32-bit offset used for code slots leads to the 64-bit address used for data slots |
| Objects.Gather | linker.go:144-178 | succeeds exactly if no two objects define the same function, datum or var and none with functions lacks a package; the tables then hold every definition under its qualified name, which `QualifiedSplits` takes apart |
| Objects.MergeFuncs | linker.go:149-161 | every function of an object, in any order, enters under its qualified name unless that is taken |
| Objects.MergeVars | linker.go:162-177 | so does every datum and var, its slots qualified |
| Objects.QualifyDataRelocs | linker.go:130-142 | bare targets get the package, qualified ones stay |
| Objects.QualifyingTwice | linker.go:130-142 | qualifying again changes nothing |
| Objects.SymbolFinds | linker.go:149-178 | in objects that do not clash a symbol with a package in front finds the function of that name in that package, exactly if there is one, and then that very function; and so with variables and constants |
| Objects.EntryIsStart | linker.go:193-199 | the entry point is there exactly if an object of package _init defines start, and is that function |
| Objects.EntryPlaced | linker.go:271-308 | the code of that start, but for its slots, comes first in the text |
| Objects.Link | linker.go:144-378 | objects that do not clash are linked as the program they make up, exactly if one of package _init defines start and nothing reachable refers to what does not exist; the code of start comes first |
| Resolving.Resolve | function.go:1090-1114 | every jump to a label of the function lands on it, the other jumps become relocations, bare targets getting the package and a dot in front, and no other byte changes |
| Resolving.PatchJumps | function.go:1094-1102 | the loop patches the jumps to known labels and hands on the others |
| Resolving.PatchLands | function.go:1090-1114 | the patched displacement leads from the end of the slot to the label |
| Executable.LinkExe | linker.go:74-87 | the file holds an image whose segments are the linked sections, and it loads as the linked binary |
| Executable.LoadedWhereLinked | linker.go:51-87 | each segment is loaded at the address it was linked for, in step with its file offset, and the entry point of the header is the entry function |
| Executable.Permissions | linker.go:51-72 | all segments may be read, only that of the variables written, and only that of the code run; the section flags say the same |
| Executable.LoadsAsLinked | linker.go:74-87 | read by the System V gABI, the file is an executable for the AMD64 that is loaded as the linked binary: its code, variables and constants, each at the address that it was linked for, with its permissions, and started at the entry function |
| Loading.LoadsSections | elf64.go:294-471 | the file of any sections at page boundaries loads as those of them that are loadable, each with its bytes, address and permissions, and nothing else |
| Loading.SegmentRead | elf64.go:343-362 | the program header of a loadable section reads as its segment, with the alignment that the gABI asks for |
| Encoder.EncodeForm | encoder.go:1031-1125 | a form is encoded by the first of its encodings that succeeds, behind what those before it began; it fails exactly if all fail or a high byte register meets a prefix in any |
| Encoder.EncodeParts | encoder.go:1107-1125 | the parts of one encoding are written one after another, up to the first that fails |
| Encoder.NothingTakenBack | encoder.go:1107-1125 | the bytes of a form are those of the encoding that succeeded exactly if none before it had begun |
| Encoder.PrefixStays | encoder.go:1107-1125 | a prefix of an encoding that fails stays before the opcode of the next |
| Encoder.EncodeRex | encoder.go:219-247 | the prefix is written as specified; `Decoding.PrefixBits` and `Decoding.PrefixPresent` say what it means |
| Encoder.EncodeModRM | encoder.go:488-675 | ModRM, SIB, displacement and relocation are written as specified, and nothing on an error |
| Encoder.EncodePart | encoder.go:1031-1135 | one part is written as specified |
| Decoding.PrefixBits | encoder.go:219-247 | the four bits read from the prefix (Intel SDM, volume 2A, section 2.2.1.2) are the operand size asked for and the high bits of the registers in its fields |
| Decoding.BarePrefixBits | encoder.go:219-227 | without operands there is always a prefix, and it has the operand size asked for and no other bit |
| Decoding.PrefixPresent | encoder.go:230-246 | there is a prefix exactly if the form demands one or an operand is a register that three bits do not name |
| Decoding.NeedsPrefix | reg.go:412-436 | the registers that need a prefix are those that three bits without one do not name |
| Decoding.BaseRecovered | encoder.go:488-600 | a decoder of the Intel SDM (volume 2A, sections 2.1.5 and 2.2.1.2) recovers register, base and displacement of every `[base + off]`, whatever follows |
| Decoding.GlobalRecovered | encoder.go:488-600 | of a RIP-relative operand it recovers the displacement, and the relocation is for exactly those four bytes |
| Decoding.IndexRecovered | encoder.go:421-443 | of `[base + index * scale]` it recovers base, index and scale exactly if the index is not RSP |
| Decoding.RegistersRecovered | encoder.go:445-462 | of two registers it recovers both numbers |
| Decoding.NameRecovered | reg.go:412-536 | number, width and prefix name the same register again, exactly unless it is AH, BH, CH or DH under a prefix |
| Decoding.NamesRecovered | encoder.go:1031-1070 | in the forms that are not refused the number of an operand names it again exactly at its own width |
| Decoding.RelocationSurvives | encoder.go:1031-1135 | a form hands on the relocation of its global operand exactly if nothing follows the ModRM part |
| FormDecoding.FormRecovered | encoder.go:1031-1135 | of a whole form with a ModRM part, whatever precedes and follows it, a decoder of the Intel SDM (volume 2A, section 2.1) recovers legacy prefixes, the REX prefix, there exactly if it is needed and with the operand size asked for, opcode, both operands or the opcode extension, and immediate; read at the width that it derives from the prefixes, or that the opcode fixes, each register operand is named exactly if that is its width, unless the form is refused, as it is exactly for AH, BH, CH or DH beside a REX prefix |
| FormDecoding.FormIs | encoder.go:1031-1135 | the bytes of such a form are those of its parts, one after another |
| FormDecoding.PlainRecovered | encoder.go:464-486 | so of a whole form without a ModRM part, with operands or none: prefixes, operand size, opcode and immediate, and a register in the last three bits of the opcode |
| TypeInfo.RoundTrip | typeinfo.go:167-210 | a record that was encoded decodes to itself, for any number of methods, names and slot masks below 4 GiB |
| TypeInfo.Encode | typeinfo.go:111-165 | every word of the backpatched record is in its place, then the names, then the masks |
| TypeInfo.Table | typeinfo.go:120-148 | the head and every entry are in place, all mask offsets still zero, and the names follow in order |
| TypeInfo.PatchMasks | typeinfo.go:149-159 | every entry holds its own mask offset, and the masks follow in order |
| TypeInfo.DecodeRecord | typeinfo.go:167-210 | the loop reads the entries that lie in the record |
| TypeInfo.MasksRead | typeinfo.go:81-110 | a mask offset is zero exactly if there are no masks, and the masks read back |
| TypeInfo.DecodeSlotMasks | typeinfo.go:92-109 | reads the masks at an offset, or none if they do not fit |
| TypeInfo.EncodeSlotMasks | typeinfo.go:81-90 | a count and the masks |
| Shape.WordGivesStack | cmd/bosc/shape.go:129-155 | a word decodes to the stack it was made of, though its count field may have wrapped |
| Shape.EqualWordsEqualShapes | cmd/bosc/shape.go:68-155 | types with equal words have the same constructors, in the same order and with the same array lengths |
| Shape.CountWraps | cmd/bosc/shape.go:129-155 | one level and seventeen levels have the same count field |
| Shape.MangleRoundTrip | cmd/bosc/shape.go:169-193 | a mangled stack is uniquely decodable |
| Shape.ShapeStackFor | cmd/bosc/shape.go:68-127 | the loop finds the constructors from the outside in |
| Shape.ShapeWordFor | cmd/bosc/shape.go:129-155 | the loop packs kinds and payloads bit by bit |
| Shape.ShapeMangle | cmd/bosc/shape.go:169-193 | the loop writes a letter and, for arrays, a length for each level |
| Elf.WriteElf | elf64.go:294-471 | succeeds exactly if the section count fits 16 bits; the file then has all headers where its first header says, as many as it says, every section's bytes at its offset, and every name and symbol in its table |
| Elf.Sections | elf64.go:322-384 | the loop lays out headers, names and symbols of the program's sections |
| Elf.AddSymbols | elf64.go:364-380 | each symbol of a section is listed with its name, section and address |
| Elf.LastHeaders | elf64.go:386-413 | the headers of the symbol table, the string table and the table of section names |
| Elf.WriteHeaders | elf64.go:423-440 | the headers are where the first one says |
| Elf.WriteContents | elf64.go:442-454 | fails exactly on a section count that does not fit; otherwise each section's bytes are at the offset in its header and no header is overwritten |
| Elf.HeadersBelowContents | elf64.go:318-322 | the headers end before the first contents exactly if their number fits 16 bits |
| Elf.HeaderReadsBack | elf64.go:294-322 | read from the bytes of the file: entry, table offsets, and the numbers of headers, which are those there are |
| Elf.SectionHeaderReadsBack | elf64.go:430-440 | read from the file at the table offset, each section header is the one laid out |
| Elf.ProgramHeaderReadsBack | elf64.go:423-430 | read from the file, the program header of each loadable section has its flags, offset, address and size |
| Elf.SymbolReadsBack | elf64.go:364-380 | read from the symbol table, each symbol has its name, kind, section index, address and size |
| Elf.WriteExtra | elf64.go:467-469 | and so are the three tables |
| Elf.RegionsDisjoint | elf64.go:320-420 | sections and tables follow each other without overlap, and all headers lie before them exactly if their number fits 16 bits |
| Elf.SegmentCongruent | elf64.go:320-380 | for sections at page boundaries, offset and address agree modulo 0x1000 (System V gABI, Program Header) |
| Elf.NameReadBack | elf64.go:280-290 | the offset of a name reads back as that name |
| Elf.StrTab.StrOff | elf64.go:280-290 | the offset of a known or new name, older names staying where they are |
| Elf.File.WriteSection | elf64.go:473-485 | fails exactly if the padding would be negative; otherwise the data lands at its offset |
| Codecs.MapReadsBack | bwrite.go:331-360 | a written map, in any order and followed by anything, reads back exactly if its records are filed under their names |
| Codecs.SortedIsUnique | bwrite.go:661-666 | there is one sorted order of a set of names |
| Codecs.List | bwrite.go:195-206 | lists of values that read back read back |
| Codecs.Pair | bwrite.go:251-275 | and so do records of such values |
| Codecs.Int64 | bwrite.go:251-275 | signed 64-bit numbers read back |
| Codecs.Int32 | bwrite.go:302-329 | signed 32-bit numbers read back |
| Codecs.Uint32 | bwrite.go:251-329 | unsigned 32-bit numbers read back |
| Codecs.Size | bwrite.go:15-33 | sizes read back, negative ones being refused when written and large ones when read |
| ObjectFormat.Functions | bwrite.go:362-556 | what is laid out in the format of a function, followed by anything, reads back and leaves what follows |
| ObjectFormat.Vars | bwrite.go:181-249 | what is laid out in the format of a var, followed by anything, reads back and leaves what follows |
| ObjectFormat.Interfaces | bwrite.go:814-947 | what is laid out in the format of an interface, followed by anything, reads back and leaves what follows |
| ObjectFormat.ValuesTypes | bwrite.go:949-1069 | what is laid out in the format of a values type, followed by anything, reads back and leaves what follows |
| ObjectFormat.TypeDescrs | bwrite.go:97-148 | what is laid out in the format of a type descriptor, followed by anything, reads back and leaves what follows |
| ObjectFormat.Structs | bwrite.go:657-744 | what is laid out in the format of a struct, followed by anything, reads back and leaves what follows |
| ObjectFormat.TypeAliases | bwrite.go:746-812 | what is laid out in the format of a type alias, followed by anything, reads back and leaves what follows |
| ObjectFormat.DataRelocs | bwrite.go:251-275 | what is laid out in the format of a data relocation, followed by anything, reads back and leaves what follows |
| ObjectFormat.Relocations | bwrite.go:302-329 | what is laid out in the format of a code relocation, followed by anything, reads back and leaves what follows |
| ObjectFormat.Symbols | bwrite.go:277-300 | what is laid out in the format of a symbol, followed by anything, reads back and leaves what follows |
| ObjectFormat.OFileReadsBack | bwrite.go:558-655 | an object file in the format, followed by anything, reads back as the same file and leaves what follows, whatever the order in which its maps were iterated, exactly if every record is filed under its own name |
| ObjectFormat.ImportBytesAlike | bwrite.go:657-696 | the sorted maps are the same bytes every time |
| ObjectStream.Admitted | bwrite.go:15-64 | what can be written: every length fits an int, and no size is negative |
| ObjectStream.Stream.WriteFunction | bwrite.go:362-450 | writes the fields one by one, loops included: succeeds exactly if the record can be written, and has then appended its bytes |
| ObjectStream.Stream.ReadFunction | bwrite.go:452-556 | reads the fields one by one, loops included: fails exactly if no record stands there, and otherwise takes it off the front |
| ObjectStream.Stream.WriteVar | bwrite.go:181-209 | writes the fields one by one, loops included: succeeds exactly if the record can be written, and has then appended its bytes |
| ObjectStream.Stream.ReadVar | bwrite.go:211-249 | reads the fields one by one, loops included: fails exactly if no record stands there, and otherwise takes it off the front |
| ObjectStream.Stream.WriteTypeDescr | bwrite.go:97-119 | writes the fields one by one, loops included: succeeds exactly if the record can be written, and has then appended its bytes |
| ObjectStream.Stream.ReadTypeDescr | bwrite.go:121-148 | reads the fields one by one, loops included: fails exactly if no record stands there, and otherwise takes it off the front |
| ObjectStream.Stream.WriteDataReloc | bwrite.go:251-259 | writes the fields one by one: succeeds exactly if the record can be written, and has then appended its bytes |
| ObjectStream.Stream.ReadDataReloc | bwrite.go:261-275 | reads the fields one by one: fails exactly if no record stands there, and otherwise takes it off the front |
| ObjectStream.Stream.WriteSymbol | bwrite.go:277-287 | writes the fields one by one: succeeds exactly if the record can be written, and has then appended its bytes |
| ObjectStream.Stream.ReadSymbol | bwrite.go:289-300 | reads the fields one by one: fails exactly if no record stands there, and otherwise takes it off the front |
| ObjectStream.Stream.WriteRelocation | bwrite.go:302-313 | writes the fields one by one: succeeds exactly if the record can be written, and has then appended its bytes |
| ObjectStream.Stream.ReadRelocation | bwrite.go:315-329 | reads the fields one by one: fails exactly if no record stands there, and otherwise takes it off the front |
| ObjectStream.Stream.WriteStruct | bwrite.go:668-693 | writes the fields one by one, loops included: succeeds exactly if the record can be written, and has then appended its bytes |
| ObjectStream.Stream.ReadStruct | bwrite.go:705-741 | reads the fields one by one, loops included: fails exactly if no record stands there, and otherwise takes it off the front |
| ObjectStream.Stream.WriteTypeAlias | bwrite.go:757-773 | writes the fields one by one, loops included: succeeds exactly if the record can be written, and has then appended its bytes |
| ObjectStream.Stream.ReadTypeAlias | bwrite.go:785-809 | reads the fields one by one, loops included: fails exactly if no record stands there, and otherwise takes it off the front |
| ObjectStream.Stream.WriteInterface | bwrite.go:825-867 | writes the fields one by one, loops included: succeeds exactly if the record can be written, and has then appended its bytes |
| ObjectStream.Stream.ReadInterface | bwrite.go:879-944 | reads the fields one by one, loops included: fails exactly if no record stands there, and otherwise takes it off the front |
| ObjectStream.Stream.WriteValues | bwrite.go:960-995 | writes the fields one by one, loops included: succeeds exactly if the record can be written, and has then appended its bytes |
| ObjectStream.Stream.ReadValues | bwrite.go:1007-1066 | reads the fields one by one, loops included: fails exactly if no record stands there, and otherwise takes it off the front |
| ObjectStream.Stream.WriteFunctions | bwrite.go:331-344 | the loop writes each record of the map once, in any order |
| ObjectStream.Stream.ReadFunctions | bwrite.go:346-360 | the loop fills a map with the records that follow |
| ObjectStream.Stream.WriteVars | bwrite.go:150-163 | the loop writes each record of the map once, in any order |
| ObjectStream.Stream.ReadVars | bwrite.go:165-179 | the loop fills a map with the records that follow |
| ObjectStream.Stream.WriteTypeDescrs | bwrite.go:66-79 | the loop writes each record of the map once, in any order |
| ObjectStream.Stream.ReadTypeDescrs | bwrite.go:81-95 | the loop fills a map with the records that follow |
| ObjectStream.Stream.WriteStructs | bwrite.go:657-696 | the loop writes each record of the map once, by name |
| ObjectStream.Stream.ReadStructs | bwrite.go:698-744 | the loop fills a map with the records that follow |
| ObjectStream.Stream.WriteTypeAliases | bwrite.go:746-776 | the loop writes each record of the map once, by name |
| ObjectStream.Stream.ReadTypeAliases | bwrite.go:778-812 | the loop fills a map with the records that follow |
| ObjectStream.Stream.WriteInterfaces | bwrite.go:814-870 | the loop writes each record of the map once, by name |
| ObjectStream.Stream.ReadInterfaces | bwrite.go:872-947 | the loop fills a map with the records that follow |
| ObjectStream.Stream.WriteValuesTypes | bwrite.go:949-998 | the loop writes each record of the map once, by name |
| ObjectStream.Stream.ReadValuesTypes | bwrite.go:1000-1069 | the loop fills a map with the records that follow |
| ObjectStream.Stream.WriteOFile | bwrite.go:558-600 | succeeds exactly if no size is negative or too large, and then appends the file's bytes |
| ObjectStream.Stream.ReadOFile | bwrite.go:602-655 | reads what the format says and leaves the rest |
| ObjectStream.Sort | bwrite.go:661-666 | the names in byte-wise order |
| StaticInit.EmittedIsSound | cmd/bosc/globals.go:116-169 | everything emitted has exactly the size of its type, with 8-byte slots inside it and apart; so have all the anonymous globals it queues, exactly if the initialiser holds no empty list |
| StaticInit.EmptyListSpoils | cmd/bosc/globals.go:322-350 | an initialiser that is encoded and holds an empty list, at any depth, queues a global that is too short |
| StaticInit.EncodeIsGood | cmd/bosc/globals.go:116-169 | and so has the encoding of every nested struct, array, slice, pointer, interface and literal |
| StaticInit.MemberPlaced | cmd/bosc/globals.go:388-440 | at a field's byte offset are that field's own encoding and slots, or zeros where it is not given |
| StaticInit.ElementPlaced | cmd/bosc/globals.go:352-386 | at each element's offset are its own encoding and slots |
| StaticInitMeaning.EncodedReads | cmd/bosc/globals.go:116-169 | whatever is encoded reads as the constant: numbers modulo the width of their type, in two's complement, strings and byte arrays with their zeros behind, slices as an address of a global that reads as the elements and their number, addresses as the symbol and the index times the element size, interfaces as the data and the vtable, structs member by member, zero where not given |
| StaticInitMeaning.EncodedExactly | cmd/bosc/globals.go:116-169 | a constant is encoded exactly if it is one for the type, whatever is queued, and in as many bytes as it takes there |
| StaticInitMeaning.EmittedReads | cmd/bosc/globals.go:26-79 | a global is emitted exactly if its initialiser is one for its type and as long, and what is emitted reads as the initialiser |
| StaticInit.EmptySliceIsDishonest | cmd/bosc/globals.go:322-350 | the empty slice literal of any element type is emitted with a backing that has fewer bytes than its declared type |
| StaticInit.Context.EncodeStaticInit | cmd/bosc/globals.go:116-169 | the payload and the queued globals are those of the encoding function, which `EncodedReads` reads back |
| StaticInit.Context.AddAnonGlobal | cmd/bosc/ast.go:299-312 | a queued payload gets a symbol of its own |
| StaticInit.Context.EncodeArrayLiteral | cmd/bosc/globals.go:322-350 | an array in place, or a slice header that leads to its queued backing |
| StaticInit.Context.EncodeStructLiteral | cmd/bosc/globals.go:388-440 | a literal of the destination's own type, without a field twice or unknown |
| StaticInit.Context.EncodePointerData | cmd/bosc/globals.go:288-320 | what an interface points to |
| StaticInit.Context.EncodeFields | cmd/bosc/globals.go:388-440 | the loop over the members, deleting from the map of given fields, is that of the encoding function |
| StaticInit.Context.EncodeArrayContent | cmd/bosc/globals.go:352-386 | the loop over the elements is that of the encoding function |
| StaticInit.Context.EncodeAddressBytes | cmd/bosc/globals.go:219-320 | the address of a global, a string or a queued literal |
| StaticInit.Context.EmitGlobal | cmd/bosc/globals.go:26-79 | the payload and the queued globals are those that `EmittedReads` reads back, and one of the wrong size is refused |
| StringLiteral.LiteralRoundTrip | cmd/bosc/globals.go:471-486 | the assembler reads a literal that the compiler wrote as the same bytes, for every byte sequence |
| StringLiteral.ParsesExactly | cmd/bas/main.go:1534-1585 | the assembler reads exactly the texts between quotes that spell bytes, each as itself, by an escape letter or by two hexadecimal digits, as these bytes, and refuses all others |
| StringLiteral.BytesToBasStringLiteral | cmd/bosc/globals.go:471-486 | the loop escapes each byte |
| StringLiteral.ParseString | cmd/bas/main.go:1534-1585 | the loop reads up to the closing quote, refusing unknown escapes and what has no end |
| Types.AcceptsReflexive | cmd/bosc/ast.go:1910-1922 | every concrete type accepts itself |
| Types.AcceptsTransitive | cmd/bosc/ast.go:1910-1922 | acceptance is transitive, through nested elements, fields and signatures |
| TypePaths.AcceptsExactly | cmd/bosc/ast.go:1839-1922 | a type accepts a concrete one exactly if along all paths through elements and fields it is the same kind of thing with nothing more to be written and nothing less that may be null, and, if it owns something, exactly the same is owned along all paths, signatures included |
| TypePaths.SameIsEqual | cmd/bosc/ast.go:1609-1664 | types are the same exactly if they agree in everything, so that only the type of an integer literal is taken for one |
| TypePaths.LiteralsFlow | cmd/bosc/ast.go:1967-1998 | integer literals, alone or in lists of any depth, flow into a type of those lengths, which they take on, exactly if what it holds is no values type |
| Types.AcceptsGainsNothing | cmd/bosc/ast.go:1839-1900 | nothing that an accepted value consists of, through elements and fields to any depth, gains a write-through bit, loses a nullable bit or gains an owned bit |
| Types.ChainGainsNothing | cmd/bosc/ast.go:1768-1922 | any chain of acceptances is one acceptance, and gains nothing either |
| Types.SignatureIgnored | cmd/bosc/ast.go:1768-1812 | a destination that owns nothing accepts a function pointer whatever its signature |
| Types.AcceptsOtherSignature | cmd/bosc/ast.go:1768-1812 | pointers to functions of one and of two arguments accept each other |
| Types.SignatureComparedIfOwned | cmd/bosc/ast.go:1768-1812 | a function pointer type accepts only its own arguments and results, up to qualifiers other than ownership, exactly if it owns something |
| Types.OwnershipNeverGained | cmd/bosc/ast.go:1768-1922 | ownership is never gained, along no path, arguments and results of signatures included |
| Types.NothingGainedInsideSignatures | cmd/bosc/ast.go:1768-1922 | whatever a type accepts, nothing is gained along paths into signatures either, exactly if the type holds no function pointer |
| Types.OwnedSignatureGains | cmd/bosc/ast.go:1839-1900 | owned function pointers whose result becomes writable, whose argument becomes read-only, and whose result loses its nullable bit |
| Types.CoercionAccepts | cmd/bosc/ast.go:1967-1998 | off arrays, implicit coercion succeeds exactly where the type is accepted |
| Types.NilFlows | cmd/bosc/ast.go:1910-1922 | nil flows exactly where the same pointer flows that may be null, becomes one of the destination's type, and flows on wherever that does |
| Types.ArrayQualifiersIgnored | cmd/bosc/ast.go:1984-1996 | arrays of one length whose elements coerce are coerced whatever the name, pointer levels and mut, owned and nullable bits of the destination |
| Types.CoercionGainsNothing | cmd/bosc/ast.go:1967-1998 | a coercion gains nothing exactly if no array level that is not accepted as it is gains a qualifier |
| Types.ArrayCoercesToPointer | cmd/bosc/ast.go:1984-1996 | an array is coerced to a writable pointer to such an array, which does not accept it and gains a write-through bit |

## Left out

Where a statement is narrower than the source:

- OwnershipSoundness.AcceptedIsSafe: leaves out nullable owned bindings, null facts, owned fields and borrows; the source accepts any two states of a nullable binding at a join, so the claim would be false of them.
- OwnershipSoundness.AcceptedSourceIsSafe: parsed `continue` statements carry no step.
- OwnershipLeaks.TakenExactlyOnce: is for bodies without loops; HeldOrTakenExactly is for those with loops.
- OwnershipExact.CheckSettlesRuns: is for statements without loops; RunMatches is for those with loops.
- OwnershipAcceptance.AcceptedExactly: declarations stand in blocks, not as the arm of an `if`, the body of a loop or the step of a `for`, and control gets past each step; elsewhere what is accepted depends on the order of the text, and `OwnershipLimits` shows what comes of it.
- OwnershipAcceptance.SourceAcceptedExactly: as for AcceptedExactly.
- OwnershipLoops.HeldOrTakenExactly: as for AcceptedExactly.
- OwnershipLoops.SourceHeldOrTaken: as for AcceptedExactly.
- Objects.SymbolFinds: package names have no dot in them.
- AllocationVolatile.VolatileStaysInSlot: in the order of the text; a pointer that comes round a loop before the place where its address is taken may not be written through there.
- AllocationJumps.PathRefines: control moves from one allocator operation to the next; `CodePositions` has the bytes.
- CodePositions.TakenJumpLands: instruction lengths are a parameter; calls, which have no label in the function, are not among its jumps.
- AllocationLabels.JumpKeepsExactly: for Register where it does not panic, and for UseRegister with registers that it can clear.
- Encoder.EncodeForm: what is left in the output after a failure is only stated for one encoding.
- Lowering.LowerPreservesRuns: a `continue` inside a type switch, which the rewriting does not enter, is outside the modelled language.
- AllocationRuns.RunRefines: variables never live in AH, BH, CH or DH (LoadClearsBrother says why), RBP is not given away, and frame offsets stay below 2 GiB.
- AllocationRefinement.UseRegisterGood: the register asked for is none of AH, BH, CH, DH and RBP and shares bits with none that is held by hand but itself (UseRegisterExactly says why); the address of a byte area goes into a 64-bit register.
- AllocationInvariant.UseRegisterKeeps: the register asked for shares bits with none that is held by hand but itself; UseRegisterExactly has the other direction.
- Allocator.Ralloc.UseRegister: as for `UseRegisterKeeps`.
- RegisterFile.RegisterBits.Release: the register is held; releasing another one would clear the bit of a full register whose part is in use.
- RegisterFile.RegisterBits.Get: sizes are 8, 16, 32 and 64 bits; for others the source may hand out R8 to R15 in full and records a size that no register has.
- Allocator.Rallocs.Evict: sizes as for `Get`.
- Allocator.Rallocs.NewLocal: sizes as for `Get`; a variable of another size could not be brought into a register.
- AllocationInvariant.EvictForSucceeds: sizes beyond 8 bits; RegisterSucceeds is for bytes, too.
- Frame.CalleeSavedRestored: the frame reservation does not run off the bottom of the address space; nothing is said about 16-byte alignment at calls.
- Linking.LinkProgram: sections stay below 4 GiB, and the slots of each function or variable lie inside it and apart; overlapping or outlying slots overwrite each other or panic in the source.
- Executable.LinkExe: as for `LinkProgram`.
- Objects.Link: as for `LinkProgram`; functions carry the package of the object they come from, as the reader stamps them.
- Decoding.BaseRecovered: base and index are 64-bit registers and displacements fit 32 bits, as the operand types of the source have it.
- TypeInfo.RoundTrip: records of 4 GiB or more, whose offsets would wrap.
- TypeInfo.DecodeRecord: corrupt records in which 64-bit sums wrap.
- TypeInfo.DecodeSlotMasks: offsets and counts of which 64-bit sums wrap.
- StaticInit.EmittedIsSound: values types and the names given to string constants and queued globals are not modelled; integer literals wrap to the width of their type as in the source.
- ObjectFormat.OFileReadsBack: nil and empty lists are one value, and a function's body is taken as resolved.
- Types.AcceptsTransitive: untyped integer and nil literals are not destinations.
- Loading.LoadsSections: sections start at page boundaries, and addresses and offsets are numbers of 64 bits, as those of a linked binary are.
- Elf.WriteElf: section sizes are unbounded integers; the file is a byte sequence.
- Elf.HeaderReadsBack: for a file whose section table starts below 2^64; the other reading lemmas are likewise for numbers that fit their fields.
- FormDecoding.FormRecovered: not forms with VEX prefixes or without a REX part.
- FormDecoding.PlainRecovered: the fields of a REX part are registers; not forms with code or data offsets.

Not modelled at all:

- The instruction tables, the choice of a form, conversion of variables into operands, immediates and code offsets: x86_64.xml is not part of this model, and forms are parameters of the encoder.
- `takeoverRegister` (not called), `RallocPartial`, `ForgetAll`, and the choice of argument registers in `ArgI`.
- Functions whose bodies were read from an object file and are linked without resolving.
- Pointer flow, alias inference, borrow contracts, the Boson parser and the printing of types.
- Mach-O output, file input and output, logging, error texts, the documentation server and the other commands.
- `unparseString`, which does not escape backslashes and tabs.
