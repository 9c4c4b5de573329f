# bpf-tv: the lifter and the passes around it

bpf-tv lifts BPF machine code back to LLVM IR, so that a refinement checker can compare it with the
source it was compiled from. Everything the comparison concludes rests on the lifter and on the passes that
reshape the two sides, and those are trusted. This project models them and proves where they keep meaning and where they do not.
Two references are followed: RFC 9669 for the BPF instruction set, and LLVM's rules for undefined
behaviour of the IR instructions the lifter emits.

## What is modelled

**The lifter as a compiler.** `Bpf.dfy` is a flat BPF machine as RFC 9669 describes it: a program counter in
8-byte units, registers, byte memory, helper calls answered by an oracle. `Ir.dfy` is the block-structured IR with an
interpreter that is stuck wherever LLVM would have undefined behaviour, alignment aside (a zero divisor, the overflowing
signed division, a shift by too much, a value that was not computed, a block left open). `BytesMode.dfy`
decodes, sign-extends, resolves branches and cuts blocks in place; `McFunction.dfy` is the machine function that grows and
gets its entry block and successors; `Lifter.dfy` is the single-pass emitter, a class whose current block
moves while division diamonds are opened and closed. `Codegen.dfy`, `Emission.dfy` and `Lifting.dfy` say as
functions what code each instruction gets, and the emitter's methods are proved to append exactly that.
`ArithmeticLaws.dfy` says what the machine's operations mean in integers and single bits.
`Numbering.dfy` and `Ssa.dfy` show that the function so built is in static single-assignment form. `Theorem.dfy` holds the
results about runs: the lifted function and the machine do the same, in both directions.

**The scratch bytes.** Unspecified values (junk above sub-word arguments, registers a call clobbers) are loads from one constant
global, each use at bytes of its own. `Scratch.dfy` and `Realization.dfy` show that one content of the global realises
any choice of one value for each site, which is what lets the main theorem quantify over every clobber.

**The per-object stack split.** `Slots.dfy` is the slot list; `SplitPass.dfy` the two mutually recursive classifiers and
their plans; `SplitObjects.dfy` the objects that a rewrite makes, one for each slot that some plan refers to; `SplitTheorem.dfy` the
rewrite. `FrameCode.dfy` gives meaning to frame code in two memories, with the frame as one block and with those slots as
objects of their own, and the proof is a memory injection: byte j of slot s is byte 1024 + offset + j of the frame. A slot that no plan
refers to stays part of the frame. `SplitSafety.dfy` gives, for a function and a slot list alone, what the pass will follow and replace, and the
condition under which it misses nothing. `SplitLimits.dfy` holds the functions that the pass changes the meaning of.

**Lazy globals.** `Globals.dfy` and `GlobalLifter.dfy` are the worklist that lifts a global on demand and breaks reference
cycles with placeholders; `GlobalsProofs.dfy` and `GlobalLookup.dfy` its invariant and its termination measure, for data
spelled as lookups spell it; `GlobalAliases.dfy` when its loop ends, for data spelled in any way.

**The ABI boundary.** `Abi.dfy` (widening), `TypedCalls.dfy` (calls with a known signature) and `Returns.dfy` (how the source's return
is adjusted, and what the lifted side takes out of r0).

**Text mode.** `TextMode.dfy` is the state machine of the assembly parser's callbacks; `TextProofs.dfy` says what it makes of a sequence of
events, and `FrontEnds.dfy` that text mode and bytes mode cut a program into the same blocks.

**Round trips.** `RoundTrips.dfy` is the collapse of pointer-to-integer round trips into one address computation.

Conventions: values are natural numbers below a power of two, with truncation, sign extension and wrap-around
written out (`Words.dfy`); signed division truncates (RFC 9669, section 4.1); memory is one flat 64-bit byte memory, with
register cells and division results out of its reach. Helper behaviour and clobbered values are parameters of every run (`Oracle`,
`Surroundings`), so every result holds for all of them.

## Findings

- A program whose last instruction is not a terminator: the machine runs off the end, the lifted code returns r0
  (`WholeProgram.OffEndReturns`). A conditional branch in last place: untaken it runs off the end, the lifted code
  goes to the target (`WholeProgram.BranchMatched`). The main theorem is about runs that stay in the program, and
  `Theorem.FallsOffExactly` says which steps do not.
- The stack split can change the meaning of a function, in three ways; the pass accepts and rewrites a function for each
  (`SplitLimits.SplitMissed`, `SplitLimits.SplitEscaped`, `SplitLimits.SplitStraddled`).
  A pointer outside all slots that is stored through itself is accepted, since the store is recognised by its pointer operand before its
  value is looked at (src/bpf-tv.cpp:474-478): read back and moved into a slot, it reads 7 in the original and, after the split, a byte of
  the frame that is never written (`SplitLimits.MissedStoreBreaksSplit`). A call may be handed the block's own address when a slot starts at
  byte 0 (src/bpf-tv.cpp:479-480): the callee then sees 7 in the original and, after the split, a byte that is never written
  (`SplitLimits.EscapedBlockBreaksSplit`). Of a load or store at a constant offset only the first byte is looked up
  (src/bpf-tv.cpp:469-478): one that begins below a slot and reaches into it reads the 7 in the original and, after the
  split, bytes that are never written (`SplitLimits.StraddlingAccessBreaksSplit`).
  Within the model these are all: `SplitSafety.SafeToSplit` is a condition on the function and the slots alone that an accepted function meets if and only if it
  has none of the three (`SplitSafety.SafeIsExact`), and then it keeps its meaning (`SplitTheorem.SafeRunsAlike`), up to going out of bounds of
  an object and to what "Left out" names under `SplitTheorem.RewrittenRunsAlike`. No run of an accepted function gets past a missed access or a
  missed call (`SplitTheorem.MissedUseStops`). A pointer stored through itself and never read back does no harm, so for that use the condition is
  sufficient only.
- A global that refers to itself is lifted twice; the first request for it returns a handle that later
  requests do not, so one symbol has two addresses (`GlobalLifters.GlobalLifter.LookupGlobal`, last clause). For every other symbol
  there is one object.
- Data is searched for as spelled while the queue and the table hold demangled names, so a reference by another spelling than the
  symbol's own is deferred at every lifting. When demangling twice is demangling once, the loop empties its queue if and only if the
  request reaches no cycle of such references and no symbol that does not resolve; it runs for ever if and only if it reaches such a cycle and
  every symbol resolves (`GlobalAliases.LoopEndsExactly`). The shortest cycle is a symbol that refers to itself through an alias
  (`GlobalAliases.AliasedRequestLoops`, `GlobalLookup.AliasedSelfReferenceNeverEnds`).
- A recorded global gets a section other than its symbol's own if and only if a label in a debug section comes after the symbol's label and
  before the event that records the data (`TextProofs.SectionsExactly`); constant data is then not constant
  (`TextProofs.DebugLabelMisplacesData`).
- Returns with a sign- or zero-extension attribute on a type of at most 32 bits agree on the low 32 bits of r0 only
  (`Returns.ValuesAgree`): the upper half is never compared.

## Model

| member | source | states |
|---|---|---|
| Theorem.ReturnsExactlyWhenExits | src/lifter/bpf2llvm.cpp:580-1380 | for every accepted program that ends in an exit or a jump, every entry state and every helper and clobber behaviour: the lifted function returns a value with a memory and a call trace if and only if the flat machine exits with them, and it is never stuck |
| Theorem.LiftedFollowsMachine | src/lifter/mc2llvm.cpp:704-788 | forward simulation over whole runs: after any number of machine steps that stay in the program, the lifted code is in the corresponding state after some number of its own steps |
| Theorem.MachineFollowsLifted | src/lifter/mc2llvm.cpp:704-788 | backward: a lifted function that has finished has returned what the machine exits with, and was never stuck |
| Theorem.FallsOffExactly | src/lifter/mc2llvm.cpp:774-787 | a step leaves the instruction stream if and only if it falls through the last instruction |
| Theorem.ClosedProgramStaysIn | src/lifter/mc2llvm.cpp:774-787 | a program ending in an exit or an unconditional jump never runs off its end |
| Theorem.SurroundingsRealise | src/lifter/bpf2llvm.cpp:151-174 | one content of the constant global gives every register, every argument and every call the unspecified values chosen for it |
| Theorem.EveryEntry | src/lifter/bpf2llvm.cpp:206-247 | any arguments, junk bits, other registers, frame address and memory form an entry state the results speak about |
| Theorem.ExitIsAccepted | src/lifter/bpf2llvm.cpp:580-748 | the one-instruction program that exits is accepted |
| BytesMode.RunBytes | src/lifter/bpf2llvm.cpp:580-748 | decoded bytecode is refused for, in this order, a call with source field 1, no instruction, a branch to no instruction's start, more than five arguments, and else the first instruction that is not supported or calls a helper whose number is negative as a signed 32-bit number; nothing else is refused, and what is not is lifted to the function the theorem is about |
| BytesMode.VerdictMeans | src/lifter/bpf2llvm.cpp:580-748 | the verdict against a program, in terms of the fields of its instructions |
| BytesMode.NotRefusedIsAccepted | src/lifter/bpf2llvm.cpp:580-748 | every program that is not refused meets the theorem's conditions |
| BytesMode.Decode | src/lifter/bpf2llvm.cpp:597-619 | each instruction is indexed under its 8-byte unit; a local call is found if and only if there is one |
| BytesMode.ExtendFields | src/lifter/bpf2llvm.cpp:625-687 | in place, every immediate and offset field is sign-extended from its encoded width, the 64-bit immediate left alone |
| BytesMode.FindLeaders | src/lifter/bpf2llvm.cpp:689-709 | the leaders are the entry, the branch targets and what follows a terminator |
| BytesMode.ResolveBranches | src/lifter/bpf2llvm.cpp:714-730 | in place, each branch gets the label of its target unit; it succeeds if and only if every target is an instruction boundary |
| BytesMode.CutBlocks | src/lifter/bpf2llvm.cpp:732-741 | the blocks are those cut at the leaders |
| BytesMode.BuildGraph | src/lifter/bpf2llvm.cpp:743-745 | after empty blocks are dropped, the entry block added and successors filled in, the machine function is the control-flow graph |
| Cfg.CutConcatenates | src/lifter/bpf2llvm.cpp:731-741 | the blocks concatenate back to the instruction stream |
| Cfg.BlockIsRange | src/lifter/bpf2llvm.cpp:731-741 | each block is the stretch between two consecutive starts, named after its first unit |
| Cfg.StartIffLeader | src/lifter/bpf2llvm.cpp:735-741 | an instruction starts a block if and only if it is first or a leader |
| Cfg.TargetStartsBlock | src/lifter/bpf2llvm.cpp:138-150 | every accepted target is the first instruction of its block, the branch carries that block's label, and the label finds that block |
| Cfg.LabelNamesDistinct | src/lifter/bpf2llvm.cpp:131-133 | labels of distinct units differ, and none is the entry block's name |
| Cfg.GraphNext | src/lifter/bpf2llvm.cpp:731-741 | the instruction after k is next in the same block, or first in the next block exactly when it is a leader |
| Cfg.GraphInsnAt | src/lifter/bpf2llvm.cpp:731-741 | every instruction is in the graph at its block and index |
| McFunctions.McFunction.CheckEntryBlock | src/lifter/streamerwrapper.cpp:11-24 | a block that no label can name goes in front, with a jump to the next |
| McFunctions.McFunction.GenerateSuccessors | src/lifter/streamerwrapper.cpp:143-188 | successor sets are filled in for every block, from its last instruction and the block names |
| McFunctions.McFunction.RemoveEmptyBlocks | src/lifter/streamerwrapper.h:284-287 | blocks without instructions are dropped, the others keep their order |
| McFunctions.McFunction.FindBlockByName | src/lifter/streamerwrapper.h:119-124 | the first block of that name, or none |
| GraphFacts.BranchEdges | src/lifter/bpf2llvm.cpp:130-149 | successor list composed with the branch's label: the taken edge goes to the labelled block, the other to the next, also when the two coincide, and to the target again in the last block |
| GraphFacts.FallThroughEdge | src/lifter/mc2llvm.cpp:774-787 | a block that falls through continues in the next block |
| GraphFacts.EntryHasNoPredecessor | src/lifter/streamerwrapper.cpp:11-24 | the synthetic entry block is never a successor |
| GraphFacts.GraphWellFormed | src/lifter/streamerwrapper.cpp:143-188 | no block is empty, terminators are last in their blocks, a block that falls through has at most one successor |
| GraphFacts.GraphResolves | src/lifter/bpf2llvm.cpp:130-149 | all through the lifting, each block's name finds that block and no other |
| Lifters.Lifter.LiftMCFunction | src/lifter/mc2llvm.cpp:704-788 | the emitter appends, block by block, exactly the function that the theorem is about; it fails if and only if there are more than five arguments, an instruction is not supported, or a helper number is negative, and reports the first |
| Lifters.ErrorOfFirst | src/lifter/mc2llvm.cpp:757-788 | the error is that of the first instruction that cannot be lifted |
| Lifters.Lifter.Lift | src/lifter/bpf2llvm.cpp:750-1380 | an instruction is refused if and only if it is not supported or calls a negative helper number, and otherwise appended as its specification says |
| Lifters.Lifter.LiftBlock | src/lifter/mc2llvm.cpp:757-788 | one block, closed at its end if the machine code falls through |
| Lifters.Lifter.CheckedUnsigned | src/lifter/mc2llvm.cpp:408-434 | two fresh blocks, filled and closed in order, form the diamond of an unsigned checked division, and emission goes on in the join block |
| Lifters.Lifter.CheckedSigned | src/lifter/mc2llvm.cpp:436-476 | the same with four blocks and the overflow check |
| Lifters.Lifter.LiftAlu | src/lifter/bpf2llvm.cpp:837-989 | arithmetic at both widths, with division routed through the checked builders |
| Lifters.Lifter.LiftEndian | src/lifter/bpf2llvm.cpp:788-830 | byte swaps and masks, zero-extended |
| Lifters.Lifter.LiftLoad | src/lifter/bpf2llvm.cpp:1076-1104 | loads, zero- or sign-extended as the opcode says |
| Lifters.Lifter.LiftAtomic | src/lifter/bpf2llvm.cpp:1260-1340 | atomic read-modify-write, with the old value fetched where the opcode asks |
| Lifters.Lifter.LiftCompareExchange | src/lifter/bpf2llvm.cpp:1343-1364 | compare-exchange with r0 |
| Lifters.Lifter.DoHelperCall | src/lifter/bpf2llvm.cpp:361-383 | five arguments, then r1 to r5 clobbered from 40 fresh scratch bytes, then r0 |
| Lifters.Lifter.GetBranchTargets | src/lifter/bpf2llvm.cpp:130-149 | the taken block by label, the other by the first successor of another name |
| Lifters.Lifter.LiftBranch | src/lifter/bpf2llvm.cpp:1156-1257 | condition and conditional jump close the block |
| Lifters.Lifter.PlatformInit | src/lifter/bpf2llvm.cpp:206-247 | register storage, frame pointer, and arguments widened into r1 up to r5 |
| Lifters.Lifter.EnforceExtension | src/lifter/bpf2llvm.cpp:176-204 | the code that widens a value, with junk from fresh scratch bytes |
| Lifters.Lifter.UnspecifiedValue | src/lifter/bpf2llvm.cpp:151-174 | each request loads the next bytes and moves the offset past them |
| Lifters.Lifter.MarshallArgs | src/lifter/bpf2llvm.cpp:252-286 | the argument values in order, each cut to its type |
| Lifters.Lifter.AfterCall | src/lifter/bpf2llvm.cpp:308-349 | the result widened into r0, r1 to r5 clobbered unless the callee preserves them |
| Lifters.Lifter.DoTypedReturn | src/lifter/bpf2llvm.cpp:400-429 | the code that returns the part of r0 the return type speaks about |
| Emission.LiftInsnKeeps | src/lifter/mc2llvm.cpp:757-788 | the emission invariant: lifting an instruction changes no finished block, and leaves the current block open if and only if the instruction is no terminator |
| Emission.LiftInsnOff | src/lifter/bpf2llvm.cpp:151-174 | an instruction uses 40 scratch bytes if it is a call and none otherwise |
| Ssa.ProgramIsSsa | src/lifter/mc2llvm.cpp:704-788 | for every accepted program: each name of the lifted function is defined exactly once, each use of a name by an instruction or a terminator comes after its definition in the same block or in a block that dominates it (every path from the entry goes through it), and each branch goes to a block of the function |
| Ssa.LiftedIsSsa | src/lifter/mc2llvm.cpp:704-788 | the same for any graph whose blocks are well formed and whose branches name its blocks |
| Ssa.RegistersAllocated | src/lifter/bpf2llvm.cpp:206-247 | the storage of each register is allocated in the entry block, before its first use there; so it is allocated on every path |
| Ssa.ForkOwns | src/lifter/mc2llvm.cpp:408-476 | every block that a checked division adds is reached only through the block that opened it |
| Numbering.DataMade | src/lifter/bpf2llvm.cpp:788-1364 | the code of any instruction that ends no block defines the next unused names in order and uses, from outside its blocks, only what its head defines |
| Lifting.EveryBlockClosed | src/lifter/mc2llvm.cpp:757-788 | when lifting ends every block, those of division diamonds included, has its terminator |
| Lifting.FinishedExtends | src/lifter/mc2llvm.cpp:757-788 | the finished function contains the function as it was before each instruction |
| Lifting.BlockBegins | src/lifter/mc2llvm.cpp:757-772 | each block is begun empty, in the block of its own number |
| CallProofs.StraightRuns | src/lifter/bpf2llvm.cpp:788-1364 | the code of any instruction without control flow has the instruction's effect on registers, memory and calls |
| CallProofs.CallRuns | src/lifter/bpf2llvm.cpp:361-383 | the code of a helper call has the machine's effect: arguments read, r0 answered, r1 to r5 clobbered, all else kept |
| CallProofs.ConditionComputes | src/lifter/bpf2llvm.cpp:1156-1257 | the emitted condition is 1 if and only if the jump is taken |
| CodegenProofs.AluRuns | src/lifter/bpf2llvm.cpp:837-873 | addition to arithmetic shift at both widths, shift amounts masked, upper half zeroed at 32 bits |
| CodegenProofs.EndianRuns | src/lifter/bpf2llvm.cpp:788-830 | byte swaps and masks do what RFC 9669 section 4.2 says |
| CodegenProofs.MovSextRuns | src/lifter/bpf2llvm.cpp:1008-1032 | sign-extending moves at every width |
| CodegenProofs.LoadRuns | src/lifter/bpf2llvm.cpp:1076-1104 | the load's code has the load's effect |
| CodegenProofs.StoreRuns | src/lifter/bpf2llvm.cpp:1106-1125 | the store's code has the store's effect |
| CodegenProofs.AtomicRuns | src/lifter/bpf2llvm.cpp:1260-1340 | the atomic operation's code has its effect, fetched value included |
| CodegenProofs.CompareExchangeRuns | src/lifter/bpf2llvm.cpp:1343-1364 | memory changes only if it held r0's value, and r0 gets the old value |
| DivisionProofs.DivisionRuns | src/lifter/mc2llvm.cpp:408-546 | from the operands to the join block, through either diamond: no undefined division is reached and the destination holds the total result of RFC 9669 section 4.1 |
| DivisionProofs.UnsignedDefined | src/lifter/mc2llvm.cpp:408-434 | the division in the arm is defined and is the machine's |
| DivisionProofs.SignedDefined | src/lifter/mc2llvm.cpp:436-546 | the same for signed operands other than the overflowing pair |
| DivisionProofs.SignedOverflow | src/lifter/mc2llvm.cpp:463-468 | the minimum divided by -1 gives the dividend back, with remainder zero |
| ArithmeticLaws.SignedDivisionTruncates | src/lifter/bpf2llvm.cpp:892-901 | for all operands at every width: dividend = divisor * quotient + remainder, the remainder is smaller than the divisor and is zero or has the dividend's sign; a zero divisor gives 0 and the dividend, the quotient that does not fit gives the dividend and 0 |
| ArithmeticLaws.TruncatesOnce | src/lifter/mc2llvm.cpp:469-470 | there is only one quotient and remainder of that kind |
| ArithmeticLaws.UnsignedDivisionDivides | src/lifter/mc2llvm.cpp:408-434 | the same for the unsigned operations |
| ArithmeticLaws.SumsAreModular | src/lifter/bpf2llvm.cpp:837-873 | sum, difference and product are those of the signed (or unsigned) readings modulo 2^width |
| ArithmeticLaws.ShiftsScale | src/lifter/bpf2llvm.cpp:837-873 | shifts multiply and divide by the power of two of the amount modulo the width, the arithmetic one rounding down on the signed reading |
| ArithmeticLaws.BitwiseOnBits | src/lifter/bpf2llvm.cpp:837-873 | and, or and exclusive or work on each bit by itself; a number is its bits |
| ArithmeticLaws.NegationCancels | src/lifter/bpf2llvm.cpp:837-873 | a word and its negation add up to zero |
| ArithmeticLaws.ComparisonsOrder | src/lifter/bpf2llvm.cpp:1156-1257 | the eleven conditions are one order, its signed form being the unsigned one with the top bits flipped, and a common bit |
| ArithmeticLaws.SExtKeepsValue | src/lifter/bpf2llvm.cpp:1008-1032 | sign extension keeps the signed reading and the low bits |
| ArithmeticLaws.MovesKeepValue | src/lifter/bpf2llvm.cpp:995-1032 | moves copy the low bits of their width, immediates are signed 32-bit numbers, sign-extending moves keep the signed reading |
| ArithmeticLaws.UnitsCount | src/lifter/bpf2llvm.cpp:597-619 | an instruction's unit is its number plus the number of 64-bit immediate loads before it |
| ArithmeticLaws.TargetIsRelative | src/lifter/bpf2llvm.cpp:689-709 | a target is the unit after the branch plus the signed offset, of 32 bits in a long jump and 16 otherwise |
| ArithmeticLaws.EncodingsDecode | src/lifter/bpf2llvm.cpp:603-620 | instructions are decodable whatever their fields hold |
| Bpf.EffectInRange | src/lifter/bpf2llvm.cpp:77-88 | every step keeps all registers within 64 bits |
| Bpf.RegisterResultInRange | src/lifter/bpf2llvm.cpp:85-88 | a result of 32-bit width has a zero upper half |
| Simulation.DataStep | src/lifter/mc2llvm.cpp:757-772 | in the finished function, execution gets from where an instruction's code starts to where it ends, with the machine's effect |
| Simulation.BranchStep | src/lifter/bpf2llvm.cpp:1156-1257 | a conditional branch goes to its taken block exactly when the machine's jump is taken |
| WholeProgram.DataMatched | src/lifter/mc2llvm.cpp:757-788 | an instruction without control flow, across block boundaries: from its place to the next instruction's |
| WholeProgram.JumpMatched | src/lifter/bpf2llvm.cpp:1141-1155 | a jump takes one step to the target's place |
| WholeProgram.BranchMatched | src/lifter/bpf2llvm.cpp:1156-1257 | a conditional branch goes to the target or the next instruction as the machine does; in last place always to the target |
| WholeProgram.ExitMatched | src/lifter/bpf2llvm.cpp:400-429 | an exit returns r0, with the memory and the calls so far |
| WholeProgram.OffEndReturns | src/lifter/mc2llvm.cpp:774-787 | after a last instruction that is no terminator the lifted code returns r0 |
| Runs.StepMatched | src/lifter/mc2llvm.cpp:704-788 | every machine step that stays in the program is matched, and takes a step of the lifted code unless it only moves on |
| Runs.RunMatched | src/lifter/mc2llvm.cpp:704-788 | the same over runs of any length, by induction |
| Runs.EntryMatched | src/lifter/bpf2llvm.cpp:206-247 | from the lifted function's start to the first instruction, in the machine's entry state |
| Prologue.SetupRuns | src/lifter/bpf2llvm.cpp:206-247 | the entry code puts the function in exactly the given entry registers |
| Prologue.JunkOfWidens | src/lifter/bpf2llvm.cpp:189-202 | every register value that carries an argument is the argument widened with some junk of the right size |
| Prologue.FramePointerAtTop | src/lifter/bpf2llvm.cpp:206-247 | at entry r10 is byte 1024 of the frame block, where slot offsets are counted from |
| Scratch.SiteLoads | src/lifter/bpf2llvm.cpp:151-174 | for any values, one content of the constant global makes each use load its own |
| Scratch.EverySiteLoads | src/lifter/bpf2llvm.cpp:151-174 | the same for all uses at once |
| Scratch.RangesDisjoint | src/lifter/bpf2llvm.cpp:151-174 | the byte ranges handed out are in bounds, in order and disjoint |
| Realization.PointOff | src/lifter/bpf2llvm.cpp:331-349 | the scratch offset at each instruction is the entry code's use plus 40 for each call before it |
| Memory.StoreThenLoad | src/lifter/bpf2llvm.cpp:1076-1138 | a load after a store of the same width returns the truncated value, and no other byte changes |
| Memory.SwapIsBigEndian | src/lifter/bpf2llvm.cpp:788-830 | swapping the bytes of a loaded value is the big-endian reading |
| ByteOrder.StoredIsLoaded | src/lifter/bpf2llvm.cpp:1076-1138 | a store or store-immediate followed by a load at the same address: the register holds the stored value extended as the opcode says, and everything else is unchanged |
| ByteOrder.SwappedLoadIsBigEndian | src/lifter/bpf2llvm.cpp:788-830 | BE16, BE32 and BE64 applied to a loaded value read the same bytes big-endian |
| ByteOrder.LoadedBytes | src/lifter/bpf2llvm.cpp:1076-1104 | byte k of a loaded value is the byte k places above the address |
| Abi.WidenComputes | src/lifter/bpf2llvm.cpp:176-204 | the widening code computes the widened value |
| Abi.WidenRoundTrip | src/lifter/bpf2llvm.cpp:176-204 | truncation recovers the value whatever the attributes and the junk, and the upper bits are zero, sign bits or exactly the junk |
| TypedCalls.ArgumentsArrive | src/lifter/bpf2llvm.cpp:252-286 | whatever was widened into r1 to r5, with any attributes and junk, is marshalled back to the value passed |
| TypedCalls.FinishCallRuns | src/lifter/bpf2llvm.cpp:308-346 | after a call r0 is the widened result, r6 to r10 are unchanged, and r1 to r5 are unspecified or, for a preserving callee, unchanged |
| TypedCalls.FinishVoidCallRuns | src/lifter/bpf2llvm.cpp:331-349 | after a call without a result r0 is unspecified and the same holds of the others |
| Returns.SourceFunction.AdjustSrc | src/lifter/mc2llvm.cpp:1119-1159 | every return of the source function, and nothing else, is changed to return the extended value; the return type becomes 64 bits exactly when they are |
| Returns.AdjustedEndsAlike | src/lifter/mc2llvm.cpp:1123-1157 | the change keeps meaning over whole runs, both ways: the changed function ends exactly when the original does, with its end and its value extended |
| Returns.LiftedReturnComputes | src/lifter/bpf2llvm.cpp:400-429 | what the lifted function's return code takes out of r0 |
| Returns.ReturnsAgree | src/lifter/mc2llvm.cpp:1116-1159 | source run and lifted return give the same value if and only if the low K bits of r0 are the value extended to K bits: K is the width, 32 or 64 |
| Returns.ValuesAgree | src/lifter/bpf2llvm.cpp:400-429 | the same as an equivalence between values |
| Returns.AgreementMeans | src/lifter/bpf2llvm.cpp:400-429 | the same by the kind of type: the bits of the type without attribute; with one, all of r0 above 32 bits and its low half otherwise, compared as numbers or as signed numbers |
| Returns.UpperBitsIgnored | src/lifter/bpf2llvm.cpp:418-426 | two values of r0 give the same return value exactly when they agree on those K bits |
| Slots.FrameSlots | src/lifter/run_backend.cpp:154-191 | each slot has the offset, size, alignment and line of a frame object that is not dead, backs an alloca of a known line, has positive size and lies below r10 from inside the frame on; each such object that shares no byte with another has its slot; the slots of the others are missing in overlapping pairs only; slots are sorted and pairwise disjoint |
| SplitObjects.HandedOnAreValid | src/lifter/run_backend.cpp:154-191 | those slots meet what the split takes for granted exactly if each ends within the block, which follows if no usable frame object reaches over the top of the frame |
| Slots.EraseOverlaps | src/lifter/run_backend.cpp:183-190 | the erasing loop ends and leaves a sorted, pairwise disjoint sub-multiset; what is erased went in pairs of overlapping slots, both slots of each pair |
| Slots.SortByOffset | src/lifter/run_backend.cpp:179-182 | sorted by offset, a permutation |
| Slots.FindSlot | src/bpf-tv.cpp:377-383 | the first slot covering a frame byte, or none |
| Slots.CoverIsUnique | src/bpf-tv.cpp:377-383 | in a disjoint list at most one slot covers a byte |
| Slots.LookupIgnoresOrder | src/bpf-tv.cpp:377-383 | the slot found does not depend on the order of the list |
| SplitPass.Rewriter.ClassifyPtr | src/bpf-tv.cpp:424-486 | it ends on every use graph the code can have; when it succeeds, every use of the pointer is planned, followed or harmless, and nothing is planned without a reason; when it fails, some address that every classification comes to has a use that it may not have |
| SplitPass.RefusesTheOthers | src/bpf-tv.cpp:424-541 | the uses that are refused are exactly those not on the list: a pointer may be converted, moved by a constant, passed, compared, accessed outside all slots, and moved by an index in the canonical shape whose constant base lies in a slot; an integer may be moved by a constant once, converted back and compared |
| SplitPass.Rewriter.ClassifyIntUses | src/bpf-tv.cpp:495-541 | the same, success and failure, for the integer uses of a frame address |
| SplitPass.Rewriter.ClassifyAddr | src/bpf-tv.cpp:496-517 | an address inside a slot is planned with that slot and offset, one outside is followed; it fails only on a refused use |
| SplitPass.Rewriter.ClassifyVariableGep | src/bpf-tv.cpp:438-461 | a variable index is attributed to the slot its constant base points into; it fails only on a refused use |
| SplitPass.AcceptedIsUnique | src/bpf-tv.cpp:424-544 | a function has at most one classification that the rules accept |
| SplitPass.RefusedMeansNone | src/bpf-tv.cpp:424-544 | one refused use, of an address that is come to with reason, and no classification is accepted |
| SplitObjects.AcceptedSplits | src/bpf-tv.cpp:424-544 | what the rules accept meets the condition that the split is proved from if and only if none of the three missed uses occurs |
| SplitSafety.SafeIsExact | src/bpf-tv.cpp:424-544 | an accepted function has no missed use if and only if it is safe to split: a condition on the function and the slots that can be told before the pass runs |
| SplitSafety.OffsetIsTracked | src/bpf-tv.cpp:424-544 | the constant offsets of frame addresses, read off the code, are exactly the addresses a successful classification follows, at their bytes |
| SplitSafety.ComesToPlan | src/bpf-tv.cpp:424-544 | what the code says is replaced, and by which address, is exactly what a successful classification plans |
| SplitSafety.LeavesIsMade | src/bpf-tv.cpp:546-562 | the bytes said to leave the frame block are exactly those of the objects made |
| SplitObjects.MadeValid | src/bpf-tv.cpp:546-562 | the objects made are valid slots for the proof when the list handed on is |
| SplitTheorem.RewriteStackObjects | src/bpf-tv.cpp:343-596 | with slots and a stack block, it succeeds if and only if every use of every address of the block is one on that list, read off the code; then exactly the planned instructions are replaced, each by an address in the object of its slot; otherwise nothing changes |
| SplitTheorem.Apply | src/bpf-tv.cpp:546-596 | the replacements one by one give the rewritten function, with an object made for each slot when it is first referred to |
| SplitTheorem.RewrittenRunsAlike | src/bpf-tv.cpp:343-596 | for every accepted function without a missed use, every memory and every callee behaviour: each run of the rewritten function goes out of bounds of an object (or is excused), or is where the single-block run is, with memories related byte by byte; only the slots that became objects leave the frame, and no access through the frame block touches them |
| SplitTheorem.SafeRunsAlike | src/bpf-tv.cpp:343-596 | the same for every accepted function that is safe to split |
| SplitTheorem.MissedUseStops | src/bpf-tv.cpp:469-480 | in every accepted function: no run of the rewritten code gets past an access through a followed address that starts in an object or reaches into one, or a call that is handed an address inside one |
| SplitTheorem.SameResult | src/bpf-tv.cpp:343-596 | when the rewritten function returns, the original returns the same after the same calls |
| SplitLimits.MissedIsAccepted | src/bpf-tv.cpp:474-478 | a function that stores the block's address through itself is accepted, with one planned store |
| SplitLimits.SplitMissed | src/bpf-tv.cpp:343-596 | the pass succeeds on it, makes the object and replaces the plan |
| SplitLimits.MissedStoreBreaksSplit | src/bpf-tv.cpp:474-478 | the original returns 7; the rewritten function reads a frame byte that was never written, while its object holds the 7 |
| SplitLimits.EscapedIsAccepted | src/bpf-tv.cpp:479-480 | a function that hands the block's address to a callee is accepted although a slot starts at byte 0 |
| SplitLimits.SplitEscaped | src/bpf-tv.cpp:343-596 | the pass succeeds on it, makes the object and replaces the plan |
| SplitLimits.EscapedBlockBreaksSplit | src/bpf-tv.cpp:479-480 | the original's callee is shown the 7; the rewritten function's callee is handed a frame byte that was never written, while the object holds the 7 |
| SplitLimits.StraddledIsAccepted | src/bpf-tv.cpp:469-473 | a function with a load that begins below a slot and reaches into it is accepted |
| SplitLimits.SplitStraddled | src/bpf-tv.cpp:343-596 | the pass succeeds on it, makes the object and replaces the plan |
| SplitLimits.StraddlingAccessBreaksSplit | src/bpf-tv.cpp:469-473 | the original returns the eight bytes with the 7 among them; the rewritten function reads eight frame bytes of which none was ever written, while its object holds the 7 |
| SplitLimits.NoneIsSafe | src/bpf-tv.cpp:469-480 | the condition tells all three functions |
| SplitLimits.PlainIsSafe | src/bpf-tv.cpp:343-596 | there are accepted functions with an object made that are safe to split |
| SplitLimits.EscapedCallStops | src/bpf-tv.cpp:479-480 | whatever the function, memory and callees: once an object covers byte 0, no run of split code gets past a call that takes the block's address |
| SplitRuns.SplitPreservesMeaning | src/bpf-tv.cpp:343-596 | the simulation over runs of any length, from any related states |
| SplitRuns.StepsTogether | src/bpf-tv.cpp:343-596 | one step of both functions keeps states related |
| SplitCalls.CallRelated | src/bpf-tv.cpp:479-480 | a call that reaches only the object it is passed gives the same result and history and keeps memories related |
| SplitMemory.ReachRelated | src/bpf-tv.cpp:377-383 | an allowed access of the rewritten code is at the corresponding place of the original |
| SplitMemory.WriteRelated | src/bpf-tv.cpp:343-596 | corresponding writes keep the memories related |
| StackSplits.ReplacedRelated | src/bpf-tv.cpp:564-596 | a replaced instruction computes the address the original computed, constant or variable index |
| GlobalLifters.GlobalLifter.LookupGlobal | src/lifter/mc2llvm.cpp:186-215 | it ends on every reference graph; it fails if and only if the request reaches a name that nothing has; otherwise the answer is what the name stands for, and the first handle for the lifted function's own name; the table gains exactly the symbols reached, old handles and objects stay, no symbol is left deferred, and the returned handle is the recorded one unless the symbol was new and refers to itself |
| GlobalLifters.GlobalLifter.LazyAddGlobal | src/lifter/mc2llvm.cpp:48-184 | a name stands, in this order, for the stack check, the lifted function (the first handle), a function of the source, the first definition of that demangled name with its alignment and whether its section is constant, a declaration, an implicit intrinsic; it fails exactly if it stands for none |
| GlobalsProofs.RepresentsMeans | src/lifter/mc2llvm.cpp:48-184 | an object is what a symbol resolves to exactly if it is what its name stands for |
| GlobalsProofs.RefsMean | src/lifter/mc2llvm.cpp:82-121 | a symbol refers to what the data of the first definition of its name mentions, unless the name stands for a function |
| GlobalsProofs.DemangleMeans | src/lifter/mc2llvm.cpp:261-277 | which spellings of a name are assembler-local, and that every other name is its own |
| GlobalLifters.GlobalLifter.LiftData | src/lifter/mc2llvm.cpp:92-136 | the pieces of a definition, with one placeholder for each symbol neither lifted nor deferred |
| GlobalsProofs.LazyAddKeeps | src/lifter/mc2llvm.cpp:48-184 | it fails exactly on unresolvable symbols; otherwise the new object is what the symbol resolves to, all objects stay sound, and only its own unlifted references are deferred |
| GlobalsProofs.DrainKeepsGood | src/lifter/mc2llvm.cpp:204-212 | one turn of the draining loop keeps the invariant: pieces sound, placeholders one for each queued name, table closed up to the queue, and each symbol lifted as often as the table and queue say |
| GlobalsProofs.FirstKeepsGood | src/lifter/mc2llvm.cpp:190-196 | the same for the requested symbol itself |
| GlobalLookup.DrainDecreases | src/lifter/mc2llvm.cpp:204-212 | each turn leaves fewer reachable symbols outside the table, or as many and a shorter queue |
| GlobalLookup.NoPlaceholderIsUsed | src/lifter/mc2llvm.cpp:198-212 | with an empty queue every item of every definition is the byte or the address it says, of an object of the right symbol, never a placeholder, and the recorded one unless the symbol refers to itself |
| GlobalLookup.LiftedTwiceOnlyIfSelfReferring | src/lifter/mc2llvm.cpp:101-121 | each symbol in the table was lifted once, or twice exactly if it refers to itself |
| GlobalLookup.AllReached | src/lifter/mc2llvm.cpp:198-203 | the table is the old one and what the request reaches, nothing else |
| GlobalLookup.AliasedSelfReferenceNeverEnds | src/lifter/mc2llvm.cpp:101-124 | for a definition that refers to itself through an alias the queue is not empty after any number of turns |
| GlobalAliases.LoopEndsExactly | src/lifter/mc2llvm.cpp:101-124 | for any data whose demangled names are fixed points and any request that finds nothing queued: the loop empties the queue if and only if the request reaches neither a cycle of references all spelled otherwise than their symbols nor a symbol that does not resolve; and it stops at all if and only if there is no such cycle or there is such a symbol |
| GlobalAliases.ServedIsIdle | src/lifter/mc2llvm.cpp:198-212 | a request that was served leaves a state in which the next one can be made |
| GlobalAliases.TurnsTurn | src/lifter/mc2llvm.cpp:204-212 | which names are lifted and queued after each turn does not depend on the objects: the loop and its shadow on names go together |
| GlobalAliases.AliasedRequestLoops | src/lifter/mc2llvm.cpp:101-124 | the first request, on an empty table, for a symbol that refers to itself through an alias leaves it alone in the table and queued again |
| TextMode.MCStreamerWrapper.EmitLabel | src/lifter/streamerwrapper.cpp:112-141 | the new state after a label: data flushed, names updated, a marked block opened unless the function has ended |
| TextMode.MCStreamerWrapper.EmitInstruction | src/lifter/streamerwrapper.cpp:26-43 | the instruction goes to the current block, or to a new one after a terminator |
| TextMode.MCStreamerWrapper.FlushConstant | src/lifter/streamerwrapper.h:164-176 | pending data becomes a global under the current symbol |
| TextMode.MCStreamerWrapper.EmitBytes | src/lifter/streamerwrapper.cpp:206-213 | the bytes of a string are appended in order |
| TextMode.MCStreamerWrapper.EmitFill | src/lifter/streamerwrapper.cpp:215-229 | as many copies of the byte are appended as the count says, none for a negative one |
| TextMode.MCStreamerWrapper.EmitValue | src/lifter/streamerwrapper.cpp:74-110 | one reference is appended, outside sections that begin with `.debug` only |
| TextMode.GuardAndEnd | src/lifter/streamerwrapper.h:92-101 | the guard variable has eight bytes of the character 7, and the function ends at the label `.Lfunc_end0` |
| TextProofs.BlocksAreSound | src/lifter/streamerwrapper.cpp:26-43 | after any events no block is empty, terminators are last in their blocks, markers first, and a block without a label follows a terminator |
| TextProofs.LabelsOpenBlocks | src/lifter/streamerwrapper.cpp:112-141 | the labelled blocks are the opening labels, in order |
| TextProofs.InstructionsInOrder | src/lifter/streamerwrapper.cpp:26-43 | the blocks without their markers are the instruction stream |
| TextProofs.FailsExactlyWithoutLabel | src/lifter/streamerwrapper.cpp:26-36 | the assertion on the previous line fails if and only if an instruction comes before every opening label |
| TextProofs.DataInOrder | src/lifter/streamerwrapper.h:164-176 | every data item is in exactly one recorded global or pending, in order, under the last label before it |
| TextProofs.GlobalsAreFlushes | src/lifter/streamerwrapper.h:164-176 | the recorded globals are the guard variable and one for each event that records pending data, in order, with the data, symbol, section and alignment of that moment |
| TextProofs.SectionsExactly | src/lifter/streamerwrapper.cpp:118-127 | each recorded global has its symbol's name and the data since the last record; its section is not its symbol's own if and only if a debug label comes after the last other label before the record |
| TextProofs.SectionsRight | src/lifter/streamerwrapper.cpp:124-127 | without labels in debug sections every global is recorded under its own label's section |
| TextProofs.DebugLabelMisplacesData | src/lifter/streamerwrapper.cpp:118-122 | with one in between, data is recorded under the debug section |
| FrontEnds.FrontEndsAgree | src/lifter/bpf2llvm.cpp:688-748 | on the listing of any program, in a function not named `.Lfunc_end0` (that label ends the parser's function), text mode makes the blocks bytes mode cuts, instruction for instruction, with a marker in front exactly where a label opened the block |
| FrontEnds.LeaderIff | src/lifter/bpf2llvm.cpp:689-709 | past the entry, an instruction is a leader if and only if a branch goes to it or a terminator precedes it |
| RoundTrips.FunctionBody.TryReplacePtrToInt | src/bpf-tv.cpp:306-315 | over a whole function: names stay defined and distinct, every other instruction keeps its operand values and result, and no round trip whose steps have no other use is left |
| RoundTrips.NoNewTrip | src/bpf-tv.cpp:146-156 | collapsing one round trip makes no other instruction the end of one |
| RoundTrips.FunctionBody.TryReplaceRoundTrip | src/bpf-tv.cpp:126-158 | it rewrites exactly where a round trip's steps have no other use, and then as specified |
| RoundTrips.TripsAreFound | src/bpf-tv.cpp:126-146 | a sum of a conversion and an offset, both used once, is found in either operand order |
| RoundTrips.OnlyTripsAreFound | src/bpf-tv.cpp:126-146 | nothing else is |
| RoundTrips.CollapseKeepsMeaning | src/bpf-tv.cpp:146-156 | values that fit the original and values that fit the collapsed function correspond, for either order of the sum's operands |
| RoundTrips.CollapseKeepsClosed | src/bpf-tv.cpp:146-156 | no use of an erased instruction is left, and every used name is defined |

## Left out

- The refinement check, Alive2's memory model, LLVM's optimiser and code generator: external libraries.
- Disassembly and assembly parsing: the model starts from decoded instructions with raw fields and from parser events. Undecodable
  bytes, type and calling-convention checks, logging, options and diagnostics are not part of this model.
- Calls to other BPF functions, indirect calls and the source-side lookup of a call's target: bytes mode refuses the first, and
  `TypedCalls` starts from a known signature. A call with source field 2 (by type id) is treated as a helper call by number, as the code does.
- The constant fourth argument that is added to memory intrinsics, and call attributes other than the extension of the result.
- Instruction encodings: operations are grouped by meaning. Register 11, a pseudo register of LLVM's, has storage as in the code. The address computation
  and load of an unspecified value are one instruction here, and so are compare-exchange and the extraction of its result. The legacy 32-bit
  atomic add is the 32-bit add without fetch.
- Alignment: the lifter marks atomics as aligned to their size (src/lifter/bpf2llvm.cpp:1329-1359), so that a misaligned one is undefined in LLVM; the interpreter ignores alignment, and "never stuck" does not cover it.
- Atomic ordering: atomics are sequential read-modify-writes. Address spaces and provenance: a pointer is its 64-bit address.
- Theorem.LiftedFollowsMachine: a site that is executed again reads the same unspecified value, because the code loads from a constant global; clobbers are
  therefore chosen for each site, not for each execution.
- BytesMode.RunBytes: the assertion that the scratch bytes suffice is a precondition, stated as the sum that it checks.
- SplitTheorem.RewrittenRunsAlike: runs are excused that go out of bounds of an object (the original may go on, in a neighbouring byte of the frame); that depend on where
  objects are placed (integer comparison or arithmetic on frame addresses); that store an address in fewer or more than 8 bytes or read part of a stored one; or that make a call while a stored address lies
  in the memory outside the frame or in what the call can reach. Values are computed before they are used, and callees touch only the object they are passed. Alignment clamping and phi nodes over frame addresses, which the pass refuses, are not modelled further.
- SplitSafety.SafeIsExact: exact for the three uses, not for meaning: whether a pointer stored through itself does harm depends on what is read later, and a missed access or call may never be reached; no condition for that is given.
- Slots.FrameSlots: a slot that overlapped a wider slot already erased can survive; only the survivors are claimed disjoint. That a slot ends within the block is not checked by the
  code; `SplitObjects.HandedOnAreValid` says when it does.
- GlobalLifters.GlobalLifter.LookupGlobal: symbols in data are spelled as lookups spell them; for other data `GlobalAliases.LoopEndsExactly` says when the loop ends, but what the duplicates look like is not described. Attributes and linkage of globals are not modelled.
- GlobalAliases.LoopEndsExactly: names that demangling changes twice (`.L.L.x`) are not covered.
- TextProofs.DataInOrder: common symbols, which are recorded at once with the character 0 for each byte, are not among the events; nor are directives that only log.
- RoundTrips.CollapseKeepsMeaning: control flow and time are not modelled there; instructions are equations between the values at a use, so instruction order and the iterator's validity while erasing are left out.
- The inline-assembly passes, the rewriting of helper calls by number, the conformance plugin and the corpus script: they would add only easy members.
- Vector, floating-point and constrained-intrinsic builders, which the BPF lifter inherits and does not use.
