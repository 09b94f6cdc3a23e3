# A verified model of the gateway and its Lua engine

A game gateway in C, with the Lua 5.2.3 engine and the MD5 library that it is
built with, modelled in Dafny. `dafny verify dfyconfig.toml` checks all of it.

Each part has a simple form - functions on values, or a state machine - and,
where the C code works in place, a class or a method with the source's own
fields and loops that is proved to do what the simple form says. The properties
are then proved of the simple form, for every input, run or reachable state.

- **Code generator.** `LuaVM` gives the meaning of the target instructions;
  `CodeGen*` compiles expressions, conditions and blocks with jump lists as
  sequences and proves that the emitted code computes them; `FuncState` has the
  code array with the lists threaded through the jumps, and refines that.
  `CodeGenLaws` says what the compiled operators and conditionals answer.
- **Garbage collector.** `Heap`, `GCMark`, `GCSweep`, `GCMutator`, `GCRuns`,
  `GCFull`: objects, colours, lists and phases, every action of program and
  collector, and what holds in every run. `Collector` does it in place, and
  `GCProgram` says what the program sees of it: nothing.
  `Ephemeron` has the convergence inside the atomic phase, `EphemeronCycle` the
  whole cycle around it, `EphemeronMisses` what it misses in incremental mode,
  `EphemeronRule` the rule itself.
- **Tables.** `TableNodes`, `TableSizes`, `TableLookup`, `TableCounts`,
  `LuaTable`: array part and chained scatter table with Brent's variation,
  against a finite map.
- **Strings.** `StringTable`: the table of short strings, resized in place and
  swept. `Patterns`, `Matcher`, `PatternSearch`: the pattern matcher against a
  list of successes, and `PatternLaws`, what each item matches. `Quoting`: the
  `%q` quoter and the string lexer; `StringLiterals`: what literals stand for.
- **Upvalues.** `Upvalues`: open and closed upvalues against a machine in which
  every variable has a cell of its own.
- **Sorting, parsing, chunks.** `SortSpec`, `Quicksort`; `Precedence`, and
  `PrecedenceLaws`, which has the operators by name; `ChunkFormat`,
  `ChunkRoundTrip`, `ChunkIO`, and `ChunkLaws`, the bytes at their places.
- **MD5.** `MD5`: padding and rounds as in RFC 1321, and the driver that never
  builds the padded message. `MD5Laws`, `MD5Sines`, `MD5Vectors`: the functions
  bit by bit, the constants as sines, and digests from the RFC's test suite.
- **Gateway.** `MessageBuffer`: framing, and the linked pieces from a shared
  pool. `HashId`: the index of connection ids. `Gateway`: the events.
  `GatewayRoutes`: who is sent what. `GatewayLaws`: the same by bytes.

Pointers are indices or ids; memory that the allocator gives is new. What a
caller could pass as anything - the hash function, the reader and the writer of
a chunk, the comparison of a sort, the locale's control characters - is a
parameter, and the theorems hold for all of them.

Results that the source does not promise in this form:

- The plain search of `string.find` and the matcher differ for a pattern with a
  `)`, which `nospecials` does not count (`PatternSearch.PlainSearchExact`).
- `%q` comes back through the lexer only where the locale counts the carriage
  return as a control character (`Quoting.QuoteExact`).
- The gateway forgets the header of a body of one to five bytes and takes the
  body for another header (`Framing.ConservesExactly`).
- A second server that is refused still has the type of a server until its
  socket closes; `GatewaySpec.Inv` says that it was asked to leave.
- An ephemeron table that propagation put into `allweak` is not visited again by
  the atomic step, and stores into it have no barrier: a value stored meanwhile
  under a live key can be lost. `EphemeronMisses.AtomicCompleteExactly` says
  exactly when nothing is, `EphemeronMisses.StoreLost` and
  `EphemeronMisses.ExampleLoses` when something is; a cycle that nothing
  interrupts, as in a full collection, is exact (`EphemeronCycle.CycleExact`).
- A server's frame does not reach the client in the first slot, whose number the
  test `> 0` takes for "not found", nor one whose id does not survive the two
  bytes and the plain `char` it is read through (`GatewayRoutes.AnswerExactly`).
- MD5 keeps three bits of the length's high word (`MD5Driver.LengthExact`).

## Model

| member | source | states |
|---|---|---|
| LuaVM.RunAppend | 3rd/lua/lvm.c:545-720 | code appended to a fragment runs exactly where a run of the fragment falls off its end; no other outcome changes |
| LuaVM.RunMoreConstants | 3rd/lua/lvm.c:545-563 | constants added later do not change how code that refers to the earlier ones runs |
| CodeGenJumps.RunPatch | 3rd/lua/lcode.c:150-160 | patching a list redirects exactly the exits through the listed jumps: a TESTSET that leaves with its value goes to the value target with the value in the register, every other to the default target; all other runs stay |
| CodeGenJumps.RunRemoveValues | 3rd/lua/lcode.c:144-147 | tests that give up their value still leave the code through the same jump with the same registers |
| CodeGenJumps.RunExitPend | 3rd/lua/lcode.c:59-66 | a run leaves a fragment only through a jump that is still pending in it |
| CodeGenEmit.EmitOut | 3rd/lua/lcode.c:212-224 | emitting an instruction, after the jumps to here are patched: the old outcome, and the new instruction where the old code falls off or jumps to here |
| CodeGenEmit.MergeMeets | 3rd/lua/lcode.c:37-56 | a LOADNIL may be extended over adjacent registers instead of a new one, without changing what the code does, unless a jump enters between them |
| CodeGenEmit.CodeKMeets | 3rd/lua/lcode.c:250-258 | loading a constant puts the expression's value in the register |
| CodeGenEmit.Discharge2RegMeets | 3rd/lua/lcode.c:421-457 | after discharging a descriptor to a register the code still does what it should, whatever the descriptor was |
| CodeGenOps.JumpOnCondBranches | 3rd/lua/lcode.c:606-618 | jumponcond leaves through the new jump exactly when the value has the wanted truth, with the value kept for a TESTSET; a NOT that ends the code is undone |
| CodeGenOps.InvertBranches | 3rd/lua/lcode.c:598-603 | an inverted comparison leaves exactly when the comparison is false |
| CodeGenOps.GoIfTrueGoesOn | 3rd/lua/lcode.c:621-642 | after luaK_goiftrue control goes on exactly when the expression is true and otherwise leaves through its false list with the right value |
| CodeGenOps.GoIfFalseGoesOn | 3rd/lua/lcode.c:645-665 | the same for luaK_goiffalse and the true list |
| CodeGenOps.CodeNotMeets | 3rd/lua/lcode.c:668-700 | after codenot the code computes the negated value, with the lists exchanged and without any value left in their tests |
| CodeGenClose.LoadBoolsOut | 3rd/lua/lcode.c:468-486 | the LOADBOOL pair changes only what happens when control falls off: a failed comparison loads false, a value jumps over the pair |
| CodeGenClose.PatchBothOut | 3rd/lua/lcode.c:483-485 | closing the true and the false list makes each of their exits fall off the end with its value in the register; no other outcome changes |
| CodeGenClose.Exp2RegMeets | 3rd/lua/lcode.c:468-489 | luaK_exp2reg leaves the expression's value in the register, ends just past the code, and keeps every other register that matters |
| CodeGenClose.Exp2AnyRegMeets | 3rd/lua/lcode.c:500-511 | luaK_exp2anyreg keeps what the code does, also when the value is in a local's register and has jumps |
| CodeGenCorrect.Exp2RKMeets | 3rd/lua/lcode.c:528-555 | luaK_exp2RK gives a constant index or a register that holds the value |
| CodeGenCorrect.CompareMeets | 3rd/lua/lcode.c:746-759 | a compiled comparison of two operands computes the operator, with the operands exchanged for > and >= |
| CodeGenCorrect.JoinMeets | 3rd/lua/lcode.c:813-827 | the second operand of and / or joined with the jumps of the first computes the short-circuit operator |
| CodeGenCorrect.SubExprGood | 3rd/lua/lcode.c:786-859 | compiling any expression keeps the invariants of the code: pending lists are in range, disjoint, of tests where they must be, and no jump goes outside |
| CodeGenCorrect.SubExprMeets | 3rd/lua/lcode.c:786-859 | main theorem: for every expression over nil, booleans, opaque numbers, locals, comparisons, not, and, or, after any code and from any registers, the emitted code and its descriptor stand for the value of the expression, with every live register as it was |
| CodeGenProgram.NextRegCorrect | 3rd/lua/lcode.c:492-497 | an expression put in the next register: the code ends just past it with the value in that register and all locals unchanged, or fails exactly when the expression does |
| CodeGenProgram.AssignCorrect | 3rd/lua/lcode.c:558-563 | an expression assigned to a local that it may itself read leaves its value there and changes no other local |
| CodeGenProgram.ConditionCorrect | 3rd/lua/lparser.c:1169-1176 | the condition of a statement: control goes on exactly when it is true, and otherwise leaves through the returned list with every local as it was |
| CodeGenProgram.TestDoes | 3rd/lua/lparser.c:1374-1396 | the condition of an `if`, after any code: the run goes on exactly when it is true, leaves through the false list exactly when it is false, and an error or an outer exit made before passes by |
| CodeGenProgram.ArmsGood | 3rd/lua/lparser.c:1374-1420 | the escape list and the false lists stay pending, apart from each other and from the jumps to here, through nested blocks; only the jumps of the escape list go to the end |
| CodeGenProgram.ArmsDo | 3rd/lua/lparser.c:1374-1420 | the arms of an `if`, with any number of `elseif`: jumps over them reach its end, and a run that gets to them does what the first arm with a true condition means, or `else`, or nothing |
| CodeGenProgram.BlockDoes | 3rd/lua/lparser.c:1082-1089 | a block of declarations, assignments and nested conditionals, after any code: errors and outer exits made before pass by, and a run that goes on has in the locals what the block means |
| CodeGenProgram.BlockCorrect | 3rd/lua/lparser.c:1082-1089 | so after code that falls off, a block of declarations, assignments and conditionals does what it means, or fails exactly when it does |
| CodeGenProgram.FunctionCorrect | 3rd/lua/lparser.c:604-613 | the same for the body of a function, with its conditionals, run from its first instruction |
| FuncStates.ListAppend | 3rd/lua/lcode.c:198-209 | linking the last jump of one threaded list to the head of another gives their concatenation, still without a cycle |
| FuncStates.PatchStep | 3rd/lua/lcode.c:150-160 | fixing the next jump of a list changes that jump alone and agrees with patching the list as a whole |
| FuncStates.FuncState.GetJump | 3rd/lua/lcode.c:100-106 | the offset of a pending jump leads to the rest of its list |
| FuncStates.FuncState.PatchListAux | 3rd/lua/lcode.c:150-160 | the loop over the threaded list fixes every jump of it as Patch says; the links of all other pending jumps stay |
| FuncStates.FuncState.DischargeJpc | 3rd/lua/lcode.c:163-166 | the jumps to here are patched to the next instruction, and none is pending any more |
| FuncStates.FuncState.Concat | 3rd/lua/lcode.c:198-209 | the result heads the first list followed by the second; no other link changes |
| FuncStates.FuncState.NewJump | 3rd/lua/lcode.c:59-66 | a new jump with the jumps to here on hold behind it |
| FuncStates.FuncState.PatchListToHere | 3rd/lua/lcode.c:192-195 | the list joins the jumps to here |
| FuncStates.FuncState.StripList | 3rd/lua/lcode.c:144-147 | every listed TESTSET becomes a TEST, and the links stay |
| FuncStates.FuncState.AddConstant | 3rd/lua/lcode.c:291-316 | an equal constant is reused, otherwise it is added at the end |
| FuncStates.FuncState.CodeNil | 3rd/lua/lcode.c:37-56 | luaK_nil with its merging of adjacent ranges, in place |
| FuncStates.FuncState.ExpToReg | 3rd/lua/lcode.c:468-489 | exp2reg over the threaded lists is the function on lists that Exp2RegMeets is about, and touches no list of an outer expression |
| FuncStates.FuncState.JumpIf | 3rd/lua/lcode.c:606-618 | jumponcond over the code array is the function JumpOnCondBranches is about |
| FuncStates.FuncState.GoTrue | 3rd/lua/lcode.c:621-642 | luaK_goiftrue over the code array is the function GoIfTrueGoesOn is about |
| FuncStates.FuncState.GoFalse | 3rd/lua/lcode.c:645-665 | luaK_goiffalse over the code array is the function GoIfFalseGoesOn is about |
| FuncStates.FuncState.NegateExp | 3rd/lua/lcode.c:668-700 | codenot over the code array is the function CodeNotMeets is about |
| FuncStates.FuncState.SubExpression | 3rd/lua/lparser.c:1037-1064 | compiling an expression in place, with lists threaded through the jumps, refines the compiler on lists |
| FuncStates.FuncState.TestThenBlock | 3rd/lua/lparser.c:1374-1406 | one arm of an `if` over the code array is the function CompileArm that ArmsDo is about, also for the list that its escape jump joins; no list of an outer construct is touched |
| FuncStates.FuncState.IfStat | 3rd/lua/lparser.c:1409-1420 | the loop over the arms, with its escape list threaded through the code, is the function CompileArms that ArmsDo is about |
| FuncStates.FuncState.Block | 3rd/lua/lparser.c:1082-1089 | a block in place, with nested conditionals, is the function on lists that BlockDoes is about |
| FuncStates.RunWords | 3rd/lua/lvm.c:665-708 | links that are still in the jumps do not matter: a run that does not leave through one is a run of the plain instructions |
| FuncStates.CompileFunction | 3rd/lua/lparser.c:604-613 | the instructions left in the code array of a compiled body, run from any registers, do what the body means |
| CodeGenLaws.NumbersCompare | 3rd/lua/lvm.c:231-254 | on numbers each of the six operators is the comparison of its own name; > and >= exchange their operands |
| CodeGenLaws.StringsCompare | 3rd/lua/lvm.c:231-254 | on strings they are the order of strings, and equality is identity |
| CodeGenLaws.OthersCompare | 3rd/lua/lvm.c:225-254 | operands that are not both numbers or both strings: an order is an error, and equality asks whether they are the same |
| CodeGenLaws.CompileComparison | 3rd/lua/lvm.c:668-693 | the code of every comparison, run on any registers: on integers in their order and on strings in a list it leaves in the register whether <, <=, ==, ~=, > or >= holds; with a not-a-number only ~= is true; mixed types fail in the four orders and only there |
| CodeGenLaws.LogicDecides | 3rd/lua/lobject.h:170 | only nil and false are false: `not` gives a boolean, `and` and `or` give the operand that decides |
| CodeGenLaws.CompileLogic | 3rd/lua/lparser.c:1037-1064 | the code of `and`, `or` and `not` leaves the deciding operand, or the boolean, in the register, and does not evaluate the second operand in vain |
| CodeGenLaws.IfTakes | 3rd/lua/lparser.c:1374-1420 | the code of an `if` runs the first block whose condition is neither nil nor false, or the `else` block, or nothing |
| CodeGenLaws.AssignSets | 3rd/lua/lcode.c:558-563 | the code of an assignment puts the value into that local and leaves the others |
| CodeGenLaws.CompileChoice | 3rd/lua/lparser.c:1374-1420 | `if c then x = a else x = b end`, compiled and run: x gets the one or the other by the truth of c |
| CodeGenLaws.CompileValue | 3rd/lua/lparser.c:1434-1451 | `local x = e`, compiled and run: the value is in the new register and the locals before it are unchanged, or the code fails exactly when e does |
| CodeGenLaws.MachineLoads | 3rd/lua/lvm.c:557-578 | MOVE, LOADK, LOADBOOL, LOADNIL, NOT and JMP do what they are for |
| CodeGenLaws.MachineTests | 3rd/lua/lvm.c:694-708 | TEST and TESTSET take the jump behind them exactly when the truth of the register is the wanted one, TESTSET with the value |
| CodeGenLaws.MachineCompares | 3rd/lua/lvm.c:668-693 | EQ, LT and LE take the jump behind them exactly when the comparison has the wanted result |
| GCMark.MarkSpec | 3rd/lua/lgc.c:243-295 | marking an object marks it and, through strings, userdata and closed upvalues, all it must; nothing loses its mark and all that is newly gray is in the gray list |
| GCMark.PropagateMarkKeeps | 3rd/lua/lgc.c:521-563 | visiting a gray object keeps the mark-phase invariant: no black object holds a white one |
| GCMark.RestartKeeps | 3rd/lua/lgc.c:337-344 | a new cycle starts with the invariant and the main thread marked |
| GCMark.GrayAgain | 3rd/lua/lgc.c:582-591 | retraversing what the barriers caught keeps the invariant |
| GCMark.MarkRestCloses | 3rd/lua/lgc.c:999-1014 | at the end of the atomic mark the marked objects contain the roots and everything they hold, and nothing is gray |
| GCRuns.AtomicKeeps | 3rd/lua/lgc.c:999-1037 | after the white flip exactly the marked objects are not dead |
| GCSweep.SweepListKeeps | 3rd/lua/lgc.c:719-752 | a swept list has no dead object, its live ones are the current white, no other list changes, and what is freed was dead |
| GCSweep.SweepToLiveKeeps | 3rd/lua/lgc.c:758-766 | sweeping until a live object stops at one or at the end, and frees only dead ones |
| GCSweep.EnterSweepKeeps | 3rd/lua/lgc.c:936-946 | entersweep establishes the sweep invariant |
| GCSweep.CloseKeeps | 3rd/lua/lfunc.c:89-107 | closing upvalues frees only dead ones and keeps the lists and colours in order, also during a sweep |
| GCSweep.SweepMainEnds | 3rd/lua/lgc.c:1087-1099 | when nothing is left to sweep every object has the current white |
| GCMutator.StoreKeeps | 3rd/lua/lgc.c:135-161 | a store with the barrier its object calls for keeps the invariant, in every phase |
| GCMutator.SetRefsKeeps | 3rd/lua/lgc.c:545-552 | a store into an object that is not black while marking, such as a thread, needs no barrier |
| GCMutator.BarrierBackKeeps | 3rd/lua/lgc.c:172-182 | the barrier of a prototype whose closure cache changes keeps the invariant |
| GCMutator.NewKeeps | 3rd/lua/lgc.c:212-224 | allocating an object in any phase, also after the flip, keeps the invariant |
| GCMutator.NewUpvalKeeps | 3rd/lua/lfunc.c:63-71 | a new open upvalue, linked into its thread and captured by a closure, keeps the invariant |
| GCMutator.FindUpvalKeeps | 3rd/lua/lfunc.c:52-60 | an open upvalue that is found again, brought back if it was dead, may be captured |
| GCMutator.FindStringKeeps | 3rd/lua/lstring.c:137-147 | an interned string that is found again, brought back if it was dead, may be used |
| GCMutator.CloseInv | 3rd/lua/lfunc.c:89-107 | closing upvalues keeps the invariant in every phase |
| GCMutator.RootsKeep | 3rd/lua/lgc.c:999-1006 | the registry, the metatables and the running thread may change to anything that is reachable |
| GCMutator.RehashKeeps | 3rd/lua/lstring.c:64-92 | resizing the string table outside its sweep keeps the invariant |
| GCRuns.SingleStepKeeps | 3rd/lua/lgc.c:1040-1104 | every step of the collector keeps the invariant and leaves everything the program can reach as it was |
| GCRuns.ApplyKeeps | 3rd/lua/lgc.h:14-25 | every action of program or collector keeps the invariant |
| GCRuns.NeverFreesReachable | 3rd/lua/lgc.c:719-752 | main theorem: in no interleaving of stores with their barriers, allocations, captures, closings and collector steps is an object freed, or dead, that the program can still reach |
| GCRuns.BlackNeverHoldsWhite | 3rd/lua/lgc.h:14-25 | in every such run, while marking, no black object holds a white one |
| GCFull.AtomicExact | 3rd/lua/lgc.c:999-1037 | when no garbage was marked before, exactly the reachable objects survive the flip |
| GCFull.StepSmaller | 3rd/lua/lgc.c:1040-1104 | every step outside a pause brings the next pause nearer |
| GCFull.FullCollectionExact | 3rd/lua/lgc.c:1189-1211 | a full collection, begun in any phase, leaves exactly the reachable objects, as they were |
| GCProgram.AssignSeen | 3rd/lua/lvm.c:154-156 | a store writes the references whatever the colours and the phase; every other object, and the roots, stay |
| GCProgram.PushSeen | 3rd/lua/lvm.c:557-559 | the same for a write to a stack |
| GCProgram.AllocateSeen | 3rd/lua/lgc.c:212-224 | a new object has the kind asked for, holds nothing, is first in its list and is on the stack |
| GCProgram.CaptureSeen | 3rd/lua/lfunc.c:60-71 | a captured slot gets a new upvalue with its value at its place in the thread's list, and the closure holds it |
| GCProgram.ShareSeen | 3rd/lua/lfunc.c:52-59 | a slot that has an upvalue shares it, with the value that the slot has now |
| GCProgram.InternSeen | 3rd/lua/lstring.c:133-150 | a string of the table, dead or not, is on the stack |
| GCProgram.CloseSeen | 3rd/lua/lfunc.c:89-107 | of the upvalues that are closed the dead ones go and the others keep their values and are no longer open; the thread keeps the rest of its list, and nothing else changes |
| GCProgram.CollectorUnseen | 3rd/lua/lgc.c:1040-1104 | main theorem: after any run of program and collector the program reaches exactly the objects, with exactly the contents, that it would have on a machine that never frees or moves anything |
| GCProgram.StoredStays | 3rd/lua/lgc.c:135-161 | what is stored into a reachable object is there after any number of collector steps, whatever the phase of the store |
| Collector.GlobalState.MarkObject | 3rd/lua/lgc.c:243-295 | marking in place, with the gray list, is the function Mark |
| Collector.GlobalState.MarkValues | 3rd/lua/lgc.c:243-295 | marking the contents of an object, in order |
| Collector.GlobalState.Propagate | 3rd/lua/lgc.c:521-563 | one gray object is visited in place |
| Collector.GlobalState.PropagateEverything | 3rd/lua/lgc.c:566-568 | the loop ends and visits all gray objects |
| Collector.GlobalState.RemarkOpenUpvals | 3rd/lua/lgc.c:324-330 | the open upvalues of threads that are not marked are marked |
| Collector.GlobalState.MarkAtomic | 3rd/lua/lgc.c:999-1037 | the atomic step in place |
| Collector.GlobalState.SweepShortList | 3rd/lua/lgc.c:719-752 | sweeping a string bucket or a list of open upvalues in place |
| Collector.GlobalState.SweepAllgc | 3rd/lua/lgc.c:719-752 | sweeping at most n objects of allgc in place |
| Collector.GlobalState.BeginSweep | 3rd/lua/lgc.c:936-946 | entersweep in place |
| Collector.GlobalState.Step | 3rd/lua/lgc.c:1040-1104 | singlestep in place keeps the invariant, and everything that the program can reach |
| Collector.GlobalState.FullGc | 3rd/lua/lgc.c:1189-1211 | a full collection in place: the objects left are exactly those reachable before, with the same contents |
| Collector.GlobalState.CloseUpvals | 3rd/lua/lfunc.c:89-107 | luaF_close on the heap in place, with the colour check of luaC_checkupvalcolor: what CloseSeen says of the objects |
| Collector.GlobalState.Assign | 3rd/lua/lgc.c:135-161 | a store in place always writes the references and changes no other object; with its barrier it keeps the invariant when the stored object is reachable |
| Collector.GlobalState.NewObject | 3rd/lua/lgc.c:212-224 | allocation in place: the new object, empty and on the stack; it keeps the invariant in every phase |
| Ephemeron.TraverseSpec | 3rd/lua/lgc.c:378-413 | a visited ephemeron table has its strong parts marked, every value with a marked key marked, and is listed again if that may change |
| Ephemeron.PassDone | 3rd/lua/lgc.c:594-609 | after a pass every marked object is done again; a pass that marks nothing finds every table of its list settled |
| Ephemeron.ConvergeDone | 3rd/lua/lgc.c:594-609 | convergeephemerons terminates, by the number of white objects, with every listed table settled |
| Ephemeron.ConvergeExact | 3rd/lua/lgc.c:594-609 | it reaches the least fixpoint: an object is marked if and only if the ephemeron rule forces it from what was marked before |
| EphemeronCycle.AtomicExact | 3rd/lua/lgc.c:999-1016 | when every marked object that waits in no list is caught, atomic with retraversegrays and the convergence marks exactly what the ephemeron rule reaches from the roots and the marked objects |
| EphemeronCycle.AtOnceCaught | 3rd/lua/lgc.c:337-344 | a restart and propagation with nothing in between, as in a full collection, enter the atomic step in such a state: everything marked is done or waits |
| EphemeronCycle.CycleExact | 3rd/lua/lgc.c:999-1016 | so a full collection marks exactly what the ephemeron rule reaches from the roots |
| EphemeronRule.LeastIsGot | 3rd/lua/lgc.c:378-413 | the least set that the rule closes is what can be got at in finitely many steps: to what an object holds, to string keys, and to the value of an entry whose key is no object, a string, or already got at |
| EphemeronRule.CycleMarksGot | 3rd/lua/lgc.c:999-1016 | a full collection marks exactly what can be got at by such steps from the main thread, the running thread and the other roots |
| EphemeronRule.AtomicMarksGot | 3rd/lua/lgc.c:999-1016 | the atomic step, from a state in which nothing was missed: the same from the roots and what was marked before |
| EphemeronRule.ConvergeMarksGot | 3rd/lua/lgc.c:594-609 | the convergence alone: the same from what was marked before |
| EphemeronMisses.MissedExact | 3rd/lua/lgc.c:582-591 | in general, atomic marks exactly what is reached when the tables that it does not visit again, and whose contents were not all marked, are taken to hold nothing |
| EphemeronMisses.AtomicCompleteExactly | 3rd/lua/lgc.c:582-591 | it marks all that the program can get at if and only if what those tables hold is reached in another way as far as its keys are |
| EphemeronMisses.StoreLost | 3rd/lua/lgc.c:405-411 | a new object stored under a marked key in a marked table that only allweak lists, which takes no barrier since the table is gray, is reached but not marked |
| EphemeronMisses.SettingLoses | 3rd/lua/lgc.c:405-411 | this happens in every heap with a thread that holds an ephemeron table with a dead key and a live key, when the store comes after propagation |
| EphemeronMisses.ExampleLoses | 3rd/lua/lgc.c:405-411 | the smallest such heap, with three objects beside the thread |
| EphemeronMarker.WeakMarker.TraverseTable | 3rd/lua/lgc.c:378-413 | traverseephemeron in place, with the list it files the table on |
| EphemeronMarker.WeakMarker.ConvergeEphemerons | 3rd/lua/lgc.c:594-609 | the loop in place ends with exactly the forced objects marked |
| TableNodes.PutAtKeeps | 3rd/lua/ltable.c:405-440 | a key put in its free main position keeps every key on the chain of its main position |
| TableNodes.LinkBehindKeeps | 3rd/lua/ltable.c:430-436 | a key that collides with one in its own main position, linked behind it, keeps the chains |
| TableNodes.MoveAwayKeeps | 3rd/lua/ltable.c:419-429 | a colliding node that is out of its main position moves to the free node and the new key takes its place: the chains are kept, and a node away from its main position still collides with one that is in its own |
| TableNodes.OnChain | 3rd/lua/ltable.c:481-503 | a walk along a chain that has not met the key goes on towards it |
| TableSizes.CeilLog2 | 3rd/lua/lobject.c:55-70 | the least power of two that is not below the number, by the table of bytes |
| TableSizes.ComputeSizes | 3rd/lua/ltable.c:196-215 | the size is the largest power of two more than half of whose places are used, and the keys up to it are counted exactly |
| TableLookup.EntriesComplete | 3rd/lua/ltable.c:169-187 | every key with a value is met once, with that value |
| LuaTable.SizesFit | 3rd/lua/ltable.c:343-359 | the entries that stay in the hash part, with the new key, are as many as the size that rehash computes for it |
| TableCounts.SizesMean | 3rd/lua/ltable.c:196-267 | what the counts are for, on the map that the table is: the integer keys counted are its keys from 1 to 2^30 with the new one, the array size is right for them, and the live entries of both parts are its size |
| LuaTable.Table.SearchChain | 3rd/lua/ltable.c:481-503 | the search along the chain finds the key wherever it is, and only then |
| LuaTable.Table.Get | 3rd/lua/ltable.c:481-503 | luaH_get gives the one cell of the key, in the array or the hash part, or none |
| LuaTable.Table.GetFreePos | 3rd/lua/ltable.c:387-394 | a free node, or none only when every node is used |
| LuaTable.Table.Place | 3rd/lua/ltable.c:405-440 | a new key gets a node by one of the three ways, or there is no free node; no value changes |
| LuaTable.Table.NewKey | 3rd/lua/ltable.c:405-440 | luaH_newkey: errors for nil and NaN; otherwise the key has a cell afterwards and no value has changed; the recursion through rehash and resize ends |
| LuaTable.Table.SetKey | 3rd/lua/ltable.c:510-515 | luaH_set gives the cell of the key, new or old |
| LuaTable.Table.Set | 3rd/lua/ltable.c:510-515 | a store changes the table, seen as a finite map, at that key alone; nil removes the key |
| LuaTable.Table.Lookup | 3rd/lua/ltable.c:481-503 | a read answers as the map does |
| LuaTable.Table.Resize | 3rd/lua/ltable.c:304-334 | growing or shrinking either part keeps every value, reinserting never needs another rehash, and the nodes used are counted |
| LuaTable.Table.ResizeArray | 3rd/lua/ltable.c:337-340 | luaH_resizearray to a larger array part, as SETLIST calls it: the hash part always fits, and every value stays |
| LuaTable.Table.NumUseArray | 3rd/lua/ltable.c:229-251 | the elements of the array part are counted by slices of powers of two, exactly |
| LuaTable.Table.NumUseHash | 3rd/lua/ltable.c:254-267 | the live nodes and the integer keys among them are counted exactly |
| LuaTable.Table.CountKeys | 3rd/lua/ltable.c:343-355 | all keys, with the new one, are counted once |
| LuaTable.Table.Rehash | 3rd/lua/ltable.c:343-359 | the array part becomes the largest power of two of which more than half is in use, counting the new key, the hash part the least power of two that takes the rest; no value changes and there is room for the key |
| LuaTable.Table.Next | 3rd/lua/ltable.c:144-186 | luaH_next gives the first live entry behind the key, or the error for a key that has no cell, and only for such a key |
| LuaTable.Table.Traverse | 3rd/lua/ltable.c:169-187 | calling luaH_next from nil until it ends gives every entry exactly once |
| LuaTable.Table.TraverseModifying | 3rd/lua/ltable.c:144-186 | a traversal whose turns change or clear existing fields never meets an invalid key, gives no key twice and only keys that were in the table, and misses no field that was left alone |
| LuaTable.Table.GetInt | 3rd/lua/ltable.c:446-460 | luaH_getint reads the same value as luaH_get |
| LuaTable.Table.UnboundSearch | 3rd/lua/ltable.c:532-553 | the search beyond the array part ends at a boundary |
| LuaTable.Table.GetN | 3rd/lua/ltable.c:560-578 | the length is a boundary: the element there is not nil and the next is, or it is zero and the first is nil |
| LuaTable.TableRun | 3rd/lua/ltable.c:304-515 | main theorem: a table answers every sequence of stores and reads as a finite map does, through every rehash, every luaH_resize to sizes that fit and every growth for a list, and for every hash function |
| PatternSearch.OutcomesFit | 3rd/lua/lstrlib.c:410-510 | every match of the reference semantics ends inside the subject, behind its start, and so do its captures |
| Matcher.MatchState.FindClassEnd | 3rd/lua/lstrlib.c:242-263 | the end of a single-character class, or its error |
| Matcher.MatchState.MatchBracketClass | 3rd/lua/lstrlib.c:286-306 | membership in a set, with ranges, classes and complement |
| Matcher.MatchState.MatchBalance | 3rd/lua/lstrlib.c:325-343 | %b finds the place where the brackets first balance |
| Matcher.MatchState.StartCapture | 3rd/lua/lstrlib.c:374-385 | a capture is opened for the rest of the match and taken back when it fails |
| Matcher.MatchState.EndCapture | 3rd/lua/lstrlib.c:388-396 | the last open capture is closed for the rest and opened again when it fails |
| Matcher.MatchState.MaxExpand | 3rd/lua/lstrlib.c:346-358 | * and + try the rest from the longest repetition down |
| Matcher.MatchState.MinExpand | 3rd/lua/lstrlib.c:361-371 | - tries the rest from the shortest repetition up |
| Matcher.MatchState.Escape | 3rd/lua/lstrlib.c:427-467 | the escapes %b, %f and back references |
| Matcher.MatchState.ItemStep | 3rd/lua/lstrlib.c:468-505 | a single character with its suffix: ? tries one first |
| Matcher.MatchState.DoMatch | 3rd/lua/lstrlib.c:410-510 | match returns the first outcome of the list-of-successes semantics, or fails or raises its error as that does; a failure restores the capture level, the captures below it and the depth; the only other result is the depth limit |
| PatternSearch.NotTooComplex | 3rd/lua/lstrlib.c:410-415 | the reference semantics itself never reports the depth limit |
| PatternSearch.Search | 3rd/lua/lstrlib.c:600-622 | the search over positions gives the first match, and a pattern shorter than the depth limit never hits it |
| PatternSearch.NoSpecials | 3rd/lua/lstrlib.c:566-574 | the scan over the parts between zeros answers whether the pattern has a special character |
| PatternSearch.LMemFind | 3rd/lua/lstrlib.c:514-533 | the first occurrence, or none |
| PatternSearch.StrFind | 3rd/lua/lstrlib.c:577-626 | string.find from any init, counted from either end: the first plain occurrence on request or for patterns without specials, otherwise the matcher's first match, and nothing past the end |
| PatternSearch.PlainSearchExact | 3rd/lua/lstrlib.c:566-626 | the plain search agrees with the matcher on every subject if and only if the pattern has no closing parenthesis, which is not among the special characters |
| PatternClasses.NamedIs | 3rd/lua/lstrlib.c:266-283 | %a, %c, %d, %g, %l, %p, %s, %u, %w, %x and %z are given ranges of bytes, in upper case all others, and any other escaped byte is itself |
| PatternClasses.SetEnds | 3rd/lua/lstrlib.c:242-263 | a set written as a list of bytes, ranges and escapes ends at its closing bracket |
| PatternClasses.SetContains | 3rd/lua/lstrlib.c:286-306 | it contains exactly the bytes of its elements |
| PatternLaws.ItemReads | 3rd/lua/lstrlib.c:309-321 | a dot, a byte, an escape or a set, with its complement, stands for exactly the bytes of its class |
| PatternLaws.Once | 3rd/lua/lstrlib.c:500-502 | an item without a suffix takes one character of its class |
| PatternLaws.Optional | 3rd/lua/lstrlib.c:482-490 | with ? the result is that after one character, if the rest has one then, and otherwise that after none |
| PatternLaws.Lazy | 3rd/lua/lstrlib.c:361-371 | with - the result is that of the rest after the least number of characters of the class after which it has one |
| PatternLaws.Greedy | 3rd/lua/lstrlib.c:346-358 | with * after the greatest |
| PatternLaws.GreedyOnce | 3rd/lua/lstrlib.c:491-496 | with + after the greatest that is at least 1 |
| PatternLaws.Fails | 3rd/lua/lstrlib.c:346-371 | with none of these numbers there is no match |
| PatternLaws.Ends | 3rd/lua/lstrlib.c:413-430 | the end of the pattern ends the match, and a dollar there asks for the end of the subject |
| PatternLaws.Captures | 3rd/lua/lstrlib.c:374-396 | parentheses open a capture or note a position, at most 32, and close the last that is open with the text since then |
| PatternLaws.Balanced | 3rd/lua/lstrlib.c:325-343 | %bxy goes on where as many y as x have been read for the first time |
| PatternLaws.Frontier | 3rd/lua/lstrlib.c:441-456 | %f matches between a character outside the set and one in it, with zeros around the subject |
| PatternLaws.Backward | 3rd/lua/lstrlib.c:399-407 | %1 to %9 match the text of a finished capture again, and are errors for others |
| PatternLaws.NoEnd | 3rd/lua/lstrlib.c:242-263 | an escape at the end and a set that is never closed are the errors they are |
| PatternLaws.FirstPosition | 3rd/lua/lstrlib.c:600-622 | the answer of a search is the result at the first position that has one, from the initial position on; at that one only if the pattern is anchored |
| PatternLaws.Example | 3rd/lua/lstrlib.c:346-371 | in "aXbX" the pattern .-X ends at the first X and .*X at the last |
| Quicksort.Sorter.Median | 3rd/lua/ltablib.c:184-204 | the first, the middle and the last element are put in order, within the part |
| Quicksort.Sorter.ScanUp | 3rd/lua/ltablib.c:211-216 | the scan stops at an element not below the pivot; for a weak order it never leaves the part |
| Quicksort.Sorter.Partition | 3rd/lua/ltablib.c:205-229 | the pivot ends between the parts; for any comparison only elements of the part move |
| Quicksort.Sorter.AuxSort | 3rd/lua/ltablib.c:184-245 | for any comparison, even one that changes its mind, the part stays a permutation and nothing outside it changes; for a strict weak order it is sorted and no error is raised; the recursion is at most logarithmically deep |
| Quicksort.Sorter.Sort | 3rd/lua/ltablib.c:247-259 | the same for the whole table |
| ChunkRoundTrip.FunctionBack | 3rd/lua/lundump.c:171-182 | reading the bytes of any prototype tree, whatever follows them, gives it back, without its debug data if that was stripped |
| ChunkRoundTrip.ChunkBack | 3rd/lua/lundump.c:190-228 | the same for a whole chunk with its header |
| ChunkRoundTrip.BytesTell | 3rd/lua/ldump.c:139-150 | two prototypes with the same bytes are the same, and no chunk is a proper beginning of another |
| ChunkRoundTrip.StrippedTwice | 3rd/lua/ldump.c:120-137 | stripping loses something only once |
| ChunkIO.DumpState.DumpBlock | 3rd/lua/ldump.c:29-37 | bytes go to the writer until it fails once; what was written is a prefix of what was wanted |
| ChunkIO.DumpState.DumpString | 3rd/lua/ldump.c:61-76 | a string with its size and its closing zero; no string has size 0 |
| ChunkIO.DumpState.DumpFunction | 3rd/lua/ldump.c:139-150 | the recursive dump writes the bytes of the prototype tree |
| ChunkIO.DumpState.Dump | 3rd/lua/ldump.c:162-173 | luaU_dump writes the chunk and returns the writer's status |
| ChunkIO.ZIO.Fill | 3rd/lua/lzio.c:21-33 | the next byte comes from the next chunk of the reader, or the input ends |
| ChunkIO.ZIO.ReadBytes | 3rd/lua/lzio.c:46-65 | luaZ_read gives the next n bytes however the reader splits them, or says how many are missing |
| ChunkIO.LoadState.LoadString | 3rd/lua/lundump.c:72-84 | a string is read back or the input is too short |
| ChunkIO.LoadState.LoadHeader | 3rd/lua/lundump.c:190-201 | only the exact header is accepted |
| ChunkIO.LoadState.LoadFunction | 3rd/lua/lundump.c:171-182 | loading consumes exactly what the reading function says, or fails as it does |
| ChunkIO.LoadState.Undump | 3rd/lua/lundump.c:206-228 | luaU_undump over a chunked reader is the reading function on the whole bytes |
| ChunkIO.DumpAndLoad | 3rd/lua/lundump.c:206-228 | main theorem: dumping and loading again, through any split into chunks, gives the same nested prototype, or the same without debug data |
| ChunkLaws.HeaderBytes | 3rd/lua/lundump.c:244-258 | the eighteen bytes of the header |
| ChunkLaws.HeaderErrors | 3rd/lua/lundump.c:190-201 | what is said of other headers: no chunk, another version, other sizes, a damaged tail, or too short |
| ChunkLaws.FieldBytes | 3rd/lua/ldump.c:139-150 | where the fixed fields and the instructions of any function are, low-order byte first |
| ChunkLaws.ConstantBytes | 3rd/lua/ldump.c:80-104 | the tags and the bytes of each kind of constant, and of a missing string |
| ChunkLaws.OuterBytes | 3rd/lua/ldump.c:109-150 | all bytes of a function with one of everything, with another inside it: the order of all parts |
| ChunkLaws.StrippedBytes | 3rd/lua/ldump.c:120-137 | the bytes in place of the debug data that was stripped |
| Quoting.AddQuoted | 3rd/lua/lstrlib.c:833-855 | the quoter's loop, with three digits for a control byte before a digit, writes the quoted form of any string in any locale |
| Quoting.BodyBack | 3rd/lua/llex.c:343-398 | reading what was written gives the string back, stops behind the closing quote and counts the newlines |
| Quoting.QuoteExact | 3rd/lua/lstrlib.c:833-855 | lexing the quoter's output gives back every string if and only if the locale counts the carriage return as a control character |
| StringLexer.LexState.IncLineNumber | 3rd/lua/llex.c:148-156 | a newline of one or two characters is skipped and counted once |
| StringLexer.LexState.ReadDecEsc | 3rd/lua/llex.c:329-340 | at most three decimal digits |
| StringLexer.LexState.ReadString | 3rd/lua/llex.c:343-398 | read_string on a chunked input reads the string, or reports the error, that the reference reading says |
| StringLexer.QuoteAndLex | 3rd/lua/llex.c:343-398 | main theorem: quoting any byte string and lexing it, however it is split, gives the string back in every locale that counts the carriage return as a control character |
| StringLiterals.EscapeReads | 3rd/lua/llex.c:357-388 | every escape sequence gives the character it stands for: the named ones, hexadecimal, decimal, a line break as a line feed, and \z nothing |
| StringLiterals.LiteralReads | 3rd/lua/llex.c:343-398 | any literal, as a list of characters and escape sequences, is read as the list of what they stand for, and the lines it goes over are counted |
| StringLiterals.NoPiece | 3rd/lua/llex.c:343-388 | behind any such list, the end of the input or of the line, an unknown escape, missing hexadecimal digits and a decimal above 255 give their errors |
| StringLiterals.ReadLiteral | 3rd/lua/llex.c:343-398 | the lexer in place reads the literal as that, however the input is split |
| StringLiterals.CharWritten | 3rd/lua/lstrlib.c:833-855 | how %q writes each character, with as few digits as the next character allows |
| Precedence.PrintBack | 3rd/lua/lparser.c:1037-1064 | an expression printed with only the parentheses that its place needs is parsed to the same tree, and the loop goes on with what follows |
| Precedence.ExpressionBack | 3rd/lua/lparser.c:1019-1064 | expr gives back the same tree and stops at the first token that cannot extend it |
| Precedence.ParensNeeded | 3rd/lua/lparser.c:1019-1031 | where the priority table does not let an expression stand bare before an operator and an operand, leaving out the parentheses changes the result |
| Precedence.ShortestPrint | 3rd/lua/lparser.c:1019-1064 | no shorter text is parsed to the same tree: deleting any tokens that were printed, such as one pair of parentheses anywhere, changes the tree or where the parser stops |
| Precedence.PrintNests | 3rd/lua/lparser.c:1037-1064 | the levels that parsing a printed expression opens are those of its tree: chains that group to the left add none, and what follows does not count |
| ExpressionParser.Parser.ParseSub | 3rd/lua/lparser.c:1037-1064 | subexpr over the token stream is the reference parser if and only if the levels that enterlevel counts stay within the limit; otherwise the error is too many levels |
| ExpressionParser.PrintAndParse | 3rd/lua/lparser.c:1037-1069 | main theorem: printing and parsing gives the tree back, whatever follows, if and only if the nesting of the tree with the levels already open is within the limit |
| PrecedenceLaws.TableIsList | 3rd/lua/lparser.c:1019-1031 | the priority table says what the list of classes in section 3.4.7 of the Lua 5.2 manual says, with .. and ^ grouping to the right |
| PrecedenceLaws.GrammarExactly | 3rd/lua/lparser.c:1037-1069 | a text without parentheses is parsed to a tree if and only if the tree is grouped as that list says and has that text |
| PrecedenceLaws.TwoOperators | 3rd/lua/lparser.c:1019-1064 | a op1 b op2 c for every pair of operators: the tighter class groups first, equal ones to the left, or to the right for .. and ^ |
| PrecedenceLaws.UnaryBefore | 3rd/lua/lparser.c:1033-1048 | an operator of one operand before a op b takes a ^ b whole and otherwise a alone |
| PrecedenceLaws.ParseText | 3rd/lua/lparser.c:1037-1069 | the parser over the token stream gives the grouped tree of a text, whatever follows, or too many levels |
| PrecedenceLaws.ChainsNest | 3rd/lua/lparser.c:1037-1064 | n operators in a row open one level each, except in chains that group to the left |
| StringBuckets.TakeBucket | 3rd/lua/lstring.c:74-77 | a bucket is emptied and its chain is in hand |
| StringBuckets.MoveFirst | 3rd/lua/lstring.c:77-84 | the first string in hand goes to the front of a bucket; every other string stays where it is, once |
| StringBuckets.Unlink | 3rd/lua/lgc.c:737-740 | a dead string at any place of a bucket is taken out; the chain and all others stay |
| StringBuckets.FewerBuckets | 3rd/lua/lstring.c:86-90 | when every string belongs below the new size the slice that vanishes is empty |
| StringTables.HashOf | 3rd/lua/lstring.c:51-58 | the loop computes the hash that the table is built on |
| StringTables.StringTable.MoveBucket | 3rd/lua/lstring.c:74-85 | the inner loop puts every string of a bucket where it belongs in a table of the new size |
| StringTables.StringTable.Rehash | 3rd/lua/lstring.c:64-92 | growing before or shrinking behind the loop, in place, keeps every string and puts each in its bucket |
| StringTables.StringTable.SweepBucket | 3rd/lua/lgc.c:719-752 | exactly the dead strings of the bucket are freed and counted off |
| StringTables.StringTable.SweepStep | 3rd/lua/lgc.c:1068-1076 | a collector step sweeps up to 40 buckets and gets nearer to the end of the phase |
| StringTables.StringTable.Resize | 3rd/lua/lstring.c:64-92 | luaS_resize first ends a sweep; the strings that go were dead |
| StringTables.StringTable.CheckSizes | 3rd/lua/lgc.c:778-786 | a table less than half full is halved, and only dead strings go |
| StringTables.StringTable.Find | 3rd/lua/lstring.c:133-148 | the search in the bucket finds the string with these bytes, if there is one |
| StringTables.StringTable.NewShrStr | 3rd/lua/lstring.c:116-127 | a crowded table grows; the new string is stored and counted |
| StringTables.StringTable.Intern | 3rd/lua/lstring.c:133-150 | the stored string with these bytes, alive again if it was dead, or a new one; no other string comes and only dead ones go |
| StringTables.StringTable.NewLStr | 3rd/lua/lstring.c:156-165 | short strings are interned, long ones are new objects |
| StringTables.StringTable.EqStr | 3rd/lua/lstring.c:45-48 | comparing short strings by address and long ones by contents tells exactly whether the bytes are equal |
| StringTables.StringTable.SameObject | 3rd/lua/lstring.h:31-34 | two stored strings are one object exactly when their bytes are equal |
| StringTables.StringTable.OnceInBucket | 3rd/lua/lstring.c:64-92 | a stored string is in the bucket of its hash once, and in no other |
| StringTables.StringTable.UseCounted | 3rd/lua/lstring.c:121-125 | the use counter is the number of stored strings |
| UpvalueSpec.CloseKeepsReads | 3rd/lua/lfunc.c:89-107 | closing changes nothing that any closure reads |
| UpvalueSpec.CloseParts | 3rd/lua/lfunc.c:89-107 | after closing, writes to the slots are not seen by the closures, nor theirs by the slots |
| UpvalueSpec.SharedVariable | 3rd/lua/lvm.c:401-417 | before, two closures that captured one slot and the slot itself see each other's writes |
| UpvalueLists.InsertKeeps | 3rd/lua/lfunc.c:52-65 | a new upvalue between those of higher and of lower slots keeps the list strictly descending |
| UpvalueCells.NewUp | 3rd/lua/lfunc.c:63-71 | capturing a slot for the first time gives its variable one upvalue, and no two upvalues one variable |
| UpvalueCells.CloseFirst | 3rd/lua/lfunc.c:92-106 | closing the head of the list moves the value, or frees the upvalue if it is dead |
| UpvalueCells.RenewUps | 3rd/lua/lfunc.c:89-107 | once only lower slots are open, the closed slots are variables of their own |
| Upvalues.LuaState.FindUpval | 3rd/lua/lfunc.c:47-72 | the upvalue open at the slot if there is one, and then none is made; otherwise a new one at its place in the list |
| Upvalues.LuaState.SetUpval | 3rd/lua/lvm.c:595-599 | a write through an upvalue, open or closed, is a write to the variable |
| Upvalues.LuaState.GetUpval | 3rd/lua/lvm.c:580-583 | a read through an upvalue is a read of the variable |
| Upvalues.LuaState.PushClosure | 3rd/lua/lvm.c:401-417 | the new closure names the variables that its descriptions say, and is put in its register |
| Upvalues.LuaState.Close | 3rd/lua/lfunc.c:89-107 | exactly the open upvalues at or above the level are closed, and the state with cells only gives those slots new variables |
| Upvalues.LuaState.SetSlot | 3rd/lua/lvm.c:557-559 | a write to a register is a write to the variable in it |
| Upvalues.LuaState.LoadMain | 3rd/lua/lfunc.c:39-45 | an upvalue that was never on the stack |
| MD5Driver.LengthExact | 3rd/lua-md5/md5.c:163-167 | the two length words are those of RFC 1321, section 3.2, if and only if the high one is below 8, as for every message shorter than 2^32 bytes |
| MD5Driver.NextBlock | 3rd/lua-md5/md5.c:200-211 | each turn of the loop takes exactly the next block of the padded message: a full one, one with the mark, or the last with the length |
| MD5Driver.NextIs | 3rd/lua-md5/md5.c:92-146 | the operation at each place of the four loops is the operation of section 3.4 of RFC 1321 with that number |
| MD5Driver.OrderIs | 3rd/lua-md5/md5.c:103-146 | the computed indices give the words in the order of the tables in section 3.4 |
| MD5Driver.Digest | 3rd/lua-md5/md5.c:89-147 | the four loops in place are the 64 operations of section 3.4 |
| MD5Driver.Converte | 3rd/lua-md5/md5.c:176-191 | the block and the status: full, with the mark, or with room for the length |
| MD5Driver.WordsToBytes | 3rd/lua-md5/md5.c:68-77 | the registers as bytes, low-order first |
| MD5Driver.Md5 | 3rd/lua-md5/md5.c:195-213 | main theorem: the loop ends, feeds digest exactly the blocks of the padded message in order, and the output is the message digest of RFC 1321 whenever the length fits |
| MD5Words.FBits | 3rd/lua-md5/md5.c:41 | F takes each bit from y where x has a one and from z elsewhere |
| MD5Words.GBits | 3rd/lua-md5/md5.c:42 | G takes it from x where z has a one and from y elsewhere |
| MD5Words.HBits | 3rd/lua-md5/md5.c:43 | H is the parity of the three bits |
| MD5Words.IBits | 3rd/lua-md5/md5.c:44 | I is the bit of y, changed where x has a one or z a zero |
| MD5Words.RotateIs | 3rd/lua-md5/md5.c:38 | a rotation multiplies by the power of two modulo 2^32 - 1 |
| MD5Sines.SineTable | 3rd/lua-md5/md5.c:48-65 | each of the 64 constants is the integer part of 4294967296 abs(sin(i)), for any functions with the addition theorems and with values at 1 between the partial sums of the series |
| MD5Vectors.EmptyDigest | 3rd/lua-md5/md5.c:195-213 | MD5 ("") = d41d8cd98f00b204e9800998ecf8427e, from the test suite in RFC 1321 |
| MD5Vectors.AbcDigest | 3rd/lua-md5/md5.c:195-213 | MD5 ("abc") = 900150983cd24fb0d6963f7d28e17f72 |
| MD5Vectors.DigitsDigest | 3rd/lua-md5/md5.c:195-213 | eight times "1234567890", in two blocks: 57edf4a22be3c955ac49da2e2107b67a |
| Framing.DispatchKeeps | gateway-src/gate_main.c:195-225 | one chunk of a stream of long enough frames: the next frame is handed on whole or none is, and nothing is lost |
| Framing.LongFramesConserve | gateway-src/gate_main.c:195-225 | for frames of at least six bytes, split in any way: what came in is always the frames handed on, a pending header and the buffered bytes |
| Framing.ConservesExactly | gateway-src/gate_main.c:204-223 | that holds for a stream, for every way to split it, if and only if no body is shorter than six bytes |
| MessageBuffers.OthersKeep | common-src/databuffer.h:94-125 | whatever one buffer does with the shared pool, the list and the bytes of every other one stay |
| MessageBuffers.MessagePool.Grow | common-src/databuffer.h:102-117 | a block of 1023 messages, the first for the caller and the others linked |
| MessageBuffers.MessagePool.Take | common-src/databuffer.h:95-117 | a message that no list has |
| MessageBuffers.DataBuffer.Push | common-src/databuffer.h:94-125 | a piece is appended |
| MessageBuffers.DataBuffer.ReturnMessage | common-src/databuffer.h:51-64 | the head goes back to the pool, without its buffer |
| MessageBuffers.DataBuffer.Read | common-src/databuffer.h:67-91 | the first bytes, over as many pieces as it takes; emptied pieces go back to the pool and no message is lost |
| MessageBuffers.DataBuffer.ReadHeader | common-src/databuffer.h:128-146 | the header is read once two bytes are there; the size is given once the body is there |
| MessageBuffers.DataBuffer.Clear | common-src/databuffer.h:154-159 | every message goes back to the pool |
| MessageBuffers.DataBuffer.DispatchMessage | gateway-src/gate_main.c:195-225 | on the linked pieces, dispatching a chunk is the function Framing.Dispatch |
| HashIdSpec.InsertKeeps | common-src/hashid.h:94-115 | a free slot that takes an id, at the head of its chain, keeps every used slot on the chain of its id |
| HashIdSpec.RemoveKeeps | common-src/hashid.h:67-91 | unlinking a slot from its chain keeps the others on theirs |
| HashId.Index.constructor | common-src/hashid.h:24-41 | an index with every slot free |
| HashId.Index.Lookup | common-src/hashid.h:55-64 | the slot of the id, or -1 exactly if it has none |
| HashId.Index.Full | common-src/hashid.h:118-120 | full exactly when no slot is free |
| HashId.Index.FindFree | common-src/hashid.h:97-103 | an index that is not full has a free slot, and the search around the end finds it |
| HashId.Index.Insert | common-src/hashid.h:94-115 | the id gets a slot that was free; no other changes |
| HashId.Index.Remove | common-src/hashid.h:67-91 | the id's slot is freed, or -1 exactly if it has none; no other changes |
| GatewaySpec.StepKeeps | gateway-src/gate_main.c:228-289 | every event keeps: not too many connections, a registered server is connected, and every other that passed for a server was asked to leave |
| GatewaySpec.AlwaysInv | gateway-src/gate_main.c:228-289 | the same after every sequence of events |
| GatewaySpec.SidChanges | gateway-src/gate_main.c:113-121 | the server id is set only by a handshake when none is registered, and unset only when its own socket has closed |
| GatewaySpec.ServerStays | gateway-src/gate_main.c:258-272 | in every run without its closing a registered server stays registered and connected |
| GatewaySpec.OneServer | gateway-src/gate_main.c:113-121 | after every run, a connection that passes for a server and was not asked to leave is the registered one |
| GatewaySpec.BufferIsOwn | gateway-src/gate_main.c:227-289 | whatever other sockets do in between, a connection that was not asked to leave holds what its own chunks make of its buffer |
| GatewaySpec.StreamConserved | gateway-src/gate_main.c:195-241 | so the bytes of its stream are the frames handed on and what its buffer holds |
| GatewayRoutes.ReadsBackExactly | gateway-src/gate_main.c:78-88 | an id that was written into a frame is read back if and only if it is below 2^15 with a low byte below 2^7 where plain char is signed, and below 2^16 where it is not |
| GatewayRoutes.ClientForwards | gateway-src/gate_main.c:136-156 | a client's frame goes to the registered server only, with the low 16 bits of the client's id in it and the rest unchanged |
| GatewayRoutes.AnswerExactly | gateway-src/gate_main.c:157-180 | a server's frame for a connected client reaches it if and only if its id can be read back and it does not have the first slot |
| GatewayRoutes.AnswersMixed | gateway-src/gate_main.c:157-180 | answers for a client with an id of 2^16 or more never reach it, and reach the client whose id has the same low bits if that is there |
| GatewayRoutes.SendsWithin | gateway-src/gate_main.c:136-193 | in every reachable state nothing is sent but to the server's id or a connected socket, and to others than the server only for one that has passed for a server |
| GatewayLaws.HelloSeen | gateway-src/gate_main.c:90-134 | a frame with message number 100: the digest in it makes the connection a client, the server or a debug client; a second server and any other digest are asked to leave, and nothing else changes |
| GatewayLaws.MessageSeen | gateway-src/gate_main.c:136-193 | any other frame changes no connection; strangers, and clients without a server, are asked to leave |
| GatewayLaws.PiecesSeen | gateway-src/gate_main.c:195-225 | a frame does the same however it is split into chunks |
| GatewayLaws.ClientSends | gateway-src/gate_main.c:136-156 | the bytes that the server gets for a client's frame |
| GatewayLaws.ServerSends | gateway-src/gate_main.c:157-180 | the bytes that a client gets for a server's frame, or the server when the client is gone |
| GatewayLaws.OthersSeen | gateway-src/gate_main.c:227-289 | what the other events do to the connections |
| Gateways.Gate.Handshake | gateway-src/gate_main.c:90-134 | the three digests, the refusal of a second server and of anything else, in place |
| Gateways.Gate.HandleMsg | gateway-src/gate_main.c:136-193 | frames are routed as GatewayRoutes says; a client without a server and an unknown connection are refused, in place |
| Gateways.Gate.OnAccept | gateway-src/gate_main.c:273-287 | a slot for the new id unless all are in use; index and records stay in step |
| Gateways.Gate.OnClose | gateway-src/gate_main.c:258-272 | the id's slot and record are cleared, and the server id if it was this one |
| Gateways.Gate.GateDispatch | gateway-src/gate_main.c:323-328 | the queue of events, one after the other, is the run of the state machine |
| Gateways.Gate.DispatchSocketMessage | gateway-src/gate_main.c:227-289 | every event, in place, does what its step says, sends what GatewayRoutes says and keeps the index an injective map from live ids to the slots whose records hold them, with the count of live ids |

## Left out

- Code generator: arithmetic, concatenation, calls, upvalues, indexing, loops, gotos and the `if` whose block begins with `break` or `goto`, nested functions, constant folding and line information; descriptors are values, not pointers; the limits on registers, jump distance and constants are not errors of the model.
- Floating point: numbers are opaque values with an equality and an order.
- Garbage collector: finalizers, generational mode, emergency collection, fixed objects, pacing numbers, the closure cache's reuse, and weak tables while the program runs; a stack slot and an open upvalue over it are written by two steps.
- Ephemerons: `clearkeys`, `clearvalues`, the second convergence after the finalizers, and the tables with weak values, which wait for the atomic step in lists of their own.
- LuaTable.Table.Resize: requires sizes that fit, as all callers pass them (with smaller ones the vanishing slice is read while a nested rehash may move it), and models neither dead keys nor the error for more than 2^30 nodes.
- LuaTable.TableRun: a resize to sizes that do not fit, which no caller asks for, is skipped.
- LuaTable.Table.TraverseModifying: keys that the collector declares dead between two turns are not modelled.
- Matcher: `gsub`, `gmatch` and the locale's character classes beyond the C locale.
- Quicksort.Sorter.Sort: a comparison that raises an error or changes the table while it is sorted is not modelled.
- Chunks: one header, of a 64-bit little-endian machine; a missing string constant and more upvalue names than upvalues, which are undefined in C, are errors of the model; an unknown constant tag gives nil, as in C without assertions.
- Quoting: other conversions of `string.format`, long brackets and the limits of the token buffer.
- Parser: calls, indexing, table constructors, function bodies and statements are not parsed; a name or a constant stands for a prefix expression.
- Strings: the size of a table is a power of two wherever the engine makes one, so the mask of `lmod` is modelled as a remainder; the colours of strings are one flag, dead or not; memory limits.
- Upvalues: the doubly linked ring `uvhead`, which only the collector walks, and coroutines; sweeping a thread's list of open upvalues is in the collector's part.
- MD5Driver.PutLength: the length is a number without a bound, so the overflow of `len<<3` for messages of 2^60 bytes and more is not modelled.
- MessageBuffers.DataBuffer.ReadHeader: headers of two bytes, the only ones the gateway asks for; so the branch for frames of 16M and more is dead.
- Gateway: the debug client's Lua dispatch, log output, the remote name, and who frees a buffer; a connection's buffer in `Gateways.Gate` is the value that a `MessageBuffers.DataBuffer` stands for.
- Gateways.Gate.DispatchSocketMessage: requires the socket layer's promise that an accepted id is positive and not in use; sockets, polling and threads are not modelled.
- `luaO_int2fb`, `luaO_fb2int` and the field macros of `lopcodes.h`: routine arithmetic on small numbers; instructions are a datatype.
- The ring queues and `hashmap.h`: a routine queue and a routine chained map.
- Library wrappers, the socket server, `lproto` and process start-up.
