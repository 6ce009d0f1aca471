# Verified models of the Zend Engine 1.0 cores

Dafny models of the hand-written cores of the Zend Engine 1.0 (PHP 4.0.7), each proved against what it is for.

**The control-flow compiler and the virtual machine.** `Source` gives structured scripts a meaning, and
`SourceLaws` says what that comes to, construct by construct. `Opcodes` gives op arrays one, as a machine with a program
counter, temporaries and the table of loops that break and continue go through. `Codegen` says what code a script is to have; `Emitters` and `Compiler` produce it the way `zend_compile.c`
does: one pass, opcodes appended to a growing array, jumps patched when their target becomes known, if/elseif exits
collected in jump lists, loops and switches entered in the loop table. `Executor` is the dispatch loop. The main
results: the emitters produce exactly the specified code, no jump being patched twice (every patch requires the slot to
be still open), and every jump leads into the op array, in code that is never run as well (`JumpRanges`); the compiled
script and the source script have the same endings - the value returned or the fatal error of a break that is too deep,
the variables, everything echoed, every notice - and run forever in the same cases (`EndToEnd` puts it together); and no
run of a compiled script leaves the op array or the loop table. The operators on values are left uninterpreted, so all of
it holds for any choice of them.

**Copy-on-write with reference sets.** `Zvals` is memory with reference-counted zvals shared by slots, locks and the
garbage list. `RefSets` and `ReferenceMeaning` are the meaning aimed at: assignment copies, and only the members of one
reference set change together. `CowMoves`, `Pendings` and `CopyOnWrite` carry the opcodes out on shared zvals. Operators
read their operands late, when they are carried out; `LateReading` is the meaning with operands read so, with the
reference flags that it depends on. `ReferenceScripts` shows that the opcodes make exactly that of every script, with
every count being, in every state in between, the number of slots, locks and garbage entries that hold the zval.
`LateReading.ScriptAgreesExactly` says exactly when late reading is the meaning aimed at; it is in every script without
references, which then is one of the compiler's source language (`LateReading.PlainOutcome`).

**The ordered hash table.** `Buckets`, `HashLayout` and `HashTable` thread every node onto a collision chain and onto the
list of all elements; `OrderedMap` is the insertion-ordered map that the table refines. Covered are initialisation, add,
update, index insert, find, delete, growth with rehash, clean, apply with deletion, the internal pointer, sort, compare,
copy and merge (`HashTableOps`), numeric keys (`NumericKeys`) and table sizes (`TableSizes`).

**Inheritance.** `Inheritance` builds classes on those tables and shows that early and late binding agree along chains
of any length, and give each class, name by name, the methods and properties it is to have.

**The configuration parser.** `IniTables` holds the LALR(1) tables of `zend_ini_parser.c`, `IniMachine` the parser as a
machine, `IniParser` the engine on its two growing stacks. `IniSoundness` and `IniCompleteness` relate it to the grammar
(`IniGrammar`): it accepts exactly the texts of the grammar, up to the depth the stack allows, and calls back with their
meaning. Before an error it has called back for all statements that were complete.

**The request allocator.** `Arena` says what `zend_alloc.c` keeps track of and what its operations do to it; `Allocator`
does it on headers linked by address and on the array and counters of the cache. `ArenaSafety` shows that every operation
keeps every block on exactly one list, every cached block once in the row of its size class, and no two blocks
overlapping, and that `allocated_memory` is the sum of the rounded sizes; `ArenaRuns` says what whole runs look like to
the program.

**String increment** (`StringIncrement`) is the successor of a mixed-radix odometer, and **the thread-safe resource
manager** (`Tsrm`) keeps its invariant under every interleaving of its threads.

## Findings

- `zend_hash_del` (Zend/zend_hash.c:486) lets an integer key through when it equals the hash value of the string asked
  for. `HashTable.DelKeyOrIndex` states exactly when the right element goes: when no such integer key comes first on
  the chain. For a key that is not stored, `HashTable.Del` leaves the table as it is if and only if that integer key is not
  live. `DeletesAnother`: it happens with every hash function and every string key that is no numeral.
- Binding a variable to itself (Zend/zend_execute.c:289-291) takes it out of its reference set.
  `ReferenceMeaning.SelfBindingKeeps`: nothing changes if and only if it is in no set; `SelfBindingLeaves` is a script.
- `zend_hash_sort` returns early for a single element and so does not renumber it (Zend/zend_hash.c:1099); `HashTable.Sort`
  says so.
- The next free integer key of a table exceeds all integer keys as long as the key ULONG_MAX has not been used; after
  that it has wrapped around to 0, and a next-insert may fail.
- The size field of a block has 30 bits (Zend/zend_alloc.h:48). `allocated_memory` stays the sum of the rounded sizes exactly
  when a request, as an unsigned int, is below 2^30 (`ArenaSafety.EmallocAccounts`, `EreallocAccounts`,
  `ArenaRuns.AccountWrong`); a block is as long as requested exactly when the rounding does not wrap around
  (`EmallocServes`). Lists, cache and disjointness hold whatever the requests (`ArenaRuns.RunKeeps`).
- A carry in `increment_string` is lost at a character that is neither letter nor digit (`StringIncrement.CarryLost`).
- In a configuration file `key=` at the very end of the input is a syntax error although rule 12 of the grammar provides
  for it: the token of that rule has code 262, while the scanner's NUL character has code 0, which the engine takes for
  the end of the input (`IniParser.NoValueAtEnd`).
- Operands are read when an operator is executed, not when they are fetched. So after `$b = 1; $a =& $b;` the value of
  `$a + ($a = 5)` is that of 5 + 5 (`ReferenceScripts.RunLate`, `LateReading.LateValue`), and it is so after `$a =& $a`, too,
  where the variable is in no set. An operator gets the operands that reading at once would give it if and only if its left
  operand is not the zval of a variable with the reference flag to whose set the right operand last writes another value
  (`LateReading.OperatorExactly`; for whole scripts `ScriptAgreesExactly`).

## Reading the model

- Addresses of zvals and of hash nodes are numbers, and memory is a map from them that the classes update; freeing takes
  an address out. Allocation always succeeds, at some address not in use, except in the request allocator, whose memory
  comes from malloc and realloc at given addresses, or not at all. There size_t and pointers have 64 bits, an int 32.
- An unsigned long has 32 bits (`ULONG_RANGE`); reference counts and element counts are unbounded.
- Hash values come from an arbitrary function of the key. String keys of a hash table include their terminating NUL; a
  node with an empty key is one with an integer key, as in the source.
- The data destructor of a table is represented by `released`, the data it has been called on, in order. A sort routine
  is a permutation chosen by the elements; comparison functions and apply callbacks are functions of the data.
- In `Source` a switch runs the first matching case. With several defaults the last one counts, as the compiler has it.
  A break or continue level below one counts as one. Returning from inside a switch emits the frees the compiler emits;
  frees themselves do nothing.
- `Execution.Execute` runs a given number of rounds of the dispatch loop, which need not end.
- The fuel of `Source` only decides whether there is an answer yet (`Correctness.FuelIrrelevant`).

## Model

| member | source | states |
|---|---|---|
| SourceLaws.FalseValues | Zend/zend_execute.h:66-98 | the false values are null, false, 0, "" and "0", and no others |
| SourceLaws.ReadLaw | Zend/zend_execute.c:557-592 | an unset variable reads as null, with a notice |
| SourceLaws.AssignOpLaw | Zend/zend_execute.c:1152-1174 | operator assignment: right-hand side first, an unset variable counting as null with a notice |
| SourceLaws.IncDecLaw | Zend/zend_execute.c:1175-1215 | the prefix forms yield what the variable holds afterwards, the postfix forms what it held before |
| SourceLaws.LogicalLaw | Zend/zend_compile.c:1257-1325 | when the right operand of && and || is looked at, and that they yield booleans |
| SourceLaws.PrintLaw | Zend/zend_execute.c:1216-1221 | print echoes and yields 1 |
| SourceLaws.IfLaw | Zend/zend_language_parser.y:172-172 | an if, one condition at a time |
| SourceLaws.WhileLaw | Zend/zend_compile.c:361-392 | a while loop, one round at a time, with what break and continue do to it |
| SourceLaws.DoWhileLaw | Zend/zend_compile.c:1334-1346 | a do-while loop likewise |
| SourceLaws.ForLaw | Zend/zend_compile.c:395-436 | a for loop likewise, continue going to the step |
| SourceLaws.SwitchLaw | Zend/zend_execute.c:1893-1922 | the case found is the first that is equal to the subject, the expressions up to it having been evaluated in order |
| SourceLaws.EnteredLaw | Zend/zend_compile.c:1367-1437 | a switch enters that case, else the last default, and takes in a break or continue of its own |
| SourceLaws.LevelLaw | Zend/zend_execute.c:1847-1868 | levels below one count as one |
| SourceLaws.EndingLaw | Zend/zend_compile.c:1044-1080 | what a script yields that falls off its end, returns, or breaks out of too many loops |
| EndToEnd.CompileAndExecute | Zend/zend.c:810-814 | a script compiled and executed stops only with the ending that the script comes to, and is still running if it comes to none |
| EndToEnd.EnoughRounds | Zend/zend.c:810-814 | a script that comes to an end has come to it after enough rounds |
| Correctness.ScriptLands | Zend/zend_compile.c:341-515 | with any fuel the compiled script reaches the ending of the source script, or is still running after at least that many rounds |
| Correctness.SameEndings | Zend/zend_execute.c:1345-1430 | the compiled script ends with a result if and only if the source script does |
| Correctness.SameDivergence | Zend/zend_execute.c:1041-1050 | the compiled script runs forever if and only if the source script never comes to an end |
| Correctness.NeverWild | Zend/zend_opcode.c:195-232 | no run of a compiled script leaves the op array, its temporaries or its loop table, or misuses an operand |
| Correctness.FuelIrrelevant | Zend/zend_execute.c:1041-1050 | a script has at most one ending, however long one waits for it |
| ExprSim.SimE | Zend/zend_compile.c:157-196 | the code of an expression leaves its value in its result, the store it makes, and the temporaries below untouched |
| ExprSim.SimLogical | Zend/zend_compile.c:1257-1325 | `&&` and `\|\|` evaluate their right operand only when needed and yield a boolean |
| ExprSim.SimTernary | Zend/zend_compile.c:2257-2310 | `?:` evaluates exactly one of its branches |
| ExprSim.SimAssign | Zend/zend_compile.c:308-320 | assignment and operator assignment, fetched after the right-hand side |
| ExprSim.SimIncDec | Zend/zend_compile.c:439-463 | the four increment and decrement forms |
| StmtSim.EnclosingIsNth | Zend/zend_execute.c:1847-1868 | the walk along parent indices finds the n-th enclosing loop or switch, and fails exactly when fewer enclose |
| StmtSim.LandsUnwound | Zend/zend_compile.c:341-358 | a break or continue of the innermost loop lands on its exit or continue address, one for an outer loop on that of the outer loop |
| SwitchSim.SimMatch | Zend/zend_execute.c:1893-1922 | the case tests run in order up to the first match, past default, or to the end |
| SwitchSim.CaseIsLaid | Zend/zend_compile.c:1440-1493 | where the tests and bodies of a switch are, and that each body is jumped into past the next test |
| SwitchSim.DefaultAddrIs | Zend/zend_compile.c:1496-1526 | the address recorded for default is that of its body |
| Simulation.SimWhile | Zend/zend_compile.c:361-392 | a while loop, with breaks and continues of any depth in its body |
| Simulation.SimDo | Zend/zend_compile.c:1334-1346 | a do-while loop, whose continue goes to the condition |
| Simulation.SimFor | Zend/zend_compile.c:395-436 | a for loop, whose continue goes to the step |
| Simulation.SimIf | Zend/zend_compile.c:466-515 | if with any number of elseifs and an else |
| Simulation.SimBodies | Zend/zend_compile.c:1474-1493 | from an entered body a switch falls through the later ones in source order until it is left, never into a test |
| Simulation.SimCases | Zend/zend_compile.c:1395-1437 | no match: the default is entered, wherever it stands, or nothing |
| Simulation.SimSwitch | Zend/zend_compile.c:1367-1437 | a whole switch |
| Simulation.SimLeave | Zend/zend_compile.c:1349-1364 | break and continue with a constant level |
| Simulation.SimReturn | Zend/zend_compile.c:1044-1080 | return, from inside any switches |
| Simulation.SimS | Zend/zend_compile.c:341-515 | any statement, in any nesting |
| JumpRanges.ScriptOk | Zend/zend_compile.c:341-515 | in all code, also such as is never run, every jump target is filled in and within the op array, every break starts at a loop table entry or none, and parents come before their children |
| Emitters.OpArray.Emit | Zend/zend_opcode.c:195-216 | appends an opcode and changes nothing else |
| Emitters.OpArray.Patch | Zend/zend_compile.c:370-392 | fills in a jump target that was still open |
| Emitters.OpArray.BeginLoop | Zend/zend_compile.c:341-350 | a loop table entry whose parent is the loop so far current |
| Emitters.OpArray.EndLoop | Zend/zend_compile.c:353-358 | its addresses, and its parent current again |
| Emitters.OpArray.BooleanBegin | Zend/zend_compile.c:1257-1275 | the short-circuit jump, reusing the temporary of its operand |
| Emitters.OpArray.BooleanEnd | Zend/zend_compile.c:1278-1289 | its target, behind the boolean conversion of the right operand |
| Emitters.OpArray.QmTrue | Zend/zend_compile.c:2274-2293 | the first branch of `?:` and the jump over the second |
| Emitters.OpArray.QmFalse | Zend/zend_compile.c:2296-2310 | the second branch into the same temporary |
| Emitters.OpArray.WhileCond | Zend/zend_compile.c:361-373 | the exit test of a while loop, and its loop entry |
| Emitters.OpArray.WhileEnd | Zend/zend_compile.c:376-392 | the jump back, the exit patched |
| Emitters.OpArray.ForCond | Zend/zend_compile.c:395-404 | the two-way test of a for loop |
| Emitters.OpArray.ForBeforeStatement | Zend/zend_compile.c:407-420 | the jump back to the condition, the entry of the body patched |
| Emitters.OpArray.ForEnd | Zend/zend_compile.c:423-436 | the jump to the step, the exit patched |
| Emitters.OpArray.DoWhileEnd | Zend/zend_compile.c:1334-1346 | the test that jumps back |
| Emitters.OpArray.IfAfterStatement | Zend/zend_compile.c:479-499 | the jump over the remaining branches, noted in the jump list |
| Emitters.OpArray.IfEnd | Zend/zend_compile.c:502-515 | every jump of the list patched to the end, each being listed once and still open |
| Emitters.OpArray.Return | Zend/zend_compile.c:1044-1080 | the frees of the enclosing switches up to the first constant subject, then the return |
| Emitters.OpArray.CaseBeforeStatement | Zend/zend_compile.c:1440-1471 | the test of a case, and the fall-through of the body before it patched |
| Emitters.OpArray.CaseAfterStatement | Zend/zend_compile.c:1474-1493 | the fall-through jump of a body, the failing test patched to what follows |
| Emitters.OpArray.DefaultBeforeStatement | Zend/zend_compile.c:1496-1526 | the jump over the body of default, and its address recorded |
| Emitters.OpArray.SwitchEnd | Zend/zend_compile.c:1395-1437 | the jump to default, the last fall-through patched, the subject freed, the loop closed |
| Compiler.CompileExpr | Zend/zend_language_parser.y:417-470 | the emitters in the parser's order produce the code of an expression |
| Compiler.CompileIf | Zend/zend_language_parser.y:172-172 | and of an if |
| Compiler.CompileFor | Zend/zend_language_parser.y:176-184 | and of a for loop |
| Compiler.CompileSwitch | Zend/zend_language_parser.y:274-278 | and of a switch |
| Compiler.CompileStmt | Zend/zend_language_parser.y:170-204 | and of any statement, leaving the compile stacks as they were |
| Compiler.CompileScript | Zend/zend_language_parser.y:141-144 | a whole script is compiled to exactly the specified op array and loop table |
| Executor.Execution.FindLoop | Zend/zend_execute.c:1847-1888 | the loop of the handler computes the walk along parent indices |
| Executor.Execution.ComputeValue | Zend/zend_execute.c:1051-1124 | the handlers that compute a value |
| Executor.Execution.AccessVariable | Zend/zend_execute.c:1226-1235 | the handlers that fetch and assign variables |
| Executor.Execution.TestAndJump | Zend/zend_execute.c:1345-1429 | the jump handlers |
| Executor.Execution.Round | Zend/zend_execute.c:1041-1050 | one round of the dispatch loop is one step of the machine |
| Executor.Execute | Zend/zend_execute.c:1041-1050 | any number of rounds computes what that many steps do |
| Zvals.SoleSlot | Zend/zend_execute_API.c:267-270 | a zval with one owner that is a slot is held by nothing else |
| Zvals.DroppedValid | Zend/zend_execute_API.c:261-273 | giving up a count, and freeing with the last, keeps every count exact |
| Zvals.AttachedValid | Zend/zend_execute.c:283-284 | so does sharing a zval |
| Zvals.LockedValid | Zend/zend_execute_locks.h:6-9 | so does locking |
| Zvals.UnlockedValid | Zend/zend_execute_locks.h:13-21 | so does unlocking, a zval without owners becoming garbage; nothing is freed under way |
| RefSets.WrittenView | Zend/zend_execute.c:412-430 | overwriting a zval in place is an assignment to exactly one reference set, if it is a reference or unshared |
| RefSets.JoinedView | Zend/zend_execute.c:283-284 | sharing a reference is joining its set |
| RefSets.RejoinedIsBound | Zend/zend_execute.c:267-284 | leaving a set and joining another is binding |
| CowMoves.SharedView | Zend/zend_execute.c:447-453 | pointing a slot at the assigned zval is an assignment |
| CowMoves.SeparatedView | Zend/zend.h:430-442 | separation takes a variable out of its set and changes nothing else |
| CowMoves.TakenValid | Zend/zend_execute_locks.h:23-28 | disposing of a garbage entry keeps every count exact and every locked value |
| CowMoves.TakenView | Zend/zend_execute_locks.h:23-28 | and is invisible |
| Pendings.UnlockedFollows | Zend/zend_execute_locks.h:13-21 | giving up a lock changes nothing for any other temporary |
| Pendings.JoinFollows | Zend/zend_execute.c:265-284 | what temporaries watch when one variable is bound to another: a temporary goes on with the reference it holds, not with the variable |
| Pendings.SplitLeaves | Zend/zend_execute.c:285-291 | and when a variable is bound to itself |
| Pendings.RemovedFlags | Zend/zend_execute_API.c:267-270 | a reference that unsetting leaves with one variable is one no longer, and no other is concerned |
| CopyOnWrite.Variables.AssignToVariable | Zend/zend_execute.c:412-491 | all branches: in place for a reference, reuse, copy or share otherwise; an assignment with every count exact; which of them |
| CopyOnWrite.Variables.MakeRef | Zend/zend_execute.c:271-282 | a zval made a reference, broken away if it is shared as a value |
| CopyOnWrite.Variables.BindTo | Zend/zend_execute.c:265-284 | binding one variable to another |
| CopyOnWrite.Variables.BindToSelf | Zend/zend_execute.c:285-291 | binding a variable to itself detaches it |
| CopyOnWrite.Variables.Separate | Zend/zend.h:444-447 | afterwards writing in place touches one reference set only; nothing visible changes |
| CopyOnWrite.Variables.CleanGarbage | Zend/zend_execute_locks.h:23-28 | empties the garbage list invisibly |
| CopyOnWrite.Variables.OpAssign | Zend/zend_execute.c:1334-1341 | the whole opcode, locks and garbage included |
| CopyOnWrite.Variables.OpAssignRef | Zend/zend_execute.c:1342-1344 | the whole opcode |
| CopyOnWrite.Variables.OpAssignOp | Zend/zend_execute.c:1152-1174 | the whole opcode, also when both operands are the same variable |
| CopyOnWrite.Variables.OpIncDec | Zend/zend_execute.c:1175-1215 | the whole opcode; the postfix forms keep the old value |
| CopyOnWrite.Variables.OpBinary | Zend/zend_execute.c:1105-1111 | operators on zvals that their operands may be the last to hold |
| CopyOnWrite.Variables.OpFetchW | Zend/zend_execute.c:557-592 | fetching for writing: a new variable shares the null zval |
| CopyOnWrite.Variables.OpUnset | Zend/zend_execute.c:2164-2181 | the variable leaves its set; a reference held once is one no longer |
| ReferenceScripts.Evaluate | Zend/zend_language_parser.y:419-443 | any expression whatever: value, variables, flags, and what every temporary still to be read has become, are those of reading late |
| ReferenceScripts.Run | Zend/zend_execute.c:1041-1050 | so are those of any script, and those of reading at once if the script is steady; in the end no lock is left and every count is exact |
| ReferenceScripts.RunLate | Zend/zend_execute.c:1041-1050 | two scripts run by the opcodes in which an operator sees what its right operand has written |
| LateReading.AgreesExactly | Zend/zend_execute.c:1105-1111 | every operator of an expression gets the operands that reading at once would give it if and only if no right operand leaves another value in a flagged zval that is the left one; then all else is the same |
| LateReading.OperatorExactly | Zend/zend_execute.c:1105-1111 | the same for one operator, by the flag of the variable of its left operand |
| LateReading.ScriptAgreesExactly | Zend/zend_execute.c:1041-1050 | and for scripts |
| LateReading.AtOnceIsMeaning | Zend/zend_execute.c:250-300 | reading at once is eager copying with reference sets |
| LateReading.UnflaggedIsSteady | Zend/zend_execute.c:412-491 | without references it makes no difference when operands are read |
| LateReading.OrderedIsSteady | Zend/zend_execute.c:1105-1111 | nor if every left operand is a value or its right operand writes nothing |
| LateReading.PlainOutcome | Zend/zend_execute.c:398-492 | without references the opcodes make of an expression what the compiler's source language makes of it |
| LateReading.LateValue | Zend/zend_execute_locks.h:6-9 | what becomes of $a + ($a = 5) for a reference, and for a variable bound to itself |
| ReferenceMeaning.MeaningCoherent | Zend/zend_execute.c:250-300 | reference sets go on partitioning the variables, with one value each |
| ReferenceMeaning.SelfBindingKeeps | Zend/zend_execute.c:285-291 | binding to itself changes nothing if and only if the variable is in no set |
| ReferenceMeaning.SelfBindingLeaves | Zend/zend_execute.c:285-291 | a script in which a variable bound to itself no longer follows the other |
| ReferenceMeaning.PlainStore | Zend/zend_execute.c:398-492 | without references the variables are the plain store of the compiler's source language |
| ReferenceScripts.LockSeesWrite | Zend/zend_execute_locks.h:6-9 | a temporary sees its zval overwritten if and only if it is the variable's, which then is a reference |
| TableSizes.AndMask | Zend/zend_hash.c:173-174 | masking with a power of two less one is the remainder |
| TableSizes.Doubles | Zend/zend_hash.c:437-443 | sizes stay powers of two, and can double until they are the largest |
| NumericKeys.HandleNumeric | Zend/zend_hash.c:29-52 | the macro converts exactly the canonical numerals below LONG_MAX |
| NumericKeys.DecimalReaches | Zend/zend_hash.c:29-52 | the decimal text of every number below LONG_MAX reaches that number |
| NumericKeys.NumeralOnly | Zend/zend_hash.c:29-52 | and nothing but such a text is converted |
| NumericKeys.StoredKeyInjective | Zend/zend_hash.c:226-226 | distinct keys are never stored under the same key |
| OrderedMap.PutLookup | Zend/zend_hash.c:211-281 | entering a key is a map update |
| OrderedMap.PutOrder | Zend/zend_hash.c:211-281 | entering a key keeps the order of all others; a new key comes last |
| OrderedMap.DropLookup | Zend/zend_hash.c:471-525 | taking an element out changes the lookup of its key only |
| OrderedMap.PermutedLookup | Zend/zend_hash.c:1090-1130 | sorting changes no lookup |
| OrderedMap.RenumberedLookup | Zend/zend_hash.c:1132-1142 | after renumbering the keys are exactly 0, 1, ... in order |
| OrderedMap.SortedLookup | Zend/zend_hash.c:1132-1142 | with and without renumbering, which data stand under which keys |
| OrderedMap.SurvivorsParts | Zend/zend_hash.c:660-676 | what an apply leaves is exactly what its callback does not have deleted, in order |
| HashLayout.ChainsPush | Zend/zend_hash.c:55-60 | a node put in front of its chain: all chains stay linked both ways and go on partitioning the nodes |
| HashLayout.ChainsCut | Zend/zend_hash.c:489-496 | a node taken off its chain, likewise |
| HashLayout.ListPush | Zend/zend_hash.c:62-74 | a node appended to the list |
| HashLayout.ListRemove | Zend/zend_hash.c:497-507 | a node taken off the list |
| HashTables.HashTable.constructor | Zend/zend_hash.c:162-192 | an empty table, its size the least power of two from 8 that is large enough |
| HashTables.HashTable.Seek | Zend/zend_hash.c:231-236 | the search along one chain finds a key wherever it is, or it is in no chain |
| HashTables.HashTable.Link | Zend/zend_hash.c:259-278 | a new element goes to the end; an internal pointer at the end comes to point to it |
| HashTables.HashTable.Rehash | Zend/zend_hash.c:453-469 | every chain is rebuilt from the list alone, whatever they were before; list and elements unchanged |
| HashTables.HashTable.DoResize | Zend/zend_hash.c:431-451 | the size doubles, elements and order unchanged |
| HashTables.HashTable.GrowIfFull | Zend/zend_hash.c:119-122 | afterwards the elements do not exceed the size |
| HashTables.HashTable.QuickAddOrUpdate | Zend/zend_hash.c:283-352 | add and update under a given hash value; the data displaced is destructed |
| HashTables.HashTable.AddOrUpdate | Zend/zend_hash.c:211-281 | add and update under the key after numeric conversion; an empty key is refused |
| HashTables.HashTable.IndexUpdateOrNextInsert | Zend/zend_hash.c:363-428 | the three integer forms; a next-insert cannot fail before ULONG_MAX has been used |
| HashTables.HashTable.FindData | Zend/zend_hash.c:848-872 | find after numeric conversion |
| HashTables.HashTable.Exists | Zend/zend_hash.c:898-921 | exists agrees with it |
| HashTables.HashTable.RemoveNode | Zend/zend_hash.c:488-519 | one element goes, the others keep their order; an internal pointer on it moves to the next |
| HashTables.HashTable.DelKeyOrIndex | Zend/zend_hash.c:471-525 | what goes, and that it is what was asked for if and only if no integer key is in its way |
| HashTables.HashTable.IndexDel | Zend/zend_hash.c:471-525 | integer keys are always deleted correctly, and what is destructed |
| HashTables.HashTable.Del | Zend/zend_hash.c:478-481 | the element of the key, if there is one, with what is destructed and where the internal pointer goes; if an integer key equals the hash value, what goes instead and when |
| HashTableOps.DeletesAnother | Zend/zend_hash.c:486-487 | for any hash function and any string key that is no numeral, a table on which deleting the key, which is not stored, takes out another |
| HashTables.HashTable.Clean | Zend/zend_hash.c:554-582 | destructs all data in order and leaves a table as new, of the same size |
| HashTables.HashTable.ApplyDeleter | Zend/zend_hash.c:589-636 | deletes a node and returns the one that took its place in the order |
| HashTables.HashTable.Apply | Zend/zend_hash.c:660-676 | the callback sees every element once in order; exactly those to be kept stay, in order; the internal pointer ends on the first survivor from where it was |
| HashTables.HashTable.MoveForward | Zend/zend_hash.c:998-1009 | to the next element, and from the last to the end |
| HashTables.HashTable.MoveBackwards | Zend/zend_hash.c:1011-1022 | to the previous element, and from the first to the end |
| HashTables.HashTable.Rethread | Zend/zend_hash.c:1119-1126 | the list threaded in both directions in a new order |
| HashTables.HashTable.Sort | Zend/zend_hash.c:1090-1144 | the elements in the order of the sort routine, renumbered or under their keys |
| HashTableOps.ScanningOneSide | Zend/zend_hash.c:1157-1163 | with equal counts, comparing from one side is enough |
| HashTableOps.CompareUnordered | Zend/zend_hash.c:1147-1230 | 0 if and only if both tables have the same keys with equal data under each; else the difference of the counts, or what the first element in order decides |
| HashTableOps.CompareOrdered | Zend/zend_hash.c:1147-1230 | 0 if and only if both have the same keys in the same order with equal data; else the difference of the counts, or what the first difference decides, keys before data |
| HashTableOps.Merge | Zend/zend_hash.c:754-801 | copy, and merge with and without overwriting |
| HashTableOps.EffectProper | Zend/zend_hash.c:226-226 | no numeral is ever stored as a string key by the converting forms |
| HashTableOps.EffectLookup | Zend/zend_hash.c:211-525 | every operation of a run as a change of a map |
| HashTableOps.Appended | Zend/zend_hash.c:363-428 | values appended to an empty table stand under 0, 1, 2 and so on |
| HashTableOps.RunAll | Zend/zend_hash.c:211-525 | over any run the table is an insertion-ordered map, with its whole layout intact, its internal pointer where it should be, and exactly the displaced and deleted data destructed |
| HashTableOps.NothingLost | Zend/zend_hash.c:211-525 | over any run, what has been entered is still stored or has been destructed, each once |
| Inheritance.ClassEntry.InheritParentConstructor | Zend/zend_compile.c:1100-1112 | the parent's constructor under the class's name, unless it has one |
| Inheritance.ClassEntry.DoInheritance | Zend/zend_compile.c:1114-1130 | both tables merged without overwriting |
| Inheritance.DeclareEarly | Zend/zend_compile.c:1553-1580 | the tables of a class whose parent is known: its own members, what it inherits, and its parent's constructor under its own name |
| Inheritance.DeclareLate | Zend/zend_compile.c:1171-1221 | the tables of a class bound afterwards: the same |
| Inheritance.DeclaredOwn | Zend/zend_compile.c:1630-1640 | a class body enters every member, a later one of the same name in place of an earlier one |
| Inheritance.MergedLookup | Zend/zend_hash.c:778-801 | merging as maps |
| Inheritance.MergedOrder | Zend/zend_hash.c:778-801 | merging keeps the order of what is there, and what is new comes behind it in the order of the source |
| Inheritance.CopiedSame | Zend/zend_hash.c:754-775 | a copy has the same elements in the same order |
| Inheritance.TablesLookup | Zend/zend_compile.c:1564-1570 | copying and then overriding, or declaring and then merging, gives the same map |
| Inheritance.ClassLookup | Zend/zend_compile.c:1618-1626 | likewise with the constructor |
| Inheritance.BindingAgrees | Zend/zend_compile.c:1207-1207 | along any chain and for any choice of early and late, the same methods and properties |
| Inheritance.ChainHas | Zend/zend_compile.c:1100-1130 | however its classes are bound, the last class of a chain has under each name what the nearest class has that declares it, and its constructor |
| Inheritance.DeclareChain | Zend/zend_language_parser.y:231-232 | a whole chain declared on real tables has, name by name, the methods and properties it is to have |
| IniTables.RuleIs | Zend/zend_ini_parser.c:284-295 | the states that reduce without looking ahead, and by which rule |
| IniTables.AfterEquals | Zend/zend_ini_parser.c:305-323 | the actions after an equals sign |
| IniTables.InParentheses | Zend/zend_ini_parser.c:305-323 | the actions inside parentheses |
| IniTables.GotoExpr | Zend/zend_ini_parser.c:297-303 | where an expression leads |
| IniSoundness.StepSound | Zend/zend_ini_parser.c:641-978 | at every step the stack is a viable prefix that yields the tokens consumed, and the calls made are those of its statements |
| IniSoundness.AcceptsOnlyGrammar | Zend/zend_ini_parser.c:278-324 | 0 only for texts of the grammar, prefix operators tightest, `\|` and `&` left-associative at one level, with their meaning |
| IniCompleteness.ParseUnary | Zend/zend_ini_parser.c:904-925 | printing an operand and parsing it gives it back, the stack rising exactly as high as said |
| IniCompleteness.ParseExpr | Zend/zend_ini_parser.c:904-925 | and an expression |
| IniCompleteness.AcceptsGrammar | Zend/zend_ini_parser.c:641-978 | with room enough every text is accepted, with its meaning, and how much room it takes |
| IniCompleteness.DepthFits | Zend/zend_ini_parser.c:680-700 | that room is there exactly when it is for each statement |
| IniParser.Stacks.Push | Zend/zend_ini_parser.c:641-712 | the stacks double up to YYMAXDEPTH and keep their contents; one more is an overflow |
| IniParser.ActionsRight | Zend/zend_ini_parser.c:868-925 | the semantic actions compute what the symbols mean |
| IniParser.ReduceOn | Zend/zend_ini_parser.c:840-978 | a reduction on the real stacks is one of the machine |
| IniParser.Progress | Zend/zend_ini_parser.c:641-978 | every action shifts a token or brings the stack closer to the next shift |
| IniParser.Recover | Zend/zend_ini_parser.c:1032-1121 | after a syntax error the whole stack is popped |
| IniParser.DeepTexts | Zend/zend_ini_parser.c:680-700 | a text of the grammar overflows the stack if and only if one of its statements is too deep |
| IniParser.PlainReadings | Zend/zend_ini_parser.y:195-217 | what the parser calls for each kind of statement, token by token |
| IniParser.OperatorReadings | Zend/zend_ini_parser.y:219-226 | and what it computes for operators, in which order and with which operands |
| IniParser.CompleteCalled | Zend/zend_ini_parser.c:868-925 | statements that are complete have been called back when the parse ends in an error |
| IniParser.Parse | Zend/zend_ini_parser.c:572-1141 | always returns: 2 if and only if the stack overflows; otherwise 0 with the right calls if the text is one of the grammar, and 1 if it is not; one error unless 0; whatever it returns, it has called back for statements that the text begins with, and for all that are complete |
| IniParser.NoValueAtEnd | Zend/zend_ini_parser.y:210-217 | no text of the grammar ends in an equals sign |
| Allocators.Allocator.RemoveFromList | Zend/zend_alloc.c:90-100 | a block leaves its list, both lists staying linked in both directions |
| Allocators.Allocator.AddToList | Zend/zend_alloc.c:102-115 | a block goes to the front of the list its flag says |
| Allocators.Allocator.Emalloc | Zend/zend_alloc.c:132-204 | the last block cached of the size class, or a new one in front of the list |
| Allocators.Allocator.Efree | Zend/zend_alloc.c:207-248 | into the cache if its class has room and the block is not persistent, otherwise off its list and to free |
| Allocators.Allocator.Erealloc | Zend/zend_alloc.c:268-330 | the block is relinked at its new address; without memory it is kept |
| Allocators.Allocator.PersistAlloc | Zend/zend_alloc.c:740-760 | the block changes lists |
| ArenaSafety.EmallocServes | Zend/zend_alloc.c:132-204 | the block returned overlaps with none in use, and is as long as requested if and only if rounding does not wrap around |
| ArenaSafety.EmallocAccounts | Zend/zend_alloc.c:132-204 | allocated_memory stays the sum of the rounded sizes if and only if the request fits into the size field |
| ArenaSafety.EfreeServes | Zend/zend_alloc.c:207-248 | just this block is given up; allocated_memory stays the sum |
| ArenaSafety.FreedThenAllocated | Zend/zend_alloc.c:140-237 | allocating in the size class of a block just cached undoes freeing it |
| ArenaSafety.CachedExactly | Zend/zend_alloc.c:225-237 | which blocks are cached when they are freed |
| ArenaSafety.ServedFromCache | Zend/zend_alloc.c:140-158 | which requests are served from the cache |
| ArenaSafety.EreallocServes | Zend/zend_alloc.c:268-330 | the new block replaces the old one, overlaps with no other, and stays on its side; on failure nothing the program sees has changed |
| ArenaSafety.EreallocAccounts | Zend/zend_alloc.c:268-330 | allocated_memory stays the sum if and only if the request fits into the size field |
| ArenaSafety.PersistServes | Zend/zend_alloc.c:740-760 | only the lists change, and only for this block |
| ArenaSafety.CacheCounts | Zend/zend_alloc.c:122-150 | the cached bytes on the list are those that the counters of the cache give |
| ArenaRuns.RunKeeps | Zend/zend_alloc.c:132-760 | over any run of any requests: each block on exactly one list, each cached block in one slot of its class and not in use, all blocks disjoint |
| ArenaRuns.RunServes | Zend/zend_alloc.c:132-760 | over any run within the size field every block returned is free, what the program holds follows from its calls alone, nothing overlaps, and the account is right |
| ArenaRuns.RunCosts | Zend/zend_alloc.c:132-760 | allocated_memory is what the program holds, rounded, and a cache of at most 112640 bytes |
| ArenaRuns.StepPeak | Zend/zend_alloc.c:195-200 | the peak is the most that allocated_memory has been |
| StringIncrement.IncrementString | Zend/zend_operators.c:1361-1435 | the in-place loop computes the tick; a new buffer exactly when the carry runs off the left end |
| StringIncrement.TickPlace | Zend/zend_operators.c:1377-1417 | a tick keeps every character's class and moves to the next place, from the last back to the first |
| StringIncrement.Successor | Zend/zend_operators.c:1361-1435 | the successor of any non-empty alphanumeric string, growing by 1, a or A |
| StringIncrement.CarryLost | Zend/zend_operators.c:1408-1411 | behind another character only what follows ticks, and when exactly that is a successor |
| StringIncrement.LettersCount | Zend/zend_operators.c:1377-1433 | letters of one case count in bijective base 26 |
| StringIncrement.EmptyCounts | Zend/zend_operators.c:1371-1376 | the empty string becomes 1 |
| IncrementedNumerals.DigitsCount | Zend/zend_operators.c:1395-1433 | decimal numerals count up by one |
| Tsrm.StepInv | TSRM/TSRM.c:190-395 | every step of every thread keeps the invariant |
| Tsrm.AtRelease | TSRM/TSRM.c:190-349 | whenever the mutex is free: one entry per thread, in its chain, covering all ids, each resource constructed exactly once and not destroyed |
| Tsrm.DestroyedOnce | TSRM/TSRM.c:353-395 | in any run every resource constructed has been destructed exactly once if its thread has exited, and not at all otherwise |
| Tsrm.SectionEnds | TSRM/TSRM.c:190-229 | an id allocation and an exit end, with the lock released; a thread that has exited has no entry any more |
| Tsrm.CallLeads | TSRM/TSRM.c:283-310 | what a call leads to once the lock is there |
| Tsrm.IdsCounted | TSRM/TSRM.c:190-203 | ids are given out one by one |
| Tsrm.FastPath | TSRM/TSRM.c:290-315 | the fast path yields what the search along the chain would |
| Tsrm.LookupEnds | TSRM/TSRM.c:283-349 | the recursion of a lookup ends, with the mutex released, whatever the other threads do |
| Tsrm.LookupReturns | TSRM/TSRM.c:283-349 | in any run a lookup given enough steps of its own has come to its result without the mutex, and has started over at most once |

## Left out

- The memory limit and its exit, the shutdown of the request allocator, debug headers, and the forms that call `_emalloc` (ecalloc, estrdup). What malloc and realloc return are arguments; the contents of blocks are not modelled.
- Function calls, foreach, arrays, objects, string offsets, include, eval, error silencing, ticks, declare and exit in the compiler and the virtual machine.
- Break and continue with a level that is not a constant: the handler frees an operand of the jump target.
- When temporaries are freed: the opcodes that free are no-ops, so nothing is said about each temporary being freed once.
- Growth of the opcode and loop arrays by reallocation: they are sequences, as are the jump lists and fetch lists that the source keeps on a stack.
- Arithmetic, comparison and conversion of values, floating point, and the text of error messages.
- References inside arrays, and values other than scalars, in the copy-on-write model; the wrap-around of the 16-bit reference count.
- Correctness.SameEndings: says nothing of values held by reference, which its language does not have; LateReading.PlainOutcome is the bridge for scripts without branches.
- HashTables.HashTable.Sort: the sort routine itself is not modelled, only that it yields a permutation.
- HashTables.HashTable.Apply: the callback looks at the data and may ask for deletion, but does not change the table itself; the reverse form is not modelled.
- HashTableOps.CompareOrdered: differences of integer keys are not truncated to an int.
- HashTableOps.Merge: copy constructors are not modelled.
- Properties declared without a value, which the source does not enter into the table.
- The failure of memory allocation, and persistent as opposed to request memory.
- The scanner of configuration files; the parser is given its tokens. Numbers and constants in expressions are handled by uninterpreted functions.
- Lookups of another thread's resources, unlocked reads of a storage array that is being reallocated, thread begin and end handlers, and shutdown, in the resource manager.
