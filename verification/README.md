# SageTree in Dafny

A model of the hardest parts of the Sage language implementation, with proofs. Sage
is parsed into a tree; optimisation passes rewrite the tree; a native code generator
lowers it to virtual instructions; an ahead-of-time compiler turns it into C that
runs on a small runtime with its own collector, dictionaries, strings and exception
frames. The project follows those pieces:

- **Native code generation** (`Isel*`, `VirtualMachine`, `FlatSemantics`): the
  instruction selector as a class that emits code step by step, an abstract machine
  for its instructions, a meaning for source programs, and a proof that a program and
  its code have the same finished runs.
- **Optimisation passes** (`Semantics`, `ConstFold`, `Dce`, `Inline`, `Pass*`, `Pipeline`):
  constant folding, dead code elimination and inlining as step-by-step traversals, an
  evaluator for the language the passes see, exceptions, `finally` and pattern matching
  included, and one relational proof that all three preserve runs; and the driver that
  runs them one after the other. The conditions for the last two speak of the program
  alone (`TreeWalk`, `Liveness`, `Inlinable`); `Folded` and `Lean` say that the passes
  leave nothing undone.
- **The collector** (`GcHeap`, `Gc`): a heap of linked headers, marking through values,
  conservative scanning of words, sweeping with pointer surgery. Freed memory is
  absent from the heap, so a dangling pointer can be expressed.
- **Dictionaries** (`Dict`): open addressing over a ring of slots with FNV-1a.
- **Recursion guards and exceptions** (`CallGraph`, `Unwind`): which procs are found
  recursive, the chain of try frames, the depth counter that longjmp leaves behind,
  and the stack bound that all of it is for.
- **Parameter types** (`ParamTypes`, `TypeSoundness`): which parameters get a native type,
  and what the inferred types are true of at run time.
- **Scopes, strings, structs, suggestions** (`Environment`, `Strings`, `StructLayout`,
  `EditDistance`).

`Ast` has every kind of expression of the tree, interpolated strings, compile-time
expressions, default values and guards included, because several analyses and passes do
not look into some of them, and what they miss matters.

Where the source updates things step by step there is a class or a method with loops,
proved against a specification function; what the source promises is then proved
about that function. Arithmetic on doubles is a parameter (`Values.Host`): the
theorems hold whatever it does. Where doubles have to count loop iterations,
`CountsExactly` says what is needed of them, which IEEE 754 doubles satisfy. Integers
are unbounded except where the source's width matters (the hash, object sizes, struct
fields, `len`). Run `dafny verify dfyconfig.toml` to check everything.

## Model

| member | source | states |
|---|---|---|
| IselTheorem.CompilerCorrect | src/codegen.c:224-870 | for every program of the listed kinds of statement and expression whose loops are nested at most 64 deep, and every initial state, the compiled code finishes exactly when the source program does, with the same globals, output and returned value; fails exactly when it fails, and so runs for ever exactly when it does |
| Isel.CompileProgram | src/codegen.c:887-900 | the selector, run on a whole program from a new context, emits exactly `Compiled(prog)`, the code `CompilerCorrect` is about, and leaves a string pool without duplicates; the passes that come first are in `Pipeline.Compile` |
| Pipeline.Compile | src/codegen.c:876-900 | for every level: the code of the program that the passes of that level leave |
| Pipeline.RunPasses | src/pass.c:337-352 | folding from level 1, then elimination from 2, then inlining from 3 |
| Pipeline.PassesPreserve | src/pass.c:337-352 | for every level: if what folding left may be eliminated and what elimination left may be inlined, a run that meets no error ends the same way with the same events |
| Isel.Selector.SelectExpr | src/codegen.c:224-526 | for literals, variables, operators, indexing, arrays and tuples: appends their code to what was there, returns the register of the result, and uses up the registers the specification says; any other expression becomes one `Unmodelled` instruction |
| Isel.Selector.SelectStmts | src/codegen.c:529-533 | appends the code of the list and leaves the loop stack as it found it |
| Isel.Selector.SelectIf | src/codegen.c:560-598 | both branches with their labels and jumps, the else label only when there is an else |
| Isel.Selector.SelectWhile | src/codegen.c:599-644 | the code of a loop, with its end label, below depth 64, and no code at all from depth 64 on |
| Isel.Selector.SelectFor | src/codegen.c:655-777 | length, counter in a shared global, test, fetch, body, advance and end label below depth 64; from depth 64 on the head only, without labels |
| Isel.Selector.SelectSimple | src/codegen.c:535-794 | print, expression, let, return, and break and continue, which emit nothing outside a loop; any other statement becomes one `Unmodelled` instruction |
| Isel.Selector.AddString | src/codegen.c:157-167 | returns a position where the string is, and adds it only if it was missing |
| IselLabels.CompiledLabels | src/codegen.c:151-155 | no label is defined twice in the code of any program |
| IselExpr.ExprCorrect | src/codegen.c:224-526 | wherever the code of an expression sits in a program, running it leaves the value in its register and touches no lower register, or stops the machine exactly if the expression fails |
| IselLoops.StmtsCorrect | src/codegen.c:529-870 | wherever the code of a list sits, running it simulates the list: it arrives after the code, or at the labels of the enclosing loop for break and continue, or returns, or stops; a source run out of fuel is matched by at least as many steps |
| IselTheorem.ForContinueDiverges | src/codegen.c:779-794 | a `for` whose body is `continue` ends in the source and never ends when compiled |
| IselTheorem.DeepLoopDropped | src/codegen.c:599-616 | of 65 nested loops the innermost is not compiled: the program prints, its code does not |
| PassTheorems.FoldingPreserves | src/constfold.c:206-325 | for every program, fuel and initial state, the folded program ends in the same way, exceptions included, and, if the run meets no error, with the same events for the outside world |
| PassTheorems.EliminationPreserves | src/dce.c:132-374 | if the program has none of the kinds of node in which the pass does not look, every assigned variable is also read somewhere, unread variables have initialisers whose effects are not hidden in other kinds of node, and the names of methods are read as variables, then every run that meets no error ends the same way with the same events after dead code elimination |
| PassTheorems.InliningPreservesRuns | src/inline.c:121-409 | if procs that only return an expression compute it from distinct parameters without effects, nothing else in the program has their names and they are called with arguments without effects, every run that meets no error ends the same way with the same events after inlining; that the names stay bound to these procs is proved, not assumed |
| PassTheorems.UnrunKept | src/dce.c:260-299 | statements whose runs are not modelled are left as they are by all three passes, except that folding and inlining rewrite the expression of a yield |
| Liveness.ReadsFound | src/dce.c:58-200 | if nothing in the program is of a kind that the pass passes over, every variable that occurs in any expression at any depth is found |
| Liveness.EliminableSafe | src/dce.c:58-233 | a program that meets the condition of `EliminationPreserves` keeps all names that the simulation needs |
| Inlinable.CandidatesAre | src/inline.c:43-149 | every candidate is a proc of the program with its own parameters, whose body does nothing but return its own result, and the result does not read the proc's own name where the pass looks |
| Inlinable.SimpleAreCandidates | src/inline.c:43-149 | every such proc whose result does not read its own name is a candidate |
| Inlinable.InlinableSafe | src/inline.c:121-319 | a program that meets the condition of `InliningPreservesRuns` meets that of the simulation, for the candidates that the pass collects |
| Folded.ConstantIff | src/constfold.c:33-141 | folding turns an expression into a literal if and only if it is made of literals and operators that are computed; the literal is its value at run time |
| Folded.FoldReduces | src/constfold.c:143-204 | no operator with a constant value is left in a folded expression, in the places the pass looks at |
| Folded.FoldStmtReduces | src/constfold.c:206-319 | nor in a folded statement, and no branch on a truth value and no loop on `false` |
| Lean.UsedIsRead | src/dce.c:58-200 | what counts as used is read somewhere in the program |
| Lean.NothingDead | src/dce.c:301-360 | wherever the pass goes, remaining variables are read or their initialisers may act, remaining procs are read, and nothing follows a return, break or continue |
| PassTheorems.AssignedOnlyBreaks | src/dce.c:301-360 | a variable assigned but never read loses its `let`, and the assignment then fails |
| PassTheorems.HiddenCallDropped | src/dce.c:206-233 | a call inside a tuple is dropped with an unused `let`: the builtin is no longer called |
| PassTheorems.MethodDropped | src/dce.c:280-282 | a class loses a method whose name is read nowhere as a variable: the outside makes another class |
| PassTheorems.HiddenReadFails | src/dce.c:58-124 | a variable read only in a compile-time expression or between the braces of a string loses its `let`, and the read then fails |
| PassTheorems.StaleCandidateRuns | src/inline.c:121-149 | a program with two procs of one name prints 2, and 1 after inlining |
| PassTheorems.EffectDropped | src/inline.c:163-236 | an argument that the result does not use is dropped: a builtin that was called once is not called after inlining |
| PassCorrect.FoldBinarySound | src/constfold.c:33-141 | a folded operator evaluates as the operator does, for all operands and in all states |
| PassCorrect.ExecListSame | src/constfold.c:206-319 | the induction behind the three theorems: in related states a statement list and what any of the passes made of it have related outcomes |
| ConstFold.FoldExprTwice | src/constfold.c:143-204 | folding a folded expression changes nothing |
| ConstFold.FoldStmtTwice | src/constfold.c:206-319 | folding a folded statement changes nothing |
| ConstFold.FoldNode | src/constfold.c:143-204 | the traversal that replaces children one by one computes the specified folding |
| ConstFold.FoldStatements | src/constfold.c:206-210 | the loop over a list folds every statement, once |
| Dce.NameSet.Add | src/dce.c:26-34 | the set of names gains exactly the name, and stays without duplicates |
| Dce.NameSet.CollectStmt | src/dce.c:132-200 | the set gains exactly the names the pass counts as read in the statement |
| Dce.RemoveUnreachable | src/dce.c:239-258 | what remains is a prefix in which only the last statement ends control flow, and elimination of it and of the whole list agree |
| Dce.IsKept | src/dce.c:301-360 | variables are kept if used or if the effect test says so, procs if used, everything else always |
| Dce.Eliminate | src/dce.c:362-374 | collecting and eliminating computes the specified pass |
| Inline.SubstitutionLemma | src/inline.c:163-236 | a closed expression in the frame of a call has the value it has in the caller's state with the arguments in place of the parameters |
| Inline.CallReplaced | src/inline.c:242-270 | a call of a candidate that comes to an end has the value, and leaves the state, of its substituted result, if the arguments have no effects |
| Inline.InliningPreserves | src/inline.c:242-319 | inlining inside an expression without effects keeps its value whenever it has one |
| Inline.CandidateUnchanged | src/inline.c:329-397 | the pass leaves the body of every closed candidate a single return of the same expression, so it does not matter that the source's candidates share their expressions with the program |
| Inline.CollectCandidates | src/inline.c:121-149 | the loop collects the specified candidates, later procs first |
| Inline.InlineNode | src/inline.c:242-319 | the traversal computes the specified inlining; a result is not inlined again |
| Inline.InlineProgram | src/inline.c:399-409 | the pass over a whole program computes the specified one |
| Inline.DuplicateParams | src/inline.c:163-180 | with two parameters of one name the call gives 2 and the inlined expression 1 |
| Inline.StaleCandidate | src/inline.c:121-157 | a later proc of the same name that is no candidate does not replace the earlier candidate |
| Gc.Collector.Collect | runtime/sage_runtime.c:274-338 | the object list becomes exactly the old objects reachable from the roots and the scanned words, in their order; survivors keep their contents, nothing dangles, the byte counts balance and the triggers are set; a disabled collector does nothing |
| Gc.Collector.Alloc | runtime/sage_runtime.c:120-139 | collects exactly when a trigger fires, links a new object in front, and everything the roots and scanned words refer to survives |
| Gc.Collector.MarkValue | runtime/sage_runtime.c:159-230 | marks exactly what the value reaches through unmarked objects, and whatever was marked stays marked |
| Gc.Collector.MarkIfObject | runtime/sage_runtime.c:236-260 | a word marks an object exactly if it is the payload address of one on the list |
| Gc.Collector.Sweep | runtime/sage_runtime.c:308-329 | unlinks and frees the unmarked objects in place, keeps the order of the others and clears their marks, with exact counts |
| Gc.Collector.Init | runtime/sage_runtime.c:384-389 | an enabled collector with an empty heap whose object trigger is still zero |
| Gc.Collector.Resume | runtime/sage_runtime.c:345-348 | leaves the collector enabled exactly if this ended the last pause, even if it had been disabled meanwhile |
| Gc.Collector.Enable | runtime/sage_runtime.c:350-350 | enables exactly if no pause is in effect |
| GcHeap.MarksExactly | runtime/sage_runtime.c:159-230 | marking from a clean heap marks exactly the reachable objects |
| Gc.SurvivorsKept | runtime/sage_runtime.c:274-338 | after sweeping, every traced edge still leads to an object of its own type, and so does whatever the roots and words held |
| Gc.HeldIsLive | runtime/sage_runtime.c:159-230 | every value in a live string, array, dict, tuple, instance, closure or exception keeps the block it points at, unless that is a class |
| Gc.RawPointersIgnored | runtime/sage_runtime.c:159-230 | the class pointer of an instance and the environment of a closure have no influence on what is kept |
| Gc.ClassSurvivesIff | runtime/sage_runtime.c:1326-1339 | a class object survives a collection exactly if some scanned word is its payload address |
| Gc.NothingLostIff | runtime/sage_runtime.c:274-338 | a collection frees nothing the program can still get to, through all values in roots, words and bodies, if and only if every class that a root, a value in a live object or a live instance refers to, and every block captured in the malloc'd environment of a live closure, is live by another path |
| Gc.ClassNotKept | runtime/sage_runtime.c:1341-1346 | a heap where an instance on the stack survives and the class it points to is freed |
| Gc.CaptureNotKept | src/aot.c:3516-3546 | a heap where a closure on the stack survives and an array in its environment is freed |
| Dict.RunRefines | runtime/sage_runtime.c:992-1119 | any sequence of assignments and deletions keeps the table sane; if no deletion empties a slot on another key's probe it is the finite map with the same updates, which holds for every run without deletions |
| Dict.RemoveHealthyIff | runtime/sage_runtime.c:1101-1119 | deleting a key leaves a table in which every key can be found if and only if no other stored key is probed across the emptied slot |
| Dict.RemoveEffect | runtime/sage_runtime.c:1101-1119 | after a deletion in any sane table the key is gone, and another key is found as before unless its probe inspects the emptied slot, in which case it is not found |
| Dict.AssignRefines | runtime/sage_runtime.c:1023-1045 | assignment, growth included, keeps any table sane and refines the update of the map |
| Dict.LookupRefines | runtime/sage_runtime.c:1047-1063 | a lookup in a healthy table is a lookup in its map |
| Dict.GrownKeeps | runtime/sage_runtime.c:1002-1014 | doubling keeps every slot as often as it occurs, makes room, and makes every key findable again if no key is stored twice |
| Dict.LostKey | runtime/sage_runtime.c:1070-1088 | deleting a key that another is probed across loses the other, which stays stored and counted; assigning it again stores it twice |
| Dict.DeletingALosesI | runtime/sage_runtime.c:1023-1119 | in a new dictionary: assign "a" and "i", delete "a", and "i" is not found although one entry is counted |
| Dict.RuntimeDict.Set | runtime/sage_runtime.c:1023-1045 | the slots become those of the specified assignment; a healthy dictionary becomes the updated map |
| Dict.RuntimeDict.Get | runtime/sage_runtime.c:1047-1063 | the probe ends and returns what the map has, or nil |
| Dict.RuntimeDict.Has | runtime/sage_runtime.c:1065-1068 | true exactly for keys stored with something other than nil |
| Dict.RuntimeDict.Grow | runtime/sage_runtime.c:1002-1014 | new slots that hold the specified rehashing |
| Dict.RuntimeDict.Remove | runtime/sage_runtime.c:1070-1088 | clears exactly the slot found and says whether there was one |
| CallGraph.Warshall | src/aot.c:4389-4394 | closing the relation in place gives exactly the pairs joined by a walk of at least one step |
| CallGraph.ClosureIsConnected | src/aot.c:4389-4394 | the rounds of the closure, all taken, are the existence of a walk |
| CallGraph.DetectRecursion | src/aot.c:4369-4402 | collection, call matrix, closure and recording give the specified list of names |
| CallGraph.CollectedAre | src/aot.c:4370-4380 | the analysis looks at the first 256 procs, with their names cut to 63 characters |
| CallGraph.RecordedExactly | src/aot.c:4369-4402 | for every list of collected procs, a name is recorded if and only if it lies on a cycle of the calls the scan sees |
| CallGraph.ListScanned | src/aot.c:4323-4367 | every call by bare name, in whatever position the tree has, is either found by the scan or in a listed skipped position, and the scan finds nothing else |
| CallGraph.ExprScanned | src/aot.c:4269-4322 | the same for expressions, where interpolated strings and compile-time expressions are skipped |
| CallGraph.RecordedIffOnCycle | src/aot.c:4369-4402 | in a program that fits the tables only procs on a cycle of actual calls are recorded, and all of them if no default value calls a proc and whatever a proc calls in a skipped position it also calls where the scan looks |
| CallGraph.LongNameNotRecorded | src/aot.c:4370-4380 | a proc whose name exceeds 63 characters is never recorded |
| CallGraph.LongNameOnCycle | src/aot.c:4370-4380 | for a name of any length, the proc that only calls itself is on a cycle, so a long one is missed |
| CallGraph.SkippedCallNotRecorded | src/aot.c:4323-4367 | for every statement that calls the proc it is in, but only where the scan does not look: the proc fits the tables, is on a cycle, and is not recorded |
| CallGraph.AllHidden | src/aot.c:4269-4367 | such statements: a call in an interpolated string, a compile-time expression, the pattern or the guard of a case, a yield, or an annotated, compile-time or spawned block |
| CallGraph.DefaultCallNotRecorded | src/aot.c:1454-1478 | a proc that calls another whose default value calls the first one back calls itself, since defaults are evaluated by the caller, and is not recorded |
| Unwind.StackBoundedIff | src/aot.c:4143-4152 | for every program, the number of active procs has a bound over all runs if and only if every cycle of calls, those through default values included, has a recorded proc on it |
| Unwind.BoundedStack | runtime/sage_runtime.h:618-650 | in every state of every run of a program that fits the tables and is fully scanned, at most 1001 guarded activations and as many others as there are procs |
| Unwind.RecordedCyclesGuarded | src/aot.c:4369-4402 | such programs have no cycle of unrecorded procs |
| Unwind.SkippedCallUnbounded | src/aot.c:4269-4367 | every proc that calls itself only where the scan does not look goes deeper than any bound |
| Unwind.DefaultCallUnbounded | src/aot.c:1454-1478 | and so does the one that a default value leads back to |
| Unwind.StepKeepsValid | src/aot.c:2576-2606 | every step that does not jump out of an open try keeps the chain equal to the open try frames and the counter equal to the live guarded activations |
| Unwind.ReachableBounded | runtime/sage_runtime.h:633-650 | in every reachable state the counter is exact and at most one above the limit |
| Unwind.CatchRestores | runtime/sage_runtime.c:1890-1917 | whatever ran inside a try, catching the exception that ends it restores exactly the stack, chain and counter from before the try |
| Unwind.RaiseLands | runtime/sage_runtime.c:1890-1903 | a raise lands in the innermost open try frame |
| Unwind.ReturnKeepsValidIff | src/aot.c:2576-2606 | a return keeps the invariant if and only if the activation has no open try |
| Unwind.LeaveBreaksValid | src/aot.c:2576-2606 | a break or continue out of a try always leaves a dangling frame on the chain |
| ParamTypes.ProgramParamIff | src/aot.c:4465-4484 | a parameter keeps a type if and only if the annotation, if any, and all scanned calls agree on it; the type then suits every call of the program, and every default value, if and only if the unscanned calls and the defaults agree too |
| ParamTypes.ParamTypeIff | src/aot.c:3598-3658 | for any sequence of observations a concrete type survives exactly if everything agrees on it |
| ParamTypes.OrderIrrelevant | src/aot.c:3598-3658 | the order and number of the observations do not matter |
| ParamTypes.ListCovered | src/aot.c:3660-3697 | every argument of every call, in whatever position the tree has, and every default value is either observed or in a listed skipped position |
| ParamTypes.CollectAll | src/aot.c:4465-4484 | the scans for all procs that are not generic and all class and struct constructors change the type environment as specified |
| ParamTypes.TypeEnv.ScanExpr | src/aot.c:3598-3658 | records exactly the specified observations, in order, while types are read from the environment being changed |
| ParamTypes.TypeEnv.ScanList | src/aot.c:3660-3697 | the same for statement lists |
| ParamTypes.TypeEnv.SetVarType | src/aot.c:117-138 | a new entry, the same type again, or demotion to unknown |
| ParamTypes.TypeEnv.InferType | src/aot.c:184-239 | the inferred type on the environment's map; by which rules, and what it is true of, is in `TypeSoundness.InferIff` and `InferSoundIff` |
| ParamTypes.UnscannedSite | src/aot.c:3636-3651 | a call inside an array passes a string to a parameter that keeps the type int |
| ParamTypes.UnscannedDefault | src/aot.c:4465-4484 | a default value that is a string does not keep its parameter from the type int |
| TypeSoundness.InferIff | src/aot.c:184-239 | an expression is given a type if and only if one of the rules for that type applies: the literals and builtins of the type, comparisons and negations, arithmetic on operands that have numeric types, recorded variables |
| TypeSoundness.InferSoundIff | src/aot.c:184-239 | if the variables have the kinds that are recorded for them, and operators and builtins yield what compiled code makes of them, then the value of an expression has the type that is inferred for it, if any, exactly if the expression is not written with `~` |
| TypeSoundness.KeptIff | src/aot.c:3598-3697 | if no call of the proc is where the scan does not look, a parameter keeps a type if and only if the annotation, if any, and the arguments of all calls anywhere in the program agree on it |
| TypeSoundness.KeptParamSound | src/aot.c:3598-3697 | such a parameter gets only values of the type it keeps, whenever the arguments of a call are evaluated, except from arguments written with `~` |
| TypeSoundness.TildeArgument | src/aot.c:205-205 | a parameter keeps the type of truth values although the only call passes an int |
| StructLayout.LayoutSound | runtime/sage_runtime.c:1701-1730 | every field has its own aligned bytes inside the struct, disjoint from all others, and the size is a multiple of its alignment |
| StructLayout.AlignIsLeast | runtime/sage_runtime.c:1699-1699 | for a power of two, the mask rounds up to the least multiple |
| StructLayout.StructDef | runtime/sage_runtime.c:1701-1730 | the loop computes the specified layout, or nil at a bad type |
| StructLayout.FieldKeptIff | runtime/sage_runtime.c:1701-1730 | a field keeps its type and place if and only if no later field has its name and the name is not that of a total |
| StructLayout.SetThenGet | runtime/sage_runtime.c:1745-1783 | writing a field of any type and reading it back gives what the field keeps of the value (an integer truncated, a float as close as four bytes come, a double and a pointer as they were), and every other field keeps its bytes |
| StructLayout.CodedIff | runtime/sage_runtime.c:1764-1783 | every field of a layout takes every value, except that a pointer field takes only pointers |
| StructLayout.DecodeEncode | runtime/sage_runtime.c:1745-1783 | little-endian bytes give the number modulo the width |
| StructLayout.FitsUnchanged | runtime/sage_runtime.c:1745-1783 | a number within the signed range of its field comes back as it was |
| StructLayout.NumberKeptIff | runtime/sage_runtime.c:1745-1783 | a number comes back unchanged if and only if its field holds it: 0 to 255 for char and byte, and the signed numbers of 16, 32 and 64 bits for short, int and long |
| StructLayout.StructSet | runtime/sage_runtime.c:1764-1783 | overwrites exactly the bytes of the field; nothing for an unknown field, an unknown type, or a pointer field given no pointer |
| StructLayout.StructGet | runtime/sage_runtime.c:1745-1762 | reads the field's bytes by its type, or gives nil |
| Environment.AssignedMeans | src/env.c:207-239 | an assignment succeeds exactly if the innermost binding exists and is mutable; then it changes what that name means and nothing else, and otherwise nothing; bindings keep their places and their mutability |
| Environment.DefinedNodes | src/env.c:57-93 | defining a name changes what it means and nothing else; bindings keep their places and their mutability, and a new one goes in front |
| Environment.Env.Assign | src/env.c:207-239 | the walk over the parent scopes, through index or list, performs that assignment |
| Environment.Env.Define | src/env.c:57-93 | an existing binding keeps its place and mutability, a new one goes in front; index and list stay in agreement, outer scopes as they were |
| Environment.Env.DefineConst | src/env.c:105-155 | the same for constants, and the ninth binding builds the index |
| Environment.Env.Get | src/env.c:158-184 | returns the innermost binding's value, whether found by index or by list |
| Environment.Env.GetNode | src/env.c:186-205 | returns the scope and node of the innermost binding |
| Strings.JoinSplit | runtime/sage_runtime.c:746-767 | joining the pieces with the separator gives the string back, for every string and separator |
| Strings.SplitIff | runtime/sage_runtime.c:746-767 | a list is the split of a string if and only if it joins to the string and the cuts are the leftmost ones, or, for the empty separator, all parts are single characters |
| Strings.SplitJoinIff | runtime/sage_runtime.c:746-767 | for a separator of one character, splitting a joined list gives it back if and only if it is not empty and no part contains the separator |
| Strings.PiecesLack | runtime/sage_runtime.c:746-767 | no piece contains a non-empty separator |
| Strings.StrSplit | runtime/sage_runtime.c:746-767 | the loop over occurrences computes the pieces |
| Strings.ArrayJoin | runtime/sage_runtime.c:912-932 | the measured buffer is filled exactly, with the joined string |
| Strings.StrReplace | runtime/sage_runtime.c:783-814 | the counted buffer is filled exactly, with the pieces joined by the replacement |
| Strings.ReplacedLength | runtime/sage_runtime.c:783-800 | the length computed beforehand is that of the result |
| EditDistance.Edist | src/firefly.c:231-244 | the one-row loop returns the least number of insertions, deletions and substitutions between the two names up to case |
| EditDistance.DistIsMinEdits | src/firefly.c:231-244 | the recurrence computes the least cost of any edit script |
| EditDistance.NameDistIsPseudometric | src/firefly.c:231-244 | on names it is symmetric, obeys the triangle inequality, is zero exactly for names that have the same letters in upper or lower case, and lies between the difference and the maximum of the lengths |
| EditDistance.EligibleIff | src/firefly.c:268-273 | a name is suggested only at a distance of one for up to three characters, up to two for up to six, and up to three otherwise |
| EditDistance.TriangleInequality | src/firefly.c:231-244 | the distance obeys the triangle inequality for every three strings |
| EditDistance.Suggest | src/firefly.c:261-281 | the search through the scopes returns the first visible name among the closest eligible ones, with its distance, or none if none is eligible |

## Findings

Properties that the source or its design suggests and that do not hold, each with a
lemma that shows it and the condition under which the property does hold.

- Deleting a dictionary key can lose another one (`runtime/sage_runtime.c:1080-1082` and
  `1113-1115` clear the key; the comment calls it a tombstone, but probes stop there).
  `Dict.DeletingALosesI`, `Dict.LostKey`. Exact condition: `Dict.RemoveHealthyIff`.
- `continue` in a `for` skips the advance of the counter, so compiled code does not end
  (`src/codegen.c:787-794` jumps to the condition label). `IselTheorem.ForContinueDiverges`.
  `CompilerCorrect` needs no more than that the `continue`s are inside `while`.
- From loop depth 64 on, `while` compiles to nothing and `for` to its head
  (`src/codegen.c:599-616`). `IselTheorem.DeepLoopDropped`; `Isel.DeepWhileCode` and
  `Isel.DeepForCode` say exactly what is emitted.
- Dead code elimination drops the `let` of a variable that is only assigned
  (`src/dce.c:58-124` does not count the target of an assignment as used), or read only where the pass
  does not look: in interpolated strings and compile-time expressions, after `await`, in ranges,
  `??`, `?.`, `!` and `?` (default case of `src/dce.c:58-124`), in default values, guards, parent classes,
  async procs and in annotated, compile-time and spawned blocks (`src/dce.c:132-200`). It drops
  initialisers whose calls are inside a dict, tuple, slice, property read or interpolated string
  (`src/dce.c:206-233`). And it drops methods, which are procs in the list of a class and whose names
  are not read as variables (`src/dce.c:280-282`). `PassTheorems.AssignedOnlyBreaks`, `HiddenReadFails`,
  `HiddenCallDropped`, `MethodDropped`. `EliminationPreserves` holds for programs with none of this
  (`Liveness.Eliminable`), and more generally if every name that occurs is also read where the pass
  looks and what may be dropped has no effects (`PassTheorems.SafeElimination`).
- Inlining keeps the first of two procs of one name if the second is no candidate
  (`src/inline.c:124-146`), and takes the first of two parameters of one name where a call
  binds the last. It also drops or repeats the effects of an argument that the result uses not at
  all or more than once (`src/inline.c:163-236`). `PassTheorems.StaleCandidateRuns`,
  `Inline.DuplicateParams`, `PassTheorems.EffectDropped`.
  `InliningPreservesRuns` holds for programs with none of this (`Inlinable.IsInlinable`): procs that only
  return an expression compute it from distinct parameters without effects; every proc, class, variable,
  loop or pattern variable, handler, parameter or assignment with such a name is that proc itself; patterns
  are no calls of it; and it is called with arguments without effects. More generally:
  `PassTheorems.SafeInlining`.
- Recursion detection misses procs with names over 63 characters (`src/aot.c:4377`), and calls that are
  made in interpolated strings (`src/aot.c:1782` compiles what is between the braces), compile-time
  expressions (`src/aot.c:1919`), match patterns and guards (`src/aot.c:2368`), yields, nested procs, classes
  and implementations, annotated blocks (`src/aot.c:2311-2318`), spawned blocks (`src/aot.c:3499`),
  compile-time blocks (`src/aot.c:3506`), and in default values, which are compiled at the call
  (`src/aot.c:1454-1478`); the comment at `src/aot.c:4262-4267` admits under-detection.
  `CallGraph.LongNameNotRecorded`, `SkippedCallNotRecorded`, `AllHidden`, `DefaultCallNotRecorded`,
  `Unwind.SkippedCallUnbounded`, `DefaultCallUnbounded`. Exactly what is recorded:
  `CallGraph.RecordedExactly`. Exactly when the stack is bounded nevertheless: `Unwind.StackBoundedIff`.
- A return, break or continue out of a try block leaves the frame of a function that is
  gone on the exception chain (`src/aot.c:2576-2606` emits no unlinking). `Unwind.LeaveBreaksValid`.
  Exact condition for returns: `Unwind.ReturnKeepsValidIff`.
- A parameter can keep a native type although some call passes another: calls inside arrays, dicts,
  tuples, slices, interpolated strings and other expressions are not scanned (`src/aot.c:3636-3651`), nor
  are matches, tries, iterables of a `for`, and annotated, compile-time and spawned blocks
  (`src/aot.c:3664-3692`), nor default values, which are compiled for the parameter's type
  (`src/aot.c:1464-1470`). `ParamTypes.UnscannedSite`, `UnscannedDefault`. Exact condition:
  `ParamTypes.ProgramParamIff`; for programs in which no call is out of sight, `TypeSoundness.KeptIff`.
- `~` is taken for a truth value (`src/aot.c:205`), while it yields an int (`src/aot.c:583-596`,
  `src/interpreter.c:2766-2773`). `TypeSoundness.TildeArgument`. Exact condition: `TypeSoundness.InferSoundIff`.
  What is inferred for a call by name also trusts that nobody redefines `len`, `int` and the other
  builtins (`src/aot.c:231-235`); `TypeSoundness.Fits` says so.
- An instance does not keep its class alive (`runtime/sage_runtime.c:1329` allocates the class as a
  collected block, `159-230` does not trace the pointer to it), nor a closure what is captured in its environment
  (`src/aot.c:3527` gets it from malloc). `Gc.ClassNotKept`, `Gc.CaptureNotKept`. Exact conditions:
  `Gc.ClassSurvivesIff`, `Gc.NothingLostIff`.
- The last `gc_resume` enables a collector that was disabled in between
  (`runtime/sage_runtime.c:345-348`). `Gc.Collector.Resume`.
- `has` reports a key stored with nil as missing (`runtime/sage_runtime.c:1065-1068`).
  `Dict.RuntimeDict.Has`.
- A struct field named `__size__` or `__align__`, or repeated later, is lost
  (`runtime/sage_runtime.c:1701-1730`). Exact condition: `StructLayout.FieldKeptIff`.

## Left out

- IselTheorem.CompilerCorrect: covers literals, globals, operators, indexing, arrays and tuples, print, let, if, while, for, return, break and continue; not calls, procs, classes, imports, match, dicts, slices and assignments (the instruction `Unmodelled` marks what the selector emits for those). That a run fails is compared, the output before the failure is not.
- IselTheorem.SourceRuns: the source meaning is the generator's own: every `let` and loop variable is a global and `and` and `or` evaluate both sides. The interpreter scopes loop variables and short-circuits; the two differ there. Break and continue outside loops are excluded, and so is `__for_idx__` as a name of the program.
- Isel.Selector.SelectExpr: calls, dicts, slices, property reads and assignments are one `Unmodelled` instruction; operator kinds are those of the tree; the source's union read of an integer literal as a double and the positions of strings in instructions are not modelled. The emission of machine code from virtual instructions is left out.
- Isel.Selector.SelectSimple: procs, imports, matches and defers are one `Unmodelled` instruction.
- Pipeline.Compile: the type check and the safety analysis that run before the three passes, which only report.
- PassTheorems.FoldingPreserves: yield, defer, async, implementation, annotated, compile-time, spawn and struct statements are rewritten or left by the model as by the source (`UnrunKept`), but running one is an error in the evaluator; so are an undefined callee, a `?` that returns early, and an exception raised between braces (where the interpreter keeps the text) or by what a pattern that is no plain value evaluates. Run-time errors of operators and builtins are errors here, where some of them report and go on with nil. Classes, exceptions and what a pattern other than a name matches are made by the outside; a class has at most one parent, given by name. Output before an error is not compared (nor in the two theorems below). Arrays are values: an element assignment is an event for the outside, not a change that a later read sees. `let` always binds mutably, and assigning an undefined name is an error. What the host and builtins do is a parameter that must not look inside procs.
- PassTheorems.EliminationPreserves: one direction: a run of the original that fails may be a run of the result that does not, because dead code may have been what failed.
- PassTheorems.InliningPreservesRuns: one direction, since a call before the definition fails and its inlined form need not. Procs are run in the global scope and one fresh scope; closures over other scopes are left out.
- Inline.InlineStmt: a candidate that calls another candidate: the source's candidate shares the expression with the proc, which the pass itself may replace meanwhile; the model keeps the original. `IsInlinable` excludes it, since such a result contains a call.
- Gc.Collector.Collect: the words of the stack, the registers and the data segment are a parameter, as is the set of roots; the address a new block gets is arbitrary. The reference-counting and ownership modes, manual allocation and threads are left out, and the contents of environments appear only in `NothingLostIff`.
- Gc.Collector.Alloc: an object size above 32 bits is truncated in the header as in the source; the live-byte counter is then no longer exact (`Balanced`). The counters themselves are unbounded.
- Dict.RuntimeDict.Set: the copying and freeing of key strings, keys that are no strings, and capacities above the int range.
- Unwind.StackBoundedIff: which of its calls a proc makes is not modelled: a run may make any call that occurs in the active proc. So the bound holds for all real runs, while a real program may not reach a cycle.
- Unwind.BoundedStack: calls of closures, methods and the runtime itself, defers, imported modules and threads, which each have their own counter. A return, break or continue out of an open try is excluded.
- CallGraph.RecordedIffOnCycle: only calls by bare name count as calls; macros, which the compiler turns into procs beforehand, are procs here.
- ParamTypes.ProgramParamIff: the types of fields and of locals inside procs; the key buffer of 280 bytes. A default counts as passed whether or not some call leaves the argument out.
- TypeSoundness.InferSoundIff: that assignments and later definitions keep the variables at their recorded kinds is a condition on the states in which operands are evaluated (`Steady`), not proved of whole programs; the compiler records the kinds of top-level `let`s only. The interpreter gives nil where compiled operators give a truth value or a number (comparisons of unlike kinds, division of ints by zero); the hypotheses follow the compiled ones (`src/aot.c:583-739`).
- StructLayout.SetThenGet: how the machine rounds a double to four bytes is a parameter; copying of structs.
- Environment.Env.Define: the index is a map, not the hash table of `src/gc/env_hashmap.c`; mark bits and the cleanup of environments.
- Strings.ArrayJoin: arguments that are no strings, and how other values print. Strings are sequences of bytes without a terminator.
- EditDistance.Edist: names are compared up to ASCII case.
- The parser, the interpreter's own execution, the bytecode virtual machine, the just-in-time compiler, the formatter, the language server, modules, concurrency, the foreign function interface and the standard library.
