# The hard core of Lua 5.1.4

A model of the parts of the vendored Lua 5.1.4 (`lua/`) whose correctness is hard to see, with proofs:

- **The incremental collector** (`Gc*`). The heap is a map from ids to objects, with marks, gray lists, owner lists, the
  string table and the sweep position. Functions on whole states say what each step of `lgc.c`, `lstring.c` and `lfunc.c`
  does; one invariant, `GcState.Inv`, is kept by every step of the collector and of the program, in any order, also when
  a full collection begins while userdata are queued for their finalizers. `GcEffects` says what each step of the program
  leaves in the heap and `GcContents` what the collector leaves of it, entry by entry; `GcReferences` lists what refers to
  what. `GcMachine.GlobalState` is the collector as the C code has it, with fields that are updated in place by loops and
  recursion; its methods are proved to do what the functions say.
- **The compiler of logical expressions** (`Code*`). `CodeMachine` has the instructions and what expressions mean;
  `CodeGen` is `lcode.c` with patch lists as sequences; `CodeFlow` says, from the source alone, which value compiled code
  delivers; `CodeExact` says when it is the right one, `CodeLimits` when an expression is refused; `CodeEmit.FuncState` is `lcode.c` with patch lists threaded through
  the jumps of the code array, from single jumps to the compilation of a whole expression.
- **Sorting** (`TableSort`) for every order function, **precedence climbing** (`ParserExpr`), **tables** (`Table*`), **the
  pattern matcher** (`Pattern*`, with the written form of patterns in `PatternText`), **references** (`RefList`),
  **quoting** (`Quoting*`), and **precompiled chunks** (`Bytecode*`).

Where the C code works step by step, a class or a method with loops follows it, and its `ensures` ties the new state to a
function of the old one; the properties are lemmas about that function. Numbers are integers. An error that the C code
raises is a result.

`dafny verify dfyconfig.toml` checks everything.

## Model
| member | source | states |
|---|---|---|
| GcInitial.ProgramsAreSafe | lua/lgc.c:556-608 | after every run of program and collector steps from the initial state, an object that the program can reach, even weakly, exists, and no further step of either removes it |
| GcRuns.NeverFreed | lua/lgc.c:407-428 | the same from any state that satisfies the invariant |
| GcRuns.StepKeeps | lua/lgc.c:636-710 | every program step (stores with their barriers, unbarriered stack writes, allocation, interning, closures, closing upvalues, switching threads, changing globals or metatables) and every collector step, those of a full collection included, keeps the invariant and removes only dead objects |
| GcEffects.StepsDo | lua/lvm.c:134-155 | a store puts exactly the new contents into the object it names, an assignment to an upvalue changes exactly the slot or value it stands for, and a creation adds exactly the new object and its reference on the stack; strings are shared, closures get the upvalues they capture, closing gives upvalues the values of their slots; everything else in the heap and all other roots are as they were |
| GcInitial.ProgramsDo | lua/lvm.c:134-155 | the same for the next step of a program after any run from the initial state |
| GcEffects.AssignedValue | lua/lvm.c:447-452 | after an assignment to an upvalue, open or closed, its value is the new one |
| GcInitial.ColoursOfPrograms | lua/lgc.h:65-97 | whenever any program is in a mark phase, no black object refers to a white one, save a userdata that was queued in an earlier cycle; each gray object that is to be traversed is on one gray list, once, and threads and open upvalues are not black |
| GcInitial.ListsOfPrograms | lua/lstring.c:50-92 | after any program, strings of equal content are one object, each string is once in the list its hash selects and is counted; each open upvalue is once in the list of its thread, which descends strictly, and once in the list of all, and there is one for each slot |
| GcRuns.AtomicSpares | lua/lgc.c:525-552 | what is strongly reachable when the mark phase ends is alive after the atomic step |
| GcSurvivors.FullGcExact | lua/lgc.c:636-659 | from every state, a full collection leaves exactly what is reachable without weak references from the roots or from a userdata that is queued for its finalizer or awaits it, fixed objects, and strings found in weak tables; survivors have the current white and refer, weakly or strongly, to nothing that is gone |
| GcSurvivors.FullGcIsRun | lua/lgc.c:636-659 | a full collection is a sequence of the collector's steps between which a program may take its own, so safety holds throughout it |
| GcSurvivors.NothingAwaits | lua/lgc.c:128-153 | if no userdata is queued and no unreachable one has an uncalled finalizer, what a full collection spares because of references is exactly what is strongly reachable |
| GcInitial.FullGcOfPrograms | lua/lgc.c:636-659 | the same after any run from the initial state |
| GcContents.AtomicRemains | lua/lgc.c:337-375 | the atomic step changes no object but the tables on the list of weak tables, which are weak and alive; an entry of these, or a slot if values are weak, keeps its value exactly if key and value are no objects, strings, or alive, and the value is not a finalized userdata |
| GcContents.AtomicContents | lua/lgc.c:337-375 | if no black table is weak when the mark phase ends, these are exactly the weak tables that are alive |
| GcContents.FullGcContents | lua/lgc.c:636-659 | after a full collection from any state, every surviving object has its old contents, and every weak table exactly those entries, and slots if values are weak, whose key and value are no objects, strings, or survivors, the value no finalized userdata; upvalues have their old values |
| GcContents.StepRemains | lua/lgc.c:556-607 | no single step of the collector changes the contents of an object that it leaves, but for the tables that the atomic step clears, upvalues that are closed over their value, and the finalizer that is put on the stack |
| GcInitial.ContentsOfPrograms | lua/lgc.c:636-659 | the contents after a full collection are such after any run from the initial state |
| GcReferences.RefersExactly | lua/lgc.c:158-263 | an object refers to exactly the objects it holds, kind by kind, and strongly to those that are not a weak key, or a weak value or slot, of it |
| GcReferences.MetatablesMean | lua/lgc.c:158-175 | keys or values are weak exactly if the first entry for `__mode` in the metatable is a string with a `k`, or a `v`, before any zero; a userdata has a finalizer exactly if its metatable has an entry for `__gc` |
| GcReferences.RootsAre | lua/lgc.c:491-510 | the roots are the main thread, the running thread, the registry and the metatables of the basic types |
| GcFinalizers.QueuedInOrder | lua/lgc.c:128-153 | the userdata that the atomic step takes out of their list are appended to the queue in the order of the list, and the others keep theirs |
| GcFinalizers.FirstIsServed | lua/lgc.c:446-470 | the head of the queue returns to the head of its list, and exactly the finalizer that its metatable has now, with the userdata, goes on the running stack |
| GcFull.StepLeft | lua/lgc.c:636-659 | every step outside the pause decreases a bound, so a cycle ends |
| GcAwaiting.MovedAreAwaiting | lua/lgc.c:128-153 | if only what is strongly reachable has been marked so far and no black object refers to a white one, the atomic step queues exactly the userdata that are not strongly reachable, have a finalizer that has not been called, and are not queued already |
| GcAwaiting.ReachedIsNotMoved | lua/lgc.c:128-153 | whatever has been marked, a userdata is not queued if a way without weak references leads to it from a root past no userdata that is queued already |
| GcAwaiting.PreservedExact | lua/lgc.c:525-545 | if nothing else has been marked before, then when weak tables are about to be cleared the marked objects are exactly those that a way without weak references leads to, from a root or a queued userdata |
| GcMark.PropagateInv | lua/lgc.c:277-320 | traversing the first gray object keeps the colour invariant, the gray lists and the bits of weak tables, at every stage of the mark phase |
| GcStateMark.PreservedInv | lua/lgc.c:525-545 | the three traversals and the resurrection of userdata, queued now or before, end with no gray object left on the gray list, no black object that refers to a white one, without exception, and roots and queued userdata marked |
| GcStateMark.MarkRootKeeps | lua/lgc.c:500-510 | a mark phase may begin after a cycle or, in a full collection, while userdata are still queued: the invariant holds and no object changes |
| GcStateMark.AtomicKeeps | lua/lgc.c:525-552 | the atomic step, with the flip of the white, keeps the invariant and frees nothing |
| GcStateMark.MarkedIsClosed | lua/lgc.c:525-545 | when nothing is gray any more, a marked object that is not a weak table refers to marked objects only |
| GcExact.PropagateInside | lua/lgc.c:277-320 | traversing never marks an object outside a set that is closed under strong references |
| GcExact.ClearTablesWhite | lua/lgc.c:337-375 | clearing weak tables marks exactly the strings that it finds in them |
| GcSteps.SingleStepKeeps | lua/lgc.c:556-607 | one step in any phase keeps the invariant and removes only dead objects |
| GcSweep.SweepStringTable | lua/lgc.c:572-580 | sweeping one list of the string table leaves every surviving string once in its own list |
| GcMutator.ForwardKeeps | lua/lgc.c:662-672 | a store followed by the forward barrier keeps the invariant in every phase |
| GcMutator.BackKeeps | lua/lgc.c:675-683 | a store into a table followed by the backward barrier keeps it |
| GcMutator.StackKeeps | lua/lgc.h:86-97 | a store into a thread keeps it without a barrier |
| GcAllocate.AllocateKeeps | lua/lgc.c:686-692 | a new object is alive and its creation keeps the invariant in every phase |
| GcBits.SweepTest | lua/lgc.c:407-420 | the one test of a mark byte by the sweep keeps an object exactly if it is fixed or does not have the other white |
| GcBits.MakeWhiteByte | lua/lgc.c:32-35 | the macro does to the byte what recolouring does to the mark, and leaves all other bits |
| GcBits.FreeAllTest | lua/lgc.c:483-490 | with the mask of `luaC_freeall` the same test keeps exactly what is super-fixed |
| GcOrder.MarkAllOver | lua/lgc.c:69-112 | marking commutes with a change of the entries, the bits and the lists of an object that is already marked |
| GcOrder.MarkAllAppend | lua/lgc.c:69-112 | marking values in two portions is marking them at once |
| GcMachine.GlobalState.ReallyMarkObject | lua/lgc.c:69-112 | the recursive C function, which blackens a closed upvalue last, does what marking by worklist does |
| GcMachine.GlobalState.TraverseTable | lua/lgc.c:158-197 | the loops over a table, which mark, clean and set bits in turn, come to cleaning it first and then marking what it holds strongly |
| GcMachine.GlobalState.PropagateMark | lua/lgc.c:277-320 | the state after it is that of the function for one traversal, and the gray lists are as they should be |
| GcMachine.GlobalState.SeparateUdata | lua/lgc.c:128-153 | one pass over the userdata splits their list, in order, as the function says |
| GcMachine.GlobalState.ClearTable | lua/lgc.c:351-375 | the loops, which mark strings while they remove entries, come to the function for it, of which `AtomicRemains` says which entries stay |
| GcMachine.GlobalState.AtomicStep | lua/lgc.c:525-552 | the whole new state is that of the function for the atomic step |
| GcMachine.GlobalState.SweepList | lua/lgc.c:407-428 | the list keeps exactly its live objects, in order, all with the current white, and the dead are gone |
| GcMachine.GlobalState.CloseUpvalues | lua/lfunc.c:96-112 | the loop that closes upvalues, also while their thread is being freed, comes to the function for it |
| GcMachine.GlobalState.Step | lua/lgc.c:556-607 | one step of the machine is one step of the function, keeps the invariant and removes only dead objects |
| GcMachine.GlobalState.FullCollection | lua/lgc.c:636-659 | the machine ends, and what is left is exactly what the full collection is to keep |
| GcStrings.InternKeeps | lua/lstring.c:50-92 | in every phase the string that is returned has the asked content, is alive even if it was dead, is the only one with this content, and the table keeps its invariant |
| GcStrings.ResizeKeeps | lua/lstring.c:22-47 | after a resize each string sits once in the list that its hash selects, also during a sweep of strings |
| GcMachine.GlobalState.InternString | lua/lstring.c:75-92 | the walk along one list finds the string, or adds it, as the function says |
| GcUpvals.FindUpvalKeeps | lua/lfunc.c:53-79 | the upvalue of a slot is shared: it is the only open one of that slot, and the list stays strictly descending |
| GcCloseAll.CloseExact | lua/lfunc.c:96-112 | closing detaches exactly the upvalues at or above the level and changes no value seen through a live upvalue |
| CodeExact.PreservedUnlessLost | lua/lcode.c:539-590 | where comparisons keep their operands, a run delivers the source value exactly if control does not leave by a jump that carries another one |
| CodeExact.SafePreserves | lua/lcode.c:681-789 | every expression in which no merged value-carrying jump reaches a list that is closed is compiled to its meaning |
| CodeExact.SafeComputes | lua/lcode.c:681-789 | what the code of such an expression computes is the value of the expression, for all registers and comparisons |
| CodeMachine.Compose | lua/lcode.c:150-160 | patching and appending do not change what code does up to the jumps that were open: runs go on where they stopped |
| CodeClose.CloseSound | lua/lcode.c:390-411 | closing the lists puts, for every way in which a run arrives, the value it carries into the register, or the truth value if it carries none |
| CodeConditions.CodeNotOk | lua/lcode.c:594-626 | negation exchanges the exits, negates what falls through, and no exit carries a value any more |
| CodeConditions.GoIfOk | lua/lcode.c:539-590 | control falls through exactly if the value is truthy, or false-like for `goiffalse`, and otherwise leaves with the value, or with what the constant arm has merged |
| CodeSequel.JunctionSound | lua/lcode.c:745-760 | the second operand starts where the first falls through, and the exits of both are those of the whole |
| CodeCompare.CompareBothOk | lua/lcode.c:681-694 | the comparison tests the two operands in the registers or constants that hold them, exchanged for `>` and `>=` |
| CodeTheorem.CodeComputes | lua/lcode.c:390-411 | for every expression, all registers and every comparison, compiled code leaves exactly the computed value in the next register, changes none below, and raises an error exactly if there is none |
| CodeExact.NegationPreserves | lua/lcode.c:594-626 | a negated expression delivers its value however its operands were merged, because `codenot` drops the values |
| CodeExact.AvoidingIsSafe | lua/lcode.c:539-590 | every expression that avoids the two constant arms is such an expression |
| CodeExact.NumbersCompare | lua/lcode.c:681-694 | with the order of the numbers, the code of each of the six comparisons of safe operands whose values are numbers leaves the truth of that comparison |
| CodeLimits.RefusedOnlyAtLimits | lua/lcode.c:199-212 | an expression is refused only if the registers in use and its nesting of held operands reach the maximum, or the constants and its literals exceed theirs, or its size and the distance to a pending jump exceed the longest jump; what is accepted is within the limits |
| CodeExact.LostTruthExactly | lua/lcode.c:575-578 | `((x or false) and true) or false` delivers its value exactly if `x` is false-like or is `true` |
| CodeExact.LostFalsityExactly | lua/lcode.c:547-550 | `((x and 1) or true) or y` delivers its value exactly if `x` is not false-like |
| CodeStored.CompLists | lua/lcode.c:59-67 | after compiling any expression the pending jumps and the exits are open, pairwise disjoint lists of jumps generated since |
| CodeStored.StoredRun | lua/lvm.c:537-581 | a run of the stored words is the run of the instructions they stand for |
| CodeLists.IsListNoDup | lua/lcode.c:100-106 | a list that is threaded through the code array never meets a jump twice |
| CodeEmit.FuncState.PatchListAux | lua/lcode.c:150-160 | every jump of the list is retargeted once, to `vtarget` if a value is with it and to `dtarget` otherwise, and no other jump changes |
| CodeEmit.FuncState.NeedValue | lua/lcode.c:122-128 | it is true exactly if some jump of the list has no value with it |
| CodeEmit.FuncState.Concat | lua/lcode.c:185-196 | it appends: the new list is the first followed by the second, and only jumps of the first change |
| CodeEmit.FuncState.Close | lua/lcode.c:390-411 | closing the stored lists is closing the lists themselves, with or without the two loads |
| CodeEmit.FuncState.GoIfTrue | lua/lcode.c:539-564 | on stored words it does what it does on lists, and leaves all other lists alone |
| CodeEmit.FuncState.CodeNot | lua/lcode.c:594-626 | the same for negation, with the values removed from both stored lists |
| CodeEmit.FuncState.CodeComp | lua/lcode.c:681-694 | the same for comparisons, whose first operand stays an operand while the second is compiled |
| CodeEmit.FuncState.Comp | lua/lparser.c:828-848 | for every expression the stored state is the state with lists, all lists stay threaded and apart, and nobody else's jumps change |
| CodeEmit.FuncState.Compile | lua/lcode.c:414-419 | it fails only if such a limit is met, and otherwise the words that have been stored compute exactly the computed value in the next register, for all registers and comparisons, which is the value of the expression if it is safe; registers and constants are within their limits |
| ParserExpr.ExprExact | lua/lparser.c:828-853 | reading an expression gives a tree exactly if the tokens begin with the yield of a tree that the order of section 2.5.6 of the manual allows, no binary operator follows, and nesting is below the maximum |
| ParserExpr.SubexprExact | lua/lparser.c:828-848 | the same for `subexpr` with any limit, in terms of the table of priorities |
| ParserExpr.AllowedIsShaped | lua/lparser.c:810-821 | a tree is allowed by the order of the manual, which lists the classes of operators, exactly if the table of priorities allows it |
| ParserExpr.OneTree | lua/lparser.c:810-821 | two allowed trees with the same tokens are the same tree |
| ParserExpr.TooDeepExactly | lua/lparser.c:276-279 | if there is such a tree and it is nested too deeply, that is the error |
| ParserExpr.InARow | lua/lparser.c:810-848 | of two operators in a row, with any three operand trees, the second takes the operand between them exactly if it is in a tighter class than the first, or in the same and associates to the right; that tree alone is allowed and is read |
| ParserExpr.TighterTakes | lua/lparser.c:810-818 | of two operators of different classes, with any operand trees, the tighter takes the operand between them on whichever side it stands, and the other tree is not allowed |
| ParserExpr.Associates | lua/lparser.c:810-818 | of two operators of one class, with any operand trees, the second binds first for `^` and `..`, and the first for all others; the other tree is not allowed |
| ParserExpr.UnaryBinds | lua/lparser.c:821-837 | a unary operator takes a following `^` into its operand, and no other operator, whatever the operand trees |
| ParserExpr.Parser.SubExpr | lua/lparser.c:828-848 | the loop and recursion over the lexer state read, for every limit, what the function reads, of which `ExprExact` says the tree, and restore the nesting count |
| PatternTheorems.OutcomeExactly | lua/lstrlib.c:365-440 | for every pattern, well-formed or not, every subject, start and capture state, a match or an error is reported exactly if it is what the first choice that leads to either, in greedy and lazy order, leads to, and a failure exactly if no choice leads to either |
| PatternTheorems.SearchIsFirstMatch | lua/lstrlib.c:365-440 | so a reported match is the first derivation, a reported error comes before any match, and a reported failure means that there is neither |
| PatternTheorems.FirstMatchExactly | lua/lstrlib.c:365-440 | for a well-formed pattern an outcome is reported as a match exactly if it is that of the first derivation |
| PatternTheorems.WellFormedSoundComplete | lua/lstrlib.c:365-440 | a well-formed pattern matches exactly if there is a derivation, and then all captures are finished |
| PatternText.ParseIsInverse | lua/lstrlib.c:202-275 | every list of items, written as section 5.4.1 of the manual has it, is read back: sets with ranges, classes and complement, escapes, the four operators, captures, `%b`, `%f`, `%1` to `%9` and a final `$` |
| PatternText.ReadsBack | lua/lstrlib.c:365-440 | the same for items anywhere in a pattern, if the character that follows does not become part of the last one |
| PatternText.MalformedTail | lua/lstrlib.c:202-223 | after any such items, a final `%`, a `%b` without two characters, a `%f` without a set, or a set that is not closed is the malformed item, and everything before it is read |
| PatternText.OperatorTakes | lua/lstrlib.c:301-327 | in the text of a pattern, a class followed by `*` or `+` takes the longest run of its characters for which the rest matches, by `-` the shortest, by `?` one if it can, and fails only if no allowed run does |
| PatternClasses.ClassesMean | lua/lstrlib.c:226-242 | each of the ten letters stands for the listed characters, its capital for all others, and any other character for itself |
| PatternCaptures.CaptureHolds | lua/lstrlib.c:330-351 | in every match, a capture around items without captures of their own holds exactly the part of the subject that these match, to the end, and the rest matches from there |
| PatternCaptures.PositionHolds | lua/lstrlib.c:368-370 | an empty pair of parentheses holds the position where it stands |
| PatternMatcher.MatchState.DoMatch | lua/lstrlib.c:365-440 | the loop with mutable captures reports what the search says of the items that the text is read as, and on failure level and captures are as before |
| PatternMatcher.MatchState.MaxExpand | lua/lstrlib.c:301-313 | it tries the longest repetition first and all shorter ones after it |
| PatternMatcher.MatchState.EndCapture | lua/lstrlib.c:343-351 | it closes the last open capture for the rest of the match and opens it again on failure |
| PatternMatcher.MatchState.MatchBracketClass | lua/lstrlib.c:245-265 | it decides membership in the set that the brackets denote |
| PatternMatcher.FindAux | lua/lstrlib.c:495-535 | the leftmost start that matches is found, with its first match; none is reported only if no allowed start matches; an error is raised only if the leftmost start with any outcome has an error or an unfinished capture, and never by a well-formed pattern |
| PatternGsub.Gsub | lua/lstrlib.c:643-680 | the matches that are replaced are, in order, the first match at the leftmost place that has one, no more than the limit, with none left over if the limit is not reached, and the rest of the subject is copied; it is refused only where the first outcome is an error or a match has no replacement |
| PatternGsub.ItselfIsNothing | lua/lstrlib.c:643-680 | replacing each match by itself gives the subject back |
| TableSizes.Log2 | lua/lobject.c:54-69 | it is the position of the highest bit |
| TableSizes.ComputeSizes | lua/ltable.c:189-208 | the size is the largest power of two of which more than half of the slots would be in use, or 0, and the count is of the keys not above it |
| TableCounts.NumUseArray | lua/ltable.c:222-244 | it counts the used slots of the array part per slice between powers of two |
| TableCounts.NumUseHash | lua/ltable.c:247-260 | it adds the integer keys of the hash part per slice and counts all its entries |
| TableRehash.EnoughRoom | lua/ltable.c:333-350 | the new sizes leave a place for every entry and for the key that caused the rehash |
| TableRehash.GoodSizes | lua/ltable.c:333-350 | so do the sizes that `computesizes` finds, and the array part is at most the maximum |
| TableNodes.OnePredecessor | lua/ltable.c:399-429 | a node has at most one predecessor in its chain |
| TableValues.MovedValues | lua/ltable.c:408-417 | moving the colliding node changes the value of no key |
| TablePlacing.MovedPlaced | lua/ltable.c:410-417 | moving a colliding node that is out of its main position keeps every key on the chain from its main position |
| TablePlacing.ChainedPlaced | lua/ltable.c:418-423 | so does chaining the new key after a node that is in its main position |
| Table.Table.NewKey | lua/ltable.c:399-429 | a key that is absent gets a cell and no value changes; with room, no rehash happens; it fails only if the table is full |
| Table.Table.Put | lua/ltable.c:494-505 | the key has the value, every other key the value it had, and the number of entries changes by what the key had and gets; nil keys and an overflow of a full table are the only errors |
| TableEntries.EntriesAreKeys | lua/ltable.c:247-260 | there are as many stored entries as keys that have a value |
| Table.Table.Rehash | lua/ltable.c:333-350 | no value changes, and the pending key then has a place; the array part has the largest power of two of slots of which more than half have a value or get one, and the hash part the smallest power of two of nodes for all other keys |
| Table.Table.Resize | lua/ltable.c:297-324 | re-insertion never needs another rehash, no value changes, and the parts have the sizes asked for, the hash part rounded up to a power of two |
| Table.Table.GetN | lua/ltable.c:560-576 | the result is a border |
| Table.StoreAll | lua/ltable.c:494-505 | under any run of stores and any hash a table is the finite map of the last values stored; it fails only if entries and stores together exceed the maximum size |
| TableNext.NoKeyTwice | lua/ltable.c:162-179 | a traversal with assignments to existing fields and dying keys in between gives no key twice, gives only keys that have a value, and ends |
| TableNext.AllKeysCome | lua/ltable.c:137-179 | such a traversal gives every key that has a value throughout, and no call fails |
| Table.Table.Next | lua/ltable.c:162-179 | it gives the first entry with a value after the place of its argument |
| TableWalk.Walk | lua/lbaselib.c:226-235 | a loop that calls `next`, assigns and loses keys forms such a traversal and ends |
| TableSort.StaysExactly | lua/ltablib.c:193-254 | no array makes `sort` read outside a range, or raise the error for an invalid order function, exactly if the order function is asymmetric |
| TableSort.AuxStays | lua/ltablib.c:220-243 | an asymmetric order function, transitive or not, keeps every scan of every round inside its range |
| TableSort.ReflexiveLeaves | lua/ltablib.c:225-229 | with an element that is below itself, four of them make the first scan pass the end; the error is raised exactly if what it reads there is below the element |
| TableSort.SymmetricLeaves | lua/ltablib.c:231-235 | with two elements that are below each other, `x y y x` makes the second scan pass the beginning |
| TableSort.AuxRearranges | lua/ltablib.c:193-254 | for every order function, errors included, the range is a permutation of what it was, nothing else changes, and calls are nested no deeper than the logarithm of its length |
| TableSort.RoundDivides | lua/ltablib.c:196-243 | for a strict weak order a round divides the range at the final place of the pivot |
| TableSort.PartsSorted | lua/ltablib.c:244-254 | when both parts have been sorted, in either order, the range is sorted |
| TableSort.AuxSorts | lua/ltablib.c:193-254 | for a strict weak order the range is sorted |
| TableSort.DivideRange | lua/ltablib.c:223-243 | the loop over the array, with both scans and their checks, comes to the function for it |
| TableSort.AuxSortInPlace | lua/ltablib.c:193-254 | the loop that goes on with the larger part does what the recursion on both parts does, for every order function |
| TableSort.Sort | lua/ltablib.c:256-267 | the whole: a permutation of the slots 1 to n, in order for a strict weak order, inside the range for an asymmetric one |
| RefList.RefTable.Ref | lua/lauxlib.c:481-500 | the slot freed last is used first, and a new one only if none is free, which alone makes the table grow; the reference is new and has its value, all others keep theirs, and the free list stays threaded; it fails only if the table is full |
| RefList.RefTable.Unref | lua/lauxlib.c:504-512 | exactly this reference becomes the first free slot, the number of entries stays, and it fails only if the table is full |
| RefList.OnlyBorder | lua/lauxlib.c:495-498 | when no slot is free the table has one border, the number of live references |
| RefList.Popped | lua/lauxlib.c:488-494 | taking the first free slot leaves the rest of the list threaded, ending in nil |
| RefList.UseAll | lua/lauxlib.c:481-512 | over any run of taking and releasing, held references are different and give their values; it fails only if entries and uses together exceed the maximum size |
| Quoting.QuotedBack | lua/llex.c:276-329 | for every string and any input after it, reading what `%q` wrote gives the string and leaves that input, with the lines counted; only the line limit can prevent it |
| Quoting.AddQuoted | lua/lstrlib.c:696-723 | the loop writes the quoted form |
| Quoting.LexState.ReadString | lua/llex.c:276-329 | the loop reads, with escapes, newline pairs and errors, what the function says |
| Quoting.WriteAndRead | lua/llex.c:276-329 | the lexer, given what `addquoted` wrote, returns the string |
| QuotingForms.FormsRead | lua/llex.c:276-329 | however a string is written between either quote, with characters, letter escapes, escaped newlines of all four forms and one to three digits, it is read as section 2.1 of the manual says, and what follows is left |
| QuotingForms.LargeEscape | lua/llex.c:305-316 | a numeric escape beyond 255 is an error |
| BytecodeBack.UndumpIsInverse | lua/lundump.c:161-181 | undumping a dump gives the function exactly if every function of the tree has a source, the code check accepts all of them and nesting is within the limit |
| BytecodeBack.UndumpDump | lua/ldump.c:129-164 | stripped or not, what comes back has the same code; sources are inherited as they were left out, what follows the chunk is not read, and it fails exactly if the check or the limit does |
| BytecodeBack.StringBack | lua/ldump.c:61-74 | a string comes back, and none differs from the empty one |
| BytecodeBack.LoadedSame | lua/lundump.c:161-166 | inheriting the sources that were left out restores a tree exactly if all its functions have sources |
| BytecodeBack.LoadedCode | lua/ldump.c:111-141 | stripping changes sources and debug data only, in the whole tree |
| BytecodeBack.HeadBack | lua/lundump.c:166-174 | the fields up to the constants come back |
| BytecodeFormat.HeaderBytes | lua/lundump.c:214-227 | a chunk begins with the signature, the version, the format, the byte order and the five sizes, byte by byte |
| BytecodeFormat.LittleEndian | lua/ldump.c:45-53 | the bytes of a number are its digits to the base 256, the least significant first |
| BytecodeFormat.ConstBytes | lua/ldump.c:80-104 | nil, booleans, numbers and strings have the types 0, 1, 3 and 4 before their values |
| BytecodeFormat.FieldsInOrder | lua/ldump.c:129-141 | the fields of a function stand one after the other in the order of the format |
| BytecodeErrors.CutOffIsTruncated | lua/lundump.c:48-52 | a chunk that can be read, cut off anywhere, is reported as truncated |
| BytecodeErrors.UndumpExtends | lua/lundump.c:161-181 | any bytes: more bytes after them change neither a function nor any other error |
| BytecodeErrors.HeaderNeeded | lua/lundump.c:183-190 | nothing is accepted that does not begin with the header; any other beginning of that length is a bad header |
| BytecodeStreams.DumpState.DumpFunction | lua/ldump.c:129-141 | if the writer never fails it has been given the dump of the function |
| BytecodeStreams.LoadState.Read | lua/lzio.c:58-71 | it gives the next bytes of the stream whatever the chunks, and reports missing bytes exactly if there are too few |
| BytecodeStreams.LoadState.LoadFunction | lua/lundump.c:161-181 | it reads from the stream what the function makes of its bytes, with the same errors |
| BytecodeStreams.UndumpFrom | lua/lundump.c:195-209 | the result depends on the bytes alone, not on how the reader splits them |
| BytecodeStreams.DumpAndUndump | lua/ldump.c:153-164 | what one writer was given and any reader hands out comes back, with the same conditions |

## Findings
What the code does differs from what its comments or the manual say, or from what one would expect:

- The constant arms of `luaK_goiftrue` and `luaK_goiffalse` (lua/lcode.c:547-550 and 575-578) call `luaK_jump`, which puts
  the jumps that are pending at this place into its own list. Such a jump may carry a value, and it is then closed with
  that value although the expression has the constant. `CodeExact.LostTruthExactly` and `LostFalsityExactly` give two
  families over a local with the exact condition; `((1 or false) and true) or false` is 1 instead of `true`.
  `CodeExact.PreservedUnlessLost` says for every run when the value is right, `SafePreserves` for which expressions it
  always is.
- The checks for an invalid order function in `auxsort` (lua/ltablib.c:227 and 232) come after the comparison that reads
  outside the range, and the scan may stop there without an error. `TableSort.StaysExactly` has the exact condition:
  it cannot happen if and only if the order function is asymmetric. `TableSort.ReflexiveLeaves` and `SymmetricLeaves` give
  the arrays: four elements that are below themselves, as with `<=`, or `x y y x` with `x` and `y` below each other.
  Transitivity is needed for sorting, not for safety.
- A full collection that is called from a finalizer begins to mark while userdata are queued. These may be black and refer
  to white objects, which the usual colour invariant forbids; `marktmu` makes up for it (lua/lgc.c:115-122), and
  `GcInitial.ColoursOfPrograms` has the exception. A way that leads through such a userdata only does not keep another
  userdata from being queued, hence the condition of `GcAwaiting.ReachedIsNotMoved`.
- A string that is the key of an entry of a table with weak keys and values survives the cycle that removes the entry,
  because `iscleared` marks it before the value is looked at (lua/lgc.c:337-375). `GcExact.FoundAt` has the exact strings.
- `traversetable` returns before its loop for a table with weak keys and values (lua/lgc.c:177), so keys of empty entries
  in such a table are not marked as dead in that traversal; the invariant does not need it.
- A function without a source is given its parent's source by dumping and undumping (lua/ldump.c:131, lua/lundump.c:166),
  and a main function the source `=?`. `BytecodeBack.UndumpIsInverse` has the exact condition.

## Left out
- GcMachine.GlobalState.CallFinalizer: the call of the finalizer itself; the finalizer and the userdata are put on the
  stack, and the program goes on.
- GcMachine.GlobalState.FullCollection: finalizers may run between its last steps; the exact result is for finalizers that
  change nothing, and for the others `GcRuns.NeverFreed` holds at each step.
- GcContents.AtomicContents: a table that becomes weak after it has been traversed is cleared only in the next cycle; the
  condition says that there is none, and `AtomicRemains` covers all states.
- GcRuns.StepKeeps: `lua_setupvalue`, whose barrier is on the closure instead of the upvalue, and replacing the registry; a
  closure is allocated after the upvalues it captures, not before.
- CodeTheorem.CodeComputes: literals `nil`, which share LOADNIL instructions; operands other than constants, locals, `and`,
  `or`, `not` and comparisons; constant folding.
- CodeExact.SafePreserves: `Safe` is read off the expression, so it does not use what comparisons or locals turn out to be;
  the conditions per run are exact.
- CodeEmit.FuncState.Comp: the driver follows a given tree, not the tokens; line information and `lasttarget` of `luaK_nil`
  and `luaK_ret` are not kept.
- ParserExpr.SubexprExact: a simple expression, with its calls, indices and parentheses, is one token.
- PatternText.ParseIsInverse: sets whose ranges begin or end with `%`, of which the manual says that they have no meaning.
- TableSort.AuxSortInPlace: what `auxsort` does after a scan has stopped outside its range, which only an order function
  that is not asymmetric brings about; errors raised by the order function, and one that answers differently each time.
- BytecodeBack.UndumpDump: a number is its memory image; other sizes of C types and big-endian machines;
  `luaG_checkcode` is an arbitrary predicate.
- Quoting.QuotedBack: the limit on the size of the token buffer.
- Pacing of the collector (`estimate`, `gcdept`, thresholds) and the sizes that its functions return.
- Stack shrinking and the part of the stack above `top` that `traversestack` clears.
- PatternGsub.Gsub: how a replacement is made from a string, a table or a function; it is an arbitrary function of the match.
- `string.gmatch`, and `string.format` but for `%q`.
- `Table.flags` and other metamethod caches; metamethods enter only as arbitrary comparisons.
- Floating point: NaN, signed zero, and conversions of numbers.
- `symbexec`, the statements of the parser, function calls, coroutines, hooks, and the thin libraries.
- The C++ parts of the repository (protobuf encoder, LuaBridge).
