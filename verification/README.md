# A verified model of JamVM's core

This project models the parts of JamVM that interlock: linking and method dispatch, the interpreter that
rewrites its own bytecode, the flat word stack that all method frames share, exception unwinding and
monitors, the two lock-free or lock-and-wait protocols (constant-pool resolution and class
initialisation), the heap allocator, the hash tables with their UTF-8 and string interning, the
descriptor scanner and the class-file reader. The specification behind them is the Java Virtual Machine
Specification (JVMS), sections 2.6, 2.10, 4.1 to 4.7, 5.5 and 6.5.

How the pieces fit together:

- `Descriptors`, `Hierarchy`, `Linking`, `LinkResults`, `Dispatch`, `FieldLayout`: class declarations, what `linkClass`
  computes from them, and when a method-table access is the name search it replaces.
- `Bytecode`, `Reference`: programs, and the machine that never caches anything. It keeps every frame's
  locals and operand stack apart, resolves every operand each time and selects methods by name.
- `Instructions`, `CallsAndThrows`: what that machine does, stated without its own functions: every modelled
  instruction from its bytes, which method a call runs and with which frame, and where an exception goes.
- `Quickening`, `Simulation`: the dispatch that overwrites its own instruction, and the proof that any
  run of it is a run of the reference machine. `InvokeExamples`: two programs on which it is not, because
  an invoke site fails the condition of that proof.
- `RewriteRaces`, `RewriteProgress`: the same rewriting by any number of threads, one byte access at a time,
  and that the threads get on.
- `Monitors`: the monitors held over any run of the reference machine, and of native code that calls back.
- `FlatStack`, `Interpreter`, `Execute`: `executeJava` and `executeMethodVaList` on one array of stack
  words and one array of code bytes, method by method, against the reference machine.
- `StackBounds`: how large the block of stack words has to be, from the operand-stack depths of the code.
- `Resolution`, `ClassInit`, `ClassInitOutcome`, `ClassInitProgress`: the two protocols as step relations over
  any number of threads.
- `Allocator`, `HashTable`, `Utf8`, `Interning`, `LoadedClasses`, `ClassFile`: the imperative data structures and readers.

Notes on the source:

- Where C's behaviour is undefined (an empty operand stack is popped, a reference leads to no object, a
  jump leads into the middle of an instruction) the reference machine is `Stuck`, and theorems about
  runs speak of runs that do not become stuck. It is stuck too where code breaks a rule of sections 4.9.1
  or 4.10 of the JVMS: a receiver whose class is no subclass of the method's, invokevirtual of a `<...>`
  method.
- `resolveMethod` checks neither access nor kind. The reference machine does for every resolved method what
  section 6.5 of the JVMS says, and `Quickening.QuickSafe` is the condition on the program's invoke sites
  under which C does the same; `Quickening.InvokeFormMatches` says of each site that its quick form stands
  for the reference operation if and only if the site meets the condition. Its parts:
  - A static method called as an instance method, or the other way round, is an IncompatibleClassChangeError;
    C raises none.
  - invokevirtual of a private method runs that method. C runs what is in the receiver's table at
    method_table_index, which is zero for a private method. That is the method of the JVMS if and only if the
    method is not private (`Simulation.TableSlotExactlyForNonPrivate`); `InvokeExamples.OwnPrivateMethodFails`
    is a program that calls the wrong method.
  - `invokespecial` takes a call for one of a superclass method if the method is not private and not `<...>`
    (interp.c:1237). Section 6.5 also asks that the method belongs to a superclass. The table access of
    `invokesuper_quick` is the call of the JVMS if and only if it does
    (`Simulation.SuperSlotExactlyForSuperclasses`); for a public method of the current class C reads past the
    end of the superclass's table (`InvokeExamples.OwnPublicMethodFails`).
  - At those sites `invokesuper_quick` keeps 16 bits of the method-table index, which give it back exactly
    below 65536 (`Quickening.SuperIndexRoundTrips`).
- `CREATE_TOP_FRAME` (frame.h:16-18) stores the new stack pointer in a temporary and leaves `sp` unset;
  the model sets it, as the two lines after it need.
- `lookupMethod` does not skip private, static and `<...>` methods when `linkClass` looks for an
  overridden one (class.c:525). Table dispatch then disagrees with the name search exactly if a class on
  the superclass chain redeclares a signature and changes whether it belongs in the table:
  `Dispatch.DispatchExactlyWhenCoherent`, with a three-class example in `Dispatch.PrivateThenPublicFails`.
- `GETFIELD_THIS` and method exit use a cached `this`, unwinding uses local 0. Instance methods that do
  not assign their local 0 are required, and then all three are one object in every reachable state
  (`Simulation.StepOk`).
- `expandHeap` follows a null pointer if the free list is empty (alloc.c:198). `Allocator.Heap.GcMalloc`
  says when a request ends so, in both directions, and `Allocator.FullHeapFaults` is one that does.
- `state` is static and a met request does not reset it (alloc.c:330-349). After an OutOfMemoryError it is 3,
  and the next request that finds nothing from `chunkpp` on fails at once: without a collection, and
  without a scan of the blocks before `chunkpp`. `GcMalloc` has the exact condition; in
  `Allocator.FreeBlockIsMissed` a request fails although a free block is large enough.
- invokeMethod tests only where the callee's frame struct begins (interp.c:1548); struct and operand stack lie
  beyond stack_end, which each overflow raises by 1024 bytes for good. `StackBounds.DepthsKeepRunSafe` says
  how far beyond stack_end a run can reach.
- initClass cannot deadlock under two conditions. Classes can be ranked so that each is above its superclass
  and above what its static initialiser asks for; without it some run deadlocks, so this condition is exact
  (`ClassInitProgress.DeadlockExactlyIfUnranked`). And Java code holds no class's monitor when it asks for a
  class or ends a static initialiser; without it a run deadlocks although no initialiser asks for anything
  (`ClassInitProgress.HeldMonitorCanDeadlock`).
- A resolved constant-pool entry can be locked again by a thread that was past its recheck; the value in
  memory does not change while it is (`Resolution.ResolvedValueStays`).

## Model

| member | source | states |
|---|---|---|
| Dispatch.DispatchExactlyWhenCoherent | class.c:520-550 | over every linked class and all its superclasses, indexed dispatch agrees with the name search if and only if no class on the chain changes whether an inherited signature belongs in the table |
| Dispatch.DispatchAgrees | class.c:524-550 | for every ancestor and every table-eligible method a search there finds, the slot of the subclass at that method's index holds exactly what the search in the subclass finds |
| Dispatch.TablesAreSound | class.c:537-550 | along a coherent chain every slot is filled by a method with that index that the name search finds, and every visible eligible method is in its slot |
| Dispatch.SlotSignaturesDistinct | class.c:524-550 | no two slots of a method table carry the same name and descriptor |
| Dispatch.IndexIsInherited | class.c:525-526 | an eligible method keeps its table index in every subclass, however often it is overridden |
| Dispatch.InheritedSlotIsFree | class.c:524-528 | no method of a class takes the slot of an inherited method that the class does not redeclare |
| Dispatch.DispatchImpliesCoherent | class.c:520-528 | if dispatch agrees everywhere on the chain, no class on it changes eligibility |
| Dispatch.EligibleOverIneligibleFails | class.c:524-526 | a table method that hides a private, static or `<...>` one breaks dispatch |
| Dispatch.IneligibleOverEligibleFails | class.c:520-522 | a private, static or `<...>` method that hides a table method breaks dispatch |
| Dispatch.PrivateThenPublicFails | class.c:524-526 | three concrete classes for which every linking breaks dispatch |
| Dispatch.PrivateThenPublicIsWellFormed | class.c:524-526 | those three classes are what a class loader may produce |
| Linking.ClassTable.LinkClass | class.c:443-553 | linking a class links its unlinked superclasses, keeps every linked class properly linked, changes no other class, and zeroes static fields |
| Linking.ClassTable.PrepareFields | class.c:475-493 | each instance field lies behind the inherited words and those declared before it, two words for a field of type J or D and one for any other; object_size is the sum; static fields are zeroed |
| Linking.ClassTable.PrepareMethods | class.c:495-535 | argument counts, maxLocals of natives, table indices and the finalizer of all methods of a class |
| Linking.ClassTable.PrepareMethod | class.c:497-528 | one method's argument count from its descriptor and its index: that of the method it overrides, or a new one |
| Linking.ClassTable.BuildTable | class.c:537-550 | every slot holds the class's own method with that index, or else the inherited entry |
| Linking.NewSlotIsFilled | class.c:527-550 | every slot past the inherited ones belongs to one of the class's own methods |
| Linking.LinkingKeepsOthers | class.c:457-466 | linking a class leaves every other linked class as it was |
| FieldLayout.FieldsAreDisjoint | class.c:468-493 | any two instance fields of an object, inherited ones included, occupy disjoint words inside the object, two for J and D and one for any other type |
| FieldLayout.SizeIsExact | class.c:468-493 | object_size is the sum, over all instance fields that objects of the class have, of two words for J and D and one for any other type |
| FieldLayout.SizeGrows | class.c:468-469 | an object of a subclass is at least as large as one of a superclass |
| FieldLayout.OffsetIsExact | class.c:481-488 | a field's offset is the words of all fields of the superclass and of the instance fields declared before it |
| Linking.CellsOfType | class.c:484-487 | a field whose descriptor is a printed type takes the words of that type |
| LinkResults.ArgumentWords | class.c:497-515 | args_count is the words of the argument types, and one for a receiver; a native method's max_locals is the same and its max_stack zero |
| LinkResults.TableHoldsVirtualMethods | class.c:519-550 | every slot of a method table holds a method of the class or a superclass that is not static, not private and not `<...>` |
| LinkResults.FinalizerIsNearest | class.c:530-535 | the finalizer is the nearest finalize()V up the superclasses that is virtual and not java.lang.Object's, and there is none only if no class has one |
| Hierarchy.FindMethod | resolve.c:11-21 | the loop finds the first method of the class with this name and type, and fails only if there is none |
| Hierarchy.LookupMethod | resolve.c:41-51 | the search finds a method of the nearest class upwards that declares one of this name and type, and fails only if no ancestor does |
| Hierarchy.LookupOwner | resolve.c:41-51 | a found method belongs to an ancestor, and no class in between declares one like it |
| Hierarchy.IsSubClassOf | cast.c:22-25 | the loop decides whether one class is some number of superclass steps above the other |
| Hierarchy.AncestorTransitive | cast.c:22-25 | being an ancestor is transitive |
| Hierarchy.LookupIsNearest | resolve.c:41-51 | the same of the search as a function |
| Hierarchy.FoundIsLookup | resolve.c:41-51 | where no class declares a signature twice, a method of the nearest declaring class is the one the search finds |
| Hierarchy.FindField | resolve.c:26-39 | the loop finds the first field of the name, and only if it has the type |
| Hierarchy.LookupFieldUp | resolve.c:53-63 | a field is found in the nearest class upwards that has it, inherited ones included, and fails only if no ancestor has it |
| Hierarchy.LookupFieldIsNearest | resolve.c:53-63 | the same of the search as a function |
| Descriptors.ScanIsExact | sig.h:10-26 | on every printed descriptor the scanner stops just past the closing bracket and its widths are those of the argument types |
| Descriptors.CountArgWords | sig.h:10-26 | the scan counts the argument words the grammar gives |
| Descriptors.SkipArgument | sig.h:18-23 | the scan of one argument ends where the grammar ends it, through any array brackets |
| Quickening.FetchIsOk | interp.c:384-442 | from any code whose instructions each have their loaded or a quick form, one dispatch keeps all of them in form, comes closer to an operation if it only rewrites, and otherwise yields one that stands for the reference operation |
| Quickening.SuperIndexRoundTrips | interp.c:1239-1249 | the two operand bytes of invokesuper_quick give the table index back if and only if it is below 65536 |
| Quickening.InvokeFormMatches | interp.c:1197-1278 | an invoke instruction in a quick form stands for the reference operation if and only if its site meets the condition: the kinds agree, invokevirtual names no private method, and what C takes for a superclass call names a superclass's method with an index below 65536 |
| Quickening.RewriteInvokeOk | interp.c:1202-1245 | resolving and rewriting an invoke keeps every instruction in form |
| Quickening.OthersKept | interp.c:193-209 | rewriting one instruction leaves all others in form, the fused aload_0 before a getfield included |
| Quickening.FetchLoadOk | interp.c:427-442 | the same for aload_0, aload_this and getfield_this |
| Quickening.SlowFieldOk | interp.c:1055-1097 | the same for the slow field instructions |
| Simulation.QuickRunSimulates | interp.c:384-1615 | n dispatches of the self-rewriting machine, for any n and any program, end in exactly the state the reference machine reaches after some k <= 2n steps, and n is at most 3k plus a constant, so it never rewrites for ever |
| Simulation.QuickStepSimulates | interp.c:384-1615 | one dispatch is none, one or two reference steps, and none only while it comes closer to an operation |
| Simulation.FusedIsTwoSteps | interp.c:1109-1112 | getfield_this does in one step what aload_0 and getfield do in two |
| Simulation.MatchedOp | interp.c:987-1293 | an operation that stands for the reference operation has its effect on locals, stacks, fields, statics and pc |
| Simulation.SlotIsLookup | interp.c:1215-1252 | the table entry that a quick invoke reads is the method the name search finds, and takes as many arguments |
| Simulation.SuperSlotExactlyForSuperclasses | interp.c:1237-1252 | the table entry that invokesuper_quick reads is the method the JVMS runs if and only if the resolved method belongs to a superclass |
| Simulation.TableSlotExactlyForNonPrivate | interp.c:1215-1223 | for an instance method of an ancestor of the receiver's class, the table entry at its index is the method the JVMS runs if and only if the method is not private |
| InvokeExamples.OwnPublicMethodFails | interp.c:1237-1252 | a program with invokespecial of a public method of the class itself: after four dispatches the self-rewriting machine has no callee, while the reference machine has entered the method |
| InvokeExamples.OwnPrivateMethodFails | interp.c:1197-1223 | a program with invokevirtual of a private method: after four dispatches the self-rewriting machine has entered another method than the reference machine |
| Simulation.StepOk | interp.c:1545-1615 | every step keeps the cached receiver of each frame equal to its local 0, and the monitor it took equal to the one its flags name |
| Instructions.PushConstant | interp.c:302-382 | aconst_null, iconst, bipush and sipush push the word of their constant, with signed operand bytes |
| Instructions.LoadConstant | interp.c:384-405 | ldc and ldc_w push the integer, float or string of the pool entry they name |
| Instructions.LoadLocal | interp.c:413-464 | the loads push the local variable their opcode or operand byte names |
| Instructions.StoreLocal | interp.c:520-552 | the stores pop into the local variable they name, and nothing else changes |
| Instructions.IncrementLocal | interp.c:810-812 | iinc adds a signed byte in 32 bits |
| Instructions.PopDupSwap | interp.c:599-678 | pop, dup and swap |
| Instructions.AddAndSubtract | interp.c:680-693 | iadd and isub leave the word of the sum and the difference, modulo 2 to the 32 |
| Instructions.BranchOnZero | interp.c:886-904 | the six branches compare a signed int with zero and jump by a signed 16-bit offset |
| Instructions.BranchOnCompare | interp.c:905-923 | the same for two ints |
| Instructions.GoTo | interp.c:924-926 | goto jumps by its signed offset |
| Instructions.Statics | interp.c:987-1044 | getstatic and putstatic read and write the static field of the nearest class that has it |
| Instructions.GetFieldReads | interp.c:1055-1107 | getfield pushes the object's word at the field's offset, or throws for null |
| Instructions.PutFieldWrites | interp.c:1077-1184 | putfield changes that word and no other, or throws for null |
| Instructions.UnresolvedField | resolve.c:229-236 | a field that no ancestor has is a linkage error |
| Instructions.InvokeVirtual | interp.c:1197-1223 | invokevirtual runs the nearest method of that name and type from the receiver's class upwards, or throws for null |
| Instructions.InvokeInterface | interp.c:1280-1293 | invokeinterface runs the nearest method of that name and type from the receiver's class upwards, throws for null, and has nothing to run only if no ancestor declares one |
| Instructions.InvokeSuper | interp.c:1235-1252 | invokespecial of a superclass's method runs the nearest one from the superclass upwards |
| Instructions.InvokeItself | interp.c:1242-1258 | other methods named by invokespecial, and private ones named by invokevirtual, are run themselves |
| Instructions.InvokeStatic | interp.c:1260-1278 | invokestatic runs the method it names |
| Instructions.WrongKind | interp.c:1197-1283 | a static method called as an instance method, or the other way round, throws |
| Instructions.UnresolvedMethod | interp.c:1202-1206 | a method that no ancestor declares is a linkage error |
| CallsAndThrows.CallOpensFrame | interp.c:1540-1586 | a call takes its arguments from the caller's operand stack, in order, as the first locals of a new frame at the method's entry, and the monitor its flags name: the class's for a static method, the receiver's otherwise |
| CallsAndThrows.NativeCall | interp.c:1561-1576 | a native method's result is pushed or its exception thrown, with its monitor held around it |
| CallsAndThrows.CallOverflows | interp.c:1548-1551 | a call whose frame begins beyond stack_end throws and raises stack_end by 1024 bytes |
| CallsAndThrows.ReturnToCaller | interp.c:1589-1615 | a return leaves the caller's operand stack with the result on it and its pc behind the invoke, and gives back the monitor |
| CallsAndThrows.AThrow | interp.c:1305-1313 | athrow throws the object on the operand stack, or for null a NullPointerException |
| CallsAndThrows.ThrownToHandler | excep.c:40-58 | an exception goes to the innermost frame that has a fitting handler, and to the first such entry of its table, with the exception alone on the operand stack; the frames above are left and their monitors given back, innermost first |
| CallsAndThrows.ThrownOut | excep.c:40-58 | if no frame has one the call ends with the exception, and the outermost frame keeps its monitor |
| Reference.HandlerFrom | excep.c:12-38 | a handler is found if and only if an entry's range holds the pc and it catches the class, and then it is the first such entry's |
| RewriteRaces.RecheckedOperandsAreOriginal | interp.c:188-191 | in every state of every interleaving, a thread past the recheck of a slow opcode holds the operands as loaded |
| RewriteRaces.QuickOperandsAreFinal | interp.c:196-209 | a thread that dispatched on a quick opcode with rewritten operands holds the final operands, never a mixture |
| RewriteRaces.RacingThreadsRunTheRightOperation | interp.c:188-209 | whatever bytes a thread read, and whatever others wrote meanwhile, the operation it runs stands for the reference operation |
| RewriteRaces.OpcodesNeverReturn | interp.c:193-209 | an instruction that has left its loaded opcode never shows it again |
| RewriteRaces.UnlockedCodeIsWhole | interp.c:1529-1530 | whenever no instruction shows OPC_LOCK, every instruction has its loaded or a whole quick form |
| RewriteRaces.StepKeepsInv | interp.c:188-209 | one byte access of one thread keeps the invariant of all instructions and all threads |
| RewriteRaces.DecisionIsRight | interp.c:1060-1096 | from the bytes a thread has read it resolves, rewrites and runs what the reference demands |
| RewriteProgress.AloneToOperation | interp.c:188-209 | from any instruction that does not show OPC_LOCK a thread that runs alone gets to its operation in at most 10 accesses for each dispatch, and at most three dispatches |
| RewriteProgress.StepsAdvance | interp.c:188-209 | in any interleaving each access of a thread brings it closer to its operation, unless it waits at OPC_LOCK, finds that another thread has changed the opcode, or has just rewritten the instruction |
| RewriteProgress.FetchEndsOrRewrites | interp.c:384-442 | a dispatch that yields no operation leaves an opcode with fewer rewritings to come |
| RewriteProgress.LockIsBeingReplaced | interp.c:196-209 | in every state of every run an instruction that shows OPC_LOCK is being written by a thread that can go on and will write another opcode |
| Monitors.CallRestoresMonitors | execute.c:46-59 | over every run of a call, however deep it nests and however it ends, the monitors held afterwards are those held before: each taken monitor was released exactly once, innermost first |
| Monitors.NestedCallsRestoreMonitors | execute.c:46-59 | the same when native methods call executeMethod again, any number of times and to any depth, each time on a dummy frame of its own |
| Monitors.WithoutCallsIsStep | interp.c:1561-1573 | a native method that calls nothing back is a step of the reference machine |
| Monitors.RunBalanced | interp.c:1561-1603 | in every reachable state exactly the monitors of the running synchronized methods are held, in order |
| Monitors.UnwindBalanced | excep.c:44-53 | unwinding releases the monitors of the frames it leaves, and not that of the outermost |
| FlatStack.TopChanges | interp.c:1545-1559 | a change above the locals of the last frame disturbs no other frame |
| FlatStack.PushFrame | interp.c:1545-1559 | a frame struct laid above the caller's operand stack leaves all frames below it intact |
| FlatStack.ChainDepends | interp.c:1545-1557 | the frames depend on no word above the top of the last operand stack |
| Interpreter.Interp.ExecuteJava | interp.c:241-253 | on the real stack words, code bytes and registers the loop ends in the state the reference machine reaches, with the code in form and no word below its frames changed |
| Interpreter.Interp.Turn | interp.c:384-1615 | one turn of the loop is some reference steps, or comes closer to running the instruction |
| Interpreter.Interp.Step | interp.c:384-1615 | one turn of the loop does to the data exactly what one step of the self-rewriting machine does |
| Interpreter.Interp.Dispatch | interp.c:384-442 | the opcode at pc is rewritten in place, or yields its operation, as the self-rewriting machine says |
| Interpreter.Interp.Execute | interp.c:987-1112 | every operation has its reference effect on the flat stack |
| Interpreter.Interp.InvokeMethod | interp.c:1540-1587 | stack overflow, native call or Java call as the reference machine does them |
| Interpreter.Interp.JavaCall | interp.c:1545-1586 | the callee's locals are the caller's argument words where they lie, and nothing below them changes |
| Interpreter.Interp.CallHolds | interp.c:1545-1586 | after the frame struct is written, the flat stack holds the caller without its arguments and the callee with them as first locals |
| Interpreter.Interp.NativeCall | interp.c:1561-1576 | a native method's monitor is taken and released around it, its frame is gone, and its result or exception reaches the caller |
| Interpreter.Interp.MethodReturn | interp.c:1589-1615 | the caller's operand stack is its old prefix plus the result, its pc is past the invoke, and the monitor is released unless the method is the outermost |
| Interpreter.Interp.BackToCaller | interp.c:1592-1614 | the registers the return takes from the caller's frame struct |
| Interpreter.Interp.SelectCallee | interp.c:1215-1293 | receiver check and selection by table index or superclass index; for invokeinterface the callee is a method of that name and type declared by the nearest class from the receiver's class upwards |
| Interpreter.Interp.ThrowException | interp.c:1617-1638 | the handler's frame goes on with the exception alone on its operand stack, or the call ends with it |
| Interpreter.Interp.FindCatchBlock | excep.c:40-58 | the loop leaves frames and releases monitors as unwinding in the reference machine does |
| Interpreter.Interp.FindCatchBlockInMethod | excep.c:12-38 | a handler if and only if an entry's range, start included and end excluded, holds pc and its class is zero or resolves to an ancestor of the exception's class; then the first such entry's |
| Interpreter.Interp.OpcodeRewriteOperand2 | interp.c:203-209 | the three bytes end in the quick form |
| Interpreter.Interp.ResolveFieldOp | interp.c:987-1097 | the slow field instructions resolve and rewrite as the self-rewriting machine says |
| Interpreter.Interp.ResolveInvoke | interp.c:1197-1283 | the slow invokes resolve and rewrite as the self-rewriting machine says |
| StackBounds.DepthsKeepRunSafe | interp.c:1546-1587 | if every instruction is reached with one operand-stack depth, at most the method's max_stack, then a run with at most v overflows never reaches further than two frame structs and the largest max_stack beyond stack_end plus v times 1024 bytes: the room that ExecuteJava and ExecuteMethod ask for |
| StackBounds.StepKeeps | interp.c:384-1615 | every step keeps each running frame at the depth of its instruction, each calling frame at that of its invoke less the arguments, and each frame's start below stack_end |
| StackBounds.RunKeeps | interp.c:1548-1549 | the same over any number of steps, in which stack_end rises by 1024 bytes for each overflow |
| StackBounds.BoundedFits | interp.c:1546-1557 | how far the last frame of such a machine reaches |
| Execute.ExecuteMethod | execute.c:27-64 | a call returns its result at ret or leaves its exception pending, restores last_frame and the held monitors, and changes no word below the dummy frame |
| Execute.PushArguments | execute.c:41-44 | the argument words are pushed in order, as many as linkClass counted |
| Execute.CreateTopFrame | frame.h:10-30 | the method's frame struct on a dummy frame over the caller's, above the caller's operand stack; nothing below changes |
| Execute.PopTopFrame | frame.h:32-33 | if a dummy frame and the caller's frame lie under last_frame, as CREATE_TOP_FRAME leaves them, last_frame is the caller's frame again |
| Execute.LockedCall | execute.c:46-59 | the monitor of a synchronized method is released after the call, whichever way it ends |
| Resolution.DecodedIndicesAreOriginal | resolve.c:78-84 | in every interleaving, indices are used only if they are those of the class file |
| Resolution.ResolversAgree | resolve.c:112-162 | every call that succeeds returns the one value of its entry, also when it read the value half by half while others stored it |
| Resolution.ResolvedValueStays | resolve.c:69-76 | once an entry was resolved, both halves of its value stay in memory, even while it is locked again |
| Resolution.NeverRawAgain | resolve.c:92-94 | a tag never becomes raw again, and a raw entry has never been touched |
| Resolution.SomeoneIsStoring | resolve.c:71-72 | behind every locked entry there is a thread that stores its value; it can take its next step, or it waits for the lock of the string table and the holder can release that |
| Resolution.StepKeepsInv | resolve.c:65-270 | one memory access of one resolver keeps the invariant of all entries and all threads |
| Resolution.ResolvedCallsSucceed | resolve.c:74-76 | once an entry was resolved, every call for it that begins afterwards ends with its value and never with NULL |
| Resolution.NullOnlyAfterSearch | resolve.c:78-110 | a call ends in NULL only by a step in which the search for its class fails or its nested resolveClass has ended, with the indices of the class file |
| Resolution.StepsAdvance | resolve.c:65-110 | each access of a thread brings its innermost call closer to its end or begins a nested one, unless it waits for a locked entry or finds that another thread has changed the tag |
| Resolution.ReadersAdvance | resolve.c:74-76 | a call for a resolved entry needs four of its own accesses, whatever the others do |
| ClassInit.ClinitRunsAtMostOnce | class.c:567-598 | over all interleavings each class's static initialiser is started at most once |
| ClassInit.ClinitStartsAfterSuperclass | class.c:588-598 | a static initialiser starts only when the superclass is initialised or is being initialised by the same thread |
| ClassInit.ReturnsAreSettled | class.c:567-631 | every return finds the class initialised, or bad with an exception pending, or being initialised by the caller; an exception is pending only in the second case |
| ClassInit.SettledIsFinal | class.c:574-624 | CLASS_INITED and CLASS_BAD are final |
| ClassInit.StepKeepsInv | class.c:556-632 | every step of initClass and every step of Java code keeps the invariant |
| ClassInitOutcome.ThrowingInitialiserFails | class.c:598-631 | a class whose static initialiser ends with an exception is initialised in no later state, and that call returns only with the class bad and an exception pending |
| ClassInitOutcome.EndingInitialiserSucceeds | class.c:598-631 | a class whose static initialiser ends without one is bad in no later state, and that call returns only with the class initialised and nothing pending |
| ClassInitOutcome.ThrowingSuperclassFails | class.c:588-595 | a class whose superclass fails is initialised in no later state |
| ClassInitProgress.DeadlockExactlyIfUnranked | class.c:567-598 | whatever classes the static initialisers may ask for: if Java code holds no class's monitor when it asks or when an initialiser ends, a run into a deadlock exists if and only if the classes cannot be ranked with superclasses lower and what an initialiser asks for lower |
| ClassInitProgress.InitialisationCannotDeadlock | class.c:567-595 | if classes can be ranked with superclasses lower, static initialisers ask only for classes of lower rank or already in their thread's hands, and Java code holds no class's monitor when it asks for a class or ends an initialiser, then as long as any call is in progress some call can step, without a spurious wake-up, or Java code can release a class's monitor |
| ClassInitProgress.SomeoneIsEnabled | class.c:567-595 | following the waits leads down in rank to a call that is not blocked, or to Java code that holds a class's monitor |
| ClassInitProgress.UnrankedCanDeadlock | class.c:567-598 | if some classes each need another one of them, a run with a thread for each class ends with all of those threads waiting |
| ClassInitProgress.OutermostCallsCannotDeadlock | class.c:567-595 | if no static initialiser asks for a class, and Java code asks with no class monitor held, there is no deadlock: the order of loading is a ranking |
| ClassInitProgress.MutualInitialisersCanDeadlock | class.c:567-598 | two classes whose initialisers use each other, and two threads that wait for each other for ever: a concrete run |
| ClassInitProgress.HeldMonitorCanDeadlock | class.c:564-595 | without the condition on monitors two threads can wait for each other although no static initialiser asks for anything: a concrete run |
| Allocator.Heap.GcMalloc | alloc.c:214-349 | it terminates; a returned block is its caller's own, aligned to 8, large enough and cleared; the first fit from the next-fit pointer is taken if there is one; no other block moves or changes. Without other threads, a heap at its maximum size fails if and only if nothing from the next-fit pointer on fits and, in states 0 and 1 only, no collection makes room; so from state 0 it fails only if no block anywhere fits, from state 3 whatever else is free. It faults if and only if the heap is below its maximum, all that failed too, and no block is free |
| Allocator.Heap.AllocFailed | alloc.c:263-326 | the failure states, each exactly: collections end in state 2 if and only if they make no room, an expansion that the maximum does not cut short lets the next scan succeed, states 2 at the maximum and 3 end the call; each that does not end the call brings it closer to an end |
| Allocator.Heap.Finalise | alloc.c:272-289 | case 1: it goes back to state 0 if and only if a collection after finalisers makes room, and to state 2 otherwise |
| Allocator.FreeBlockIsMissed | alloc.c:236-322 | five requests on a heap of 48 bytes, the last of which fails although a free block has its size |
| Allocator.FullHeapFaults | alloc.c:198-198 | two requests on a heap below its maximum, the second of which follows the null pointer |
| Allocator.Heap.ExpandHeap | alloc.c:177-211 | the new chunk is appended to the address-ordered list, by half the heap or what is needed, cut at the maximum and rounded down to 8 bytes; it faults if and only if no block is free |
| Allocator.Heap.Growth | alloc.c:184-194 | half the heap or what is needed, whichever is more, but not beyond the maximum, rounded down to 8 bytes |
| Allocator.Heap.TryAllocate | alloc.c:236-258 | the first fit from chunkpp on is carved from the list and the rest stays free; if there is none nothing changes |
| Allocator.Heap.Scan | alloc.c:236-258 | the scan stops at the first free block that is large enough, with chunkpp at the link to it |
| Allocator.Heap.Take | alloc.c:240-256 | unlinking and splitting keep the heap tiled and the list in address order |
| Allocator.Heap.constructor | alloc.c:112-141 | heapbase is the first address with aligned payloads behind the start of the mapped block, the heap takes as many units of 8 bytes as fit, and it is one free chunk |
| Allocator.Heap.Gc0 | alloc.c:266-268 | the contract of the collector: blocks that stay allocated keep their place and contents, the scan starts at the head, and the result is the largest free size |
| Allocator.Heap.RunFinalizers | alloc.c:277-279 | the contract of the window in which the heap lock is free |
| Allocator.TilesCover | alloc.c:130-141 | every word of the heap belongs to exactly one block |
| Allocator.CarveTiled | alloc.c:240-256 | carving a block keeps the partition |
| Allocator.CarveLinked | alloc.c:240-256 | carving a block through the link that leads to it keeps headers and links those of the blocks |
| Allocator.CarveFreeWords | alloc.c:334-334 | the free words shrink by exactly the words carved |
| Allocator.AppendLinked | alloc.c:198-207 | appending behind the last free chunk keeps headers, links and sum |
| HashTable.Table.FindHashEntry | hash.h:36-85 | find-or-insert on a map from contents to pointers: the entry with this content, or else the new pointer; the table doubles exactly when an insertion fills more than three quarters |
| HashTable.Table.Probe | hash.h:44-52 | the probe ends, at the entry with the key or at an empty slot, and then no entry has the key |
| HashTable.Table.ResizeHash | hash.c:8-32 | the table holds the same entries in the new number of slots, each reachable from its home slot |
| HashTable.Table.constructor | hash.h:26-33 | an empty table |
| HashTable.ProbeIsExact | hash.h:46-52 | an empty slot at the end of a probe means the key is nowhere in the table |
| HashTable.InsertKeeps | hash.h:56-61 | filling that slot keeps every entry reachable without gaps and no two equivalent |
| HashTable.NotAllPassed | hash.h:46-62 | a table that is not full has an empty slot on every probe |
| HashTable.MaskIsMod | hash.h:44-51 | masking with a power of two less one is reduction modulo it, for negative hashes too |
| HashTable.Table.FindInterned | utf8.c:64-70 | interning is the step function that the history lemmas are about |
| HashTable.InterningIsCanonical | hash.h:46-82 | over every call history, with memory changing between the calls except for interned strings, two calls return the same pointer if and only if the contents were equal |
| HashTable.InternAll | hash.h:36-85 | any history of interning calls on one real table, through its probes, insertions and resizes, returns the results of the history lemmas, equal exactly for equal contents |
| HashTable.InternedPointerIsFirst | hash.h:56-61 | the pointer returned for a content is the first one it was asked for with, across all resizes |
| Interning.InternedUtf8 | utf8.c:64-74 | a history of findUtf8String from the empty table, each with the memory of its time: two calls return the same pointer if and only if the strings they were given decoded alike |
| Interning.InternedStrings | string.c:115-121 | the same for findInternedString and the characters of the strings |
| Interning.CompareUtf8 | utf8.c:10-11 | COMPARE decides equality of the decoded contents |
| Interning.CompareStrings | string.c:11-12 | COMPARE decides equality of the characters |
| LoadedClasses.ClassesAreUnique | class.c:67-78 | a history of addClassToHash and findHashedClass on the real table, with memory changing between the calls except for the classes in the table: each call returns the first class added under its name and loader so far, itself included, and NULL if there is none |
| LoadedClasses.FindHashedClass | class.c:678-694 | a look-up by name and loader changes nothing and finds the class the table holds under them |
| LoadedClasses.AddClassToHash | class.c:67-78 | the class is entered under its name and loader unless one is there, and the one there is returned |
| LoadedClasses.CompareClass | class.c:72-74 | COMPARE decides equality of name and loader |
| Utf8.RoundTrip | utf8.c:18-35 | decoding the encoding of any sequence of 16-bit units gives it back, wherever it lies in memory |
| Utf8.EncodingIsInjective | utf8.c:18-30 | different sequences have different encodings |
| Utf8.ConvertUtf8 | utf8.c:32-35 | the buffer receives the decoded units and nothing else changes |
| Utf8.Utf8Len | utf8.c:76-85 | the length is the number of units convertUtf8 writes |
| Utf8.Utf8Hash | utf8.c:37-47 | the hash is a function of the decoded units, in 32-bit arithmetic |
| Utf8.Utf8Comp | utf8.c:49-62 | the comparison holds if and only if the decoded units are equal |
| Utf8.CreateString | string.c:93-113 | the string's characters are the decoded units |
| Utf8.StringHash | string.c:59-70 | the hash of the characters, the same function as for UTF-8 strings |
| Utf8.StringComp | string.c:72-91 | the comparison holds if and only if the characters are equal |
| Utf8.HashIsPolynomial | utf8.c:37-47 | the hash is the 32-bit int of the polynomial of the characters in 37, for both kinds of strings |
| ClassFile.ClassRoundTrips | class.c:95-361 | for every class file by sections 4.1 to 4.7 the reader recovers the pool, names, fields, methods, code and tables, and ends exactly at the last byte |
| ClassFile.PoolRoundTrips | class.c:120-180 | every entry comes back in its slot, longs and doubles in two |
| ClassFile.PackedIndices | class.c:142 | two packed indices survive the sign extension of the shifted int |
| ClassFile.CodeRoundTrips | class.c:282-331 | code, exception table and line number tables of a method come back |
| ClassFile.AttrRoundTrips | class.c:237-251 | an attribute that is not looked for is skipped to its last byte |
| ClassFile.TableRoundTrips | class.c:227-343 | a counted table comes back if its entries do |
| ClassFile.DefineClass | class.c:84-361 | the reader's outcome on any bytes, its three errors included: bytes that do not begin with CA FE BA BE are a bad magic number, and only those that do give a class |
| ClassFile.FillPool | class.c:120-180 | the loop that fills the pool |
| ClassFile.OtherTagsAreBad | class.c:127-180 | a pool entry is a bad tag if and only if its tag is not in table 4.3 |

## Left out

- Two-word values on the operand stack (long and double, and fields of those types): the C text advances the stack by one word for them (interp.c:346, 409, 1120). The layout of such fields is in `FieldLayout`, their arguments in `Execute.PushArguments`.
- Opcodes that neither get rewritten nor call: arithmetic beyond iadd and isub, arrays, object creation, type checks, switches, monitorenter and monitorexit, jsr and ret. They add cases of the kinds that are modelled.
- Class initialisation set off by resolution inside the interpreter: `Bytecode` takes what a class reference resolves to as given. `ClassInit` models initialisation itself.
- Garbage collection, finalizers and object allocation bodies: stubs in the source. Only their contracts appear, in `Allocator`.
- The object heap of the interpreter is a map from references to field words.
- Interpreter.Interp.NativeCall: a native method is a function from its arguments to a result or an exception; native code that changes the heap or calls back into Java is in `Monitors.NestedCallsRestoreMonitors` only, for the monitors.
- Monitors.CallRestoresMonitors: native methods call nothing back here; `Monitors.NestedCallsRestoreMonitors` has those that do.
- Execute.ExecuteMethod: one-word results, and native methods that call nothing back.
- Execute.CreateTopFrame: sp is set, where the text leaves it unset.
- Quickening.FetchIsOk: two-word constants and fields are undefined operations, as in Quickening.SlowFieldOk.
- Quickening.SlowFieldOk: see Quickening.FetchIsOk.
- Interpreter.Interp.Dispatch: two-word constants and fields are left out.
- Interpreter.Interp.ResolveFieldOp: two-word fields are left out.
- Interpreter.Interp.Execute: the opcodes listed above are left out.
- Interpreter.Interp.FindCatchBlockInMethod: the subtype test is the superclass test, without arrays and interfaces.
- Linking.ClassTable.PrepareMethods: the native_invoker of a native method is not set.
- Linking.ClassTable.BuildTable: writes beyond the table, possible only in the incoherent case, change no slot.
- isInstanceOf for arrays and interfaces (cast.c:7-20, 27-53): catch search uses the superclass test.
- The scavenge branch of findHashEntry, since no call asks for it, and the monitor cache, which compares hashes only (lock.c:19-23).
- slash2dots, freeThreadID, file loading, the class path, JNI, signals and thread start-up.
- Interpreter.Interp.ExecuteJava: stated for a reference run that ends within some number of steps and keeps room for one more frame struct on the stack block; `StackBounds.DepthsKeepRunSafe` gives the room from max_stack, stack_end and the number of overflows. C itself relies on the 1024 bytes behind stack_end.
- StackBounds.DepthsKeepRunSafe: the types of class-file verification are not modelled, only its depths; that the run does nothing undefined is a hypothesis.
- Interpreter.Interp.InvokeMethod: after an overflow stack_end stays raised by 1024 bytes, as in the source.
- RewriteRaces.RacingThreadsRunTheRightOperation: looking an operand up in the constant pool is one step there; `Resolution` breaks that step up. Memory is sequentially consistent.
- Resolution.ResolversAgree: the searches by name are given as functions, so it is about their caching and not about what they find; `Hierarchy` has the searches.
- ClassInit.StepKeepsInv: classes are linked beforehand, since linkClass writes the flags without a lock (class.c:552); the two stores that claim a class are one step, under its lock; Java code locks and unlocks a class's monitor but does not wait on it.
- Linking.ClassTable.LinkClass: an interface is linked after java/lang/Object, and each method table fits in memory; writes beyond a method table, possible only in the incoherent case, change no slot.
- Allocator.Heap.RunFinalizers: what other threads do to the heap while the lock is free is a script of their net effects; each window in which they act uses up one entry, so the call ends as soon as they leave it alone.
- Allocator.Heap.constructor: the initial heap has at least 15 bytes, without which C writes past its end.
- ClassFile.DefineClass: the interfaces and the superclass are kept as indices and not loaded, and no length is checked, as in the source; attributes nested in a Code attribute are read by functions.
