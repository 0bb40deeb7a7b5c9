# .KEK-on-Rails, verified

.KEK-on-Rails compiles a small object-oriented language to bytecode (C++), runs the bytecode on
a stack machine (C) and manages its heap with a copying collector. This project models its five
cores in Dafny and proves what each promises. `dafny verify dfyconfig.toml` checks everything.

## The cores and their main results

**The copying collector, in GC_NEW mode** (`Objects`, `HeapGraph`, `Ledger`, `HeapState`,
`HeapLayout`, `Collector`). Class `Cheney.Heap` has the two semispaces, the free and scan
pointers and the root areas as fields; headers are overwritten by forwarding addresses.
`Scavenge` succeeds exactly when the summed aligned sizes of the live objects are below the
segment size, and then the new heap is the live part of the old one under an injective renaming:
same types and contents, every traced pointer and every root replaced by its image, interior
pointers of arrays included. The fields of two objects never overlap, and after a scavenge
neither do the bytes that copying takes for them.

**Transparency of the collector** (`Instructions`, `InstructionLaws`, `SoundSteps`,
`Simulation*`, `ConstantArrays`, `Programs`, `Machine`). `Machine.Vm.RunProgram` executes loads,
stores, base/offset references, array indexing with growth, allocation, arithmetic, comparison,
output and jumps on the collected heap, after `Machine.Vm.InitConstArray` has given the constant
arrays their blocks. Its output is that of the same program on an unbounded heap, whatever
allocation triggers a scavenge, as long as the live objects and the request fit into one
semispace. What the instructions mean on that heap is said by laws of their own: subtraction is
undone by addition, what is stored is read back, an array is the sequence of its elements.

**The compiler against the dispatch loop** (`Operators`, `OperatorLaws`, `SourceLanguage`,
`SourceLaws`, `ConstTable`, `Bytecode`, `CompiledCode`, `CompilerCorrectness`, `Backpatching`,
`Bcout`, `JumpTargets`, `Optimizer`, `ScopeList`, `WholeProgram`). Class `Bcout` emits bytes,
labels and placeholders and patches them as the Translate methods do; what it emits is a code
layout, and the machine running that layout stops exactly when the source program terminates,
with the same variables, output and operand depth. Folding, branch removal and switch
optimization preserve what `Optimizer.Kept` leaves of every program, which is the program itself
exactly under a condition that can be checked before the call, and faults as well when no switch
loses all its tests. `WholeProgram.PipelineCorrect` joins the optimizer, the code generator and
the machine.

**Frames** (`Frames`, `TailCalls`, `Exceptions`, `InlineCache`). Tail calls refine calls for any
run of the same methods, whose results are derived and not assumed; the handler search finds the
innermost enclosing try; the inline cache answers what the lookup answers. The last two hold
exactly under conditions that are stated and proved to be necessary.

**Layout and object file** (`MemberLayout`, `ClassFile`, `FileLaws`, `ClassFileLoader`,
`ClassFileWriter`). Addresses along an inheritance chain fill 0 to total - 1 and lie inside the
traced slots; the file written for any classes loads back to the same classes, with the symbols
of each kind in the order of their declarations.

**Parsers and growable data** (`ExprParser`, `Precedence`, `PlainPrinting`, `LineInput`,
`SchemeReader`, `SchemeForms`, `SchemeExact`, `SchemeLines`, `SchemeParser`, `GrowableArray`,
`StringReplace`). Printing and parsing expressions and Scheme values are round trips, and where
they are not the exact condition is proved (`PlainPrinting.PlainRoundTrip`,
`SchemeExact.ReadsBackExactly`, and through files and lines `SchemeLines.ComesBackExactly`).
`Precedence.TwoOperators` says for any two operators which of them takes the operand between
them, and `SchemeForms.FormReads` covers quotes, comments and free white space. Growing arrays
refine sequences at linear cost; string replacement never leaves its buffer.

`Basics` holds what several modules share.

## Where the code does not keep a promise

The model follows the code. Each of these is stated by a lemma or a method contract.

- Copying takes 48 bytes for objects that were allocated with fewer -- an array with 40, an
  integer with 32 -- so a live heap may need more room than it was given, and the bytes taken
  for two objects may overlap before a scavenge, never their fields. `HeapLayout.AllocPacked`
  says exactly when they do not (vm/vm.c:1449-1451, vm/memory.c:1165-1170).
- A `for` loop whose condition folds to zero is removed together with its initialisation
  (`Optimizer.DeadForDropsInit`, compiler/strom.cpp:561-564).
- A switch on a constant passes over labels that are expressions
  (`Optimizer.ExpressionLabelSkipped`, `Optimizer.ConstantMatchExactly`,
  `Optimizer.ConstantSwitchExactly`).
- Removing an empty range hides a fault exactly when it was the only test the switch came to and
  the scrutinee has no value (`Optimizer.TrimExactly`, `Optimizer.TrimSwitchExactly`), and
  behind a removed first range other empty ranges stay linked (`ScopeList.OptimizeScopes`).
- The handler search adds one to an address that the dispatch loop has already advanced, so a
  throw directly in front of a try statement counts as inside it
  (`Exceptions.ThrowFindsInnermost`, vm/vm.c:1364).
- The inline cache is keyed by the class alone; a class and its instance at one call site would
  share an entry (`InlineCache.MixedKindsConfuse`).
- Behind a division or a remainder the expression parser goes on at its loosest level. An
  expression printed by level alone is read back exactly when no division is the left operand of
  a multiplicative operator and none ends the left operand of an `or` without being that operand
  (`PlainPrinting.PlainRoundTrip`, compiler/parser.cpp:1076-1090).
- A class declared before its parent shares addresses with the classes it inherits from, exactly
  when both sides have some (`MemberLayout.UnknownParentClashes`).
- The documentation calls arrays growing, like vectors in C++, but an array of capacity one does
  not grow: half of one more is one again (`GrowableArray.GrowsFromTwo`, vm/memory.c:1212-1215),
  and appending in place leaves the length in the element block behind
  (`GrowableArray.KekArray.Append`, vm/k_array.c:164-167). Appending an array to itself stays in
  its block exactly when that has room for three times the elements
  (`GrowableArray.KekArray.AppendSelf`).
- Replacing an empty pattern does not end (`StringReplace.EmptyPatternIsStuck`).
- Reading what was printed gives a Scheme value back exactly when it is plain -- proper lists
  only, no dotted pairs, no symbol that looks like something else, no quote in a string -- or a
  symbol by itself that begins with a closing parenthesis (`SchemeExact.ReadsBackExactly`). A
  line that begins with the comment character is passed over, even inside a string, and then the
  value does not come back (`SchemeLines.ComesBackExactly`).
- The last line of a file is not read when no newline ends it (`LineInput.KekFile.Readln`,
  vm/k_file.c:97-103), so a value printed there does not come back
  (`SchemeLines.NewlineNeeded`).
- A number that is all ones cannot be told from a failed read, so a class file that holds one
  does not load; and an int counts the symbols of a class, so more than 2^31 are not read
  (`ClassFile.FileRoundTrip`, vm/loader.c:63-78 and 168-191).

## Model

| member | source | states |
|---|---|---|
| KekObjects.Aligned | vm/memory.h:47 | rounds up to the object alignment: the least multiple of 8 that is not smaller |
| KekObjects.ImageKeepsSize | vm/vm.c:1430-1452 | renaming the pointers of an object does not change what copying it charges |
| KekObjects.ImageStable | vm/memory.c:246-388 | an object whose pointers have all been forwarded is not affected by later forwarding |
| KekObjects.PrefixStep | vm/memory.c:302-346 | forwarding one more slot, possibly after more objects were copied, renames one slot more |
| HeapLayout.FieldsFit | vm/vm.c:1430-1452 | what copying charges for an object covers every slot of it and, for texts, the terminator behind the last character |
| HeapLayout.NoMoreThanSlots | vm/vm.c:1439-1447 | for element blocks and user-defined objects it is the least aligned size with room for all slots |
| HeapLayout.SlotsInside | vm/types.h:74-175 | every field of an object -- slots, characters, value, interior pointer -- ends before its end |
| HeapLayout.PointersTraced | vm/memory.c:246-388 | an address is followed exactly when it is the message of an exception, a variable of an object, an element below the length, or the block of an array |
| HeapLayout.ImageFields | vm/memory.c:246-388 | the image of an object has exactly these fields replaced, each by the new address, and is otherwise the object |
| HeapLayout.SlotsApart | vm/memory.c:518-565 | in a space whose objects do not overlap no slot address belongs to two objects, and every slot lies before the free pointer |
| HeapLayout.AllocLaid | vm/memory.c:518-565 | an object allocated with room for its fields overlaps no other |
| HeapLayout.AllocPacked | vm/vm.c:1430-1452 | the bytes that copying takes for each object stay apart across an allocation exactly when no more is copied for the new object than was allocated |
| HeapLayout.NewArrayOverlapsItsCopy | vm/vm.c:1449-1451 | an instance: the size of the union of all types is copied for a new array, more than was allocated for it |
| HeapLayout.CopiesPacked | vm/memory.c:115-133 | while copying, the copies stand one behind the other, each in the bytes charged for it |
| HeapGraph.ClosedHoldsReach | vm/memory.c:401-449 | a set that holds the roots and is closed under traced pointers holds every reachable object |
| HeapGraph.BytesTake | vm/vm.c:1430-1452 | the summed size of a set of objects does not depend on the order in which they are taken |
| HeapGraph.BytesMonotone | vm/vm.c:1430-1452 | more objects need at least as many bytes |
| CopyLedger.CopyOne | vm/memory.c:115-133 | copying one more reachable, not yet copied object to the free pointer and leaving a forwarding header keeps the scan invariant |
| CopyLedger.Rewrite | vm/memory.c:206-244 | overwriting a copy by one of the same size keeps the scan invariant |
| CopyLedger.ForwardedFromHeap | vm/memory.c:135-204 | forwarded objects are reachable from-space objects, and their forwarding addresses lie below the free pointer |
| CopyLedger.SlotRaw | vm/memory.c:302-346 | a slot that has not been scanned still holds its old value, and a heap address in it is reachable |
| CopyLedger.SlotForwarded | vm/memory.c:302-346 | storing the forwarded address makes exactly one slot more of the copy done |
| CopyLedger.BlockForwarded | vm/memory.c:264-301 | an array's interior pointer, set inside the copy of its element block, makes the array's copy done |
| CopyLedger.ScanStep | vm/memory.c:436-449 | after scanning one copy the copies below the scan pointer hold only to-space pointers, those above only from-space ones |
| CopyLedger.PlaceIsBytes | vm/memory.c:115-133 | the free pointer is as far from the start as the copied objects are large, all together |
| CopyLedger.Distinct | vm/memory.c:135-244 | no object is copied twice, and forwarding is injective |
| CopyLedger.CopiesBounded | vm/memory.c:436-449 | there are no more copies than objects, so the scan ends |
| HeapState.LiveIsClosed | vm/memory.c:961-1038 | what a live object points at in the heap is live |
| HeapState.MovedKeepsSound | vm/memory.c:401-449 | a collection keeps the heap well formed: array lengths and capacities agree with their blocks, blocks are not shared, nothing dangles |
| HeapState.MovedKeepsUnshared | vm/memory.c:264-301 | a collection never makes two arrays share an element block |
| HeapState.MovedKeepsRoots | vm/memory.c:961-1038 | after a collection statics, registered locals, constant arrays and the stack are well formed roots again |
| HeapState.ForwardedIsClosed | vm/memory.c:436-449 | when the scan pointer has caught up, forwarded objects point only at forwarded ones |
| HeapState.ForwardedAreLive | vm/memory.c:401-449 | when everything has been scanned, the forwarded objects are exactly the live ones |
| HeapState.FinishMoved | vm/memory.c:401-449 | the finished scavenge has moved exactly the live objects, injectively, each with its type and contents and its pointers replaced by their images, and every root likewise |
| HeapState.StuckMeansFull | vm/memory.c:115-133 | an object that does not fit shows that the live objects need at least a whole segment |
| HeapState.PhasesMakeRootsDone | vm/memory.c:961-1038 | the four root loops together have forwarded every root |
| HeapState.AllocKeepsSound | vm/memory.c:518-565 | adding a cleared object at a fresh address keeps the heap well formed |
| Cheney.Heap.constructor | vm/memory.c:478-499 | the heap starts well formed and empty, with the given statics and stack and with constant arrays that have no blocks yet |
| Cheney.Heap.CopyObjToSpaceFree | vm/memory.c:115-133 | copies the object to the free pointer and advances it by the aligned size, and fails exactly when that reaches the end of the segment |
| Cheney.Heap.Forward | vm/memory.c:135-244 | the new value of a pointer is its image; constants and non-heap objects keep theirs; the object is copied only if it was not; on failure a reachable object had no room |
| Cheney.Heap.ForwardSlot | vm/memory.c:302-346 | one slot of a copy is forwarded and everything else stays |
| Cheney.Heap.ForwardSlots | vm/memory.c:302-388 | all traced slots of a copy are forwarded, those behind the length of an element block are not touched |
| Cheney.Heap.ForwardBlock | vm/memory.c:264-301 | the element block of an array is forwarded and the array points inside the copy |
| Cheney.Heap.CopyNeighbor | vm/memory.c:246-388 | one copied object is scanned completely, by its type |
| Cheney.Heap.ScanLoop | vm/memory.c:436-449 | the loop terminates with every copy scanned, or fails because a live object has no room |
| Cheney.Heap.ForwardRoot | vm/memory.c:135-204 | a root is replaced by its image |
| Cheney.Heap.CopyStatics | vm/memory.c:968-981 | every static variable is replaced by its image |
| Cheney.Heap.CopyLocals | vm/memory.c:983-998 | every registered local variable is replaced by its image |
| Cheney.Heap.CopyConstArrays | vm/memory.c:1000-1006 | the blocks of the constant arrays are forwarded, the arrays stay where they are and point inside the copies |
| Cheney.Heap.CopyStack | vm/memory.c:1008-1037 | every stack slot is replaced by its image; NULL, tagged values, classes, stack references and constants are unchanged |
| Cheney.Heap.CopyRoots | vm/memory.c:961-1038 | all roots have been forwarded |
| Cheney.Heap.CopyAll | vm/memory.c:401-449 | roots and scan together copy everything, or the live objects need at least a segment |
| Cheney.Heap.Scavenge | vm/memory.c:401-449 | succeeds exactly when the summed aligned sizes of the live objects are below the segment size; then the heap is isomorphic to the live part of the old one, the space used is exactly that sum, the bytes charged for the objects do not overlap, and the spaces are swapped |
| Cheney.Heap.Malloc | vm/memory.c:510-565 | succeeds exactly when the request fits as it is or after a scavenge; the object is at a fresh address, its fields overlap no other object, in the old state or in the old state moved by one collection |
| Basics.Grown | vm/memory.c:1199-1233 | growing by half from a capacity of at least two ends with one that is large enough |
| SoundSteps.StoreSound | vm/vm.c:731-760 | ST keeps the heap well formed |
| SoundSteps.SetLengthSound | vm/k_array.c:56-66 | raising an array's length within its capacity, in the array and in its block, keeps the heap well formed |
| SoundSteps.GrowSound | vm/k_array.c:187-207 | moving an array's elements to a bigger block keeps the heap well formed |
| SoundSteps.IndexInPlaceSound | vm/vm.c:802-828 | IDXA within the capacity keeps the heap well formed |
| SoundSteps.IndexGrowSound | vm/vm.c:802-828 | IDXA behind the capacity asks for a block without references into the heap |
| SoundSteps.IndexReadSound | vm/vm.c:761-801 | IDX keeps the heap well formed and allocates nothing |
| SoundSteps.FieldReadSound | vm/vm.c:1257-1308 | loading a member, its address, or through a reference keeps the heap well formed |
| SoundSteps.StackReadSound | vm/vm.c:692-730 | the loads of constants, locals and statics, DUP, POP, WRT and comparison keep the heap well formed and allocate nothing |
| SoundSteps.BeginSound | vm/vm.c:674-1349 | every modelled instruction keeps the heap well formed up to its allocation, which asks for an object without references into the heap |
| SoundSteps.FinishSound | vm/k_array.c:107-207 | the part of an instruction behind its allocation keeps the heap well formed |
| Simulation.SimResolve | vm/types.h:215-218 | a base/offset pair on the stack names the same slot in the collected heap as in the unbounded one |
| Simulation.SimUpdate | vm/vm.c:731-760 | writing related objects at related places keeps the heaps equal up to the renaming |
| Simulation.SimWrite | vm/vm.c:731-760 | a store through a reference keeps the heaps equal up to the renaming |
| Simulation.SimBeginField | vm/vm.c:1257-1308 | member loads do the same in both machines |
| Simulation.SimBeginStore | vm/vm.c:731-760 | ST does the same in both machines |
| Simulation.SimBeginIndex | vm/vm.c:761-801 | IDX does the same in both machines |
| Simulation.SimBeginIndexAddr | vm/vm.c:802-828 | IDXA does the same in both machines |
| Simulation.SimBeginEqual | vm/vm.c:511-655 | equality answers the same in both machines, by value and by identity |
| Simulation.SimIdentity | vm/vm.c:626-655 | two references are identical in one machine exactly when they are in the other |
| Simulation.SimBegin | vm/vm.c:674-1349 | up to its allocation every modelled instruction does the same in both machines: stuck in both, or the same output, or the same request |
| SimulationGc.SimMoved | vm/memory.c:401-449 | a scavenge keeps the machines equal up to the composed renaming |
| SimulationGc.SimAlloc | vm/memory.c:518-565 | an allocation on both sides keeps them equal up to the extended renaming |
| SimulationSpace.LiveForward | vm/memory.c:961-1038 | what is live in the unbounded machine is renamed, to a live object |
| SimulationSpace.LiveBackward | vm/memory.c:961-1038 | every live object of the collected machine renames a live one |
| SimulationSpace.SameLiveBytes | vm/vm.c:1430-1452 | what a scavenge would have to copy is the same number of bytes in both machines |
| SimulationStep.SimGrow | vm/k_array.c:187-207 | growing an array keeps the machines equal up to the renaming |
| SimulationStep.RegisterBoth | vm/memory.c:582-606 | registering a local variable as a root does the same in both machines |
| SimulationStep.RegisteredIsTop | vm/vm.c:802-828 | after an allocation that moved the heap, the registered array is still the one on the stack |
| SimulationStep.SimFinish | vm/k_array.c:107-207 | the rest of an allocating instruction keeps the machines equal up to the renaming |
| SimulationStep.StepUnboundedOk | vm/vm.c:674-1349 | every instruction of the unbounded machine keeps its invariant |
| SimulationStep.EmptyStart | vm/vm.c:454-509 | a machine that has allocated nothing, with constant arrays still without their blocks, is related to itself with an unbounded heap |
| ConstantArrays.WithBlockSound | vm/vm.c:325-341 | giving a constant array its filled block and registering it as a root keeps the heap well formed |
| ConstantArrays.WithBlockBoth | vm/vm.c:325-341 | a constant array gets its block in the collected and the unbounded machine alike, wherever the block lies, and they stay equal up to the renaming |
| Programs.BranchBoth | vm/vm.c:898-921 | whether IFNJ jumps, or is an error, is the same in both machines, and both go on related |
| Machine.Vm.MakeRoom | vm/memory.c:1126-1152 | a forced collection makes room, or the live objects and the request need at least a segment |
| Machine.Vm.Allocate | vm/memory.c:1126-1152 | the request is answered in both machines, or the live objects and the request need at least a segment |
| Machine.Vm.Load | vm/vm.c:692-730 | the loads of constants, locals, statics and their addresses, and DUP, push what the specification says |
| Machine.Vm.Field | vm/vm.c:1257-1308 | LVBS_IVE and LABS_IVE push the member, or the object and the address of the member, as specified |
| Machine.Vm.Deref | vm/vm.c:873-879 | DR replaces a base/offset pair by what it refers to, and is stuck exactly when it refers to nothing |
| Machine.Vm.Fetch | vm/types.h:215-218 | reads the slot that a base/offset pair names, and fails exactly when it names none |
| Machine.Vm.SlotOf | vm/types.h:215-218 | finds the slot of a base/offset pair |
| Machine.Vm.Store | vm/vm.c:731-760 | ST changes the named slot only |
| Machine.Vm.Index | vm/vm.c:761-801 | IDX as specified, out-of-range indices included |
| Machine.Vm.GrownSize | vm/memory.c:1212-1215 | the growing loop ends with the specified capacity |
| Machine.Vm.IndexAddr | vm/vm.c:802-828 | IDXA as specified, up to the allocation of a bigger block |
| Machine.Vm.Subtract | vm/vm.c:525-527 | subtraction, which allocates for a negative result |
| Machine.Vm.Compare | vm/vm.c:584-655 | equality of integers, texts, symbols and references |
| Machine.Vm.Dispatch | vm/vm.c:674-1349 | one turn of the dispatch loop up to its allocation does what the instruction specifies |
| Machine.Vm.GrowArray | vm/k_array.c:187-207 | the elements are copied into the new block, the rest is nil, and the array has the block, its length and its capacity |
| Machine.Vm.Complete | vm/k_array.c:107-207 | the rest of an allocating instruction, on an array reference read again after the allocation |
| Machine.Vm.AllocateRegistered | vm/memory.c:1199-1233 | the allocation of a bigger block while the growing array is registered; afterwards the variable names the moved array |
| Machine.Vm.FillBlock | vm/vm.c:325-341 | the constants are stored one by one in the block of a constant array, and nothing else changes |
| Machine.Vm.InitConstArray | vm/vm.c:325-341 | before the program runs, a constant array gets a block with its constants and becomes a root in both machines, with a scavenge where the allocation needs one; else the live objects and the block need at least a segment |
| Machine.Vm.Step | vm/vm.c:674-1349 | one turn of the machine, with a scavenge at any allocation, does what the unbounded machine does with the same output; it stops only where that one does, and runs out of memory only when the live objects and the request, counted as the allocators count it, do not fit a segment |
| Machine.Vm.Branch | vm/vm.c:898-921 | IFNJ takes the condition off the stack and answers whether to jump, or that the value is no condition, as in the unbounded machine |
| Machine.Vm.Turn | vm/vm.c:674-1349 | one turn of the dispatch loop at an instruction pointer, jumps included, does what the unbounded machine does, with the same output and the same next instruction |
| Machine.Vm.Run | vm/vm.c:674-1349 | a whole sequence of instructions gives the output it gives on an unbounded heap, up to its end or the same failing instruction, unless some allocation does not fit |
| Machine.Vm.RunProgram | vm/vm.c:674-1349 | a program with jumps, run for any number of turns, gives the output it gives on an unbounded heap and gets to the same instruction or the same failure, unless some allocation on the way does not fit |
| InstructionLaws.MinusSubtracts | vm/vm.c:525-527 | Minus on two integers leaves the number that added to the second operand gives the first, tagged or as a new object, and changes no other object; where that is no int it has no result |
| InstructionLaws.WriteShows | vm/vm.c:880-897 | writing shows the integer, character or text that was pushed |
| InstructionLaws.DifferenceWritten | vm/vm.c:525-527 | a program that pushes two integer constants, subtracts and writes shows the first less the second |
| InstructionLaws.EqualCompares | vm/vm.c:584-655 | equality answers one exactly for integers of equal value, texts with equal characters, symbols of equal name, and otherwise for one and the same object |
| InstructionLaws.DupAndPop | vm/vm.c:866-872 | DUP repeats the two top words in their order, POP takes one away |
| InstructionLaws.BranchOn | vm/vm.c:905-921 | IFNJ goes on behind itself for a non-zero integer, jumps for zero and for nil, and is an error for anything else |
| InstructionLaws.StoreThenRead | vm/vm.c:731-760 | a word stored through a pair is read back through that pair, through any other pair the old word is read, and nothing but the slot changes |
| InstructionLaws.MemberAddress | vm/vm.c:1257-1308 | the address of a member, read through, gives what loading the member gives and fails where that fails; it is the variable behind those of the built-in ancestor |
| InstructionLaws.LocalAddress | vm/vm.c:707-730 | the address of a local variable, read through, gives the variable |
| InstructionLaws.StaticAddress | vm/vm.c:1126-1179 | the address of a static variable, read through, gives the variable |
| InstructionLaws.NewObject | vm/vm.c:1180-1215 | a new object was not there before, has all its variables unset, and changes no other object |
| InstructionLaws.NewArray | vm/memory.c:1165-1170 | a new array was not there before and has no elements |
| InstructionLaws.ArrayInitialised | vm/k_array.c:75-114 | the constructor of an array gives it a block of its own and no elements |
| InstructionLaws.IndexReads | vm/vm.c:761-785 | reading an array at an index below its length gives that element, and stops behind the last |
| InstructionLaws.IndexReadsText | vm/vm.c:786-797 | reading a string at an index gives that character, and stops behind the last |
| InstructionLaws.IndexStores | vm/vm.c:802-828 | storing at an index, inside the block or across a growth, puts the word there, keeps every other element, fills with nil up to it, and changes no other array and no other object |
| InstructionLaws.ElementReadBack | vm/vm.c:761-828 | reading at any index after storing at one: the stored word, the old element, or a stop behind the end |
| Operators.OpRoundTrip | compiler/strom.cpp:844-849 | the byte behind a BOP instruction denotes the operator it was translated from |
| Operators.RemainderSign | vm/vm.c:534-536 | division truncates toward zero: the remainder has the sign of the dividend and is smaller than the divisor |
| OperatorLaws.Comparisons | vm/vm.c:537-554 | exactly one of less, equal and greater holds, the other three comparisons are their opposites, turning the operands round turns less into greater, and less agrees with the sign of a defined difference |
| OperatorLaws.LessOrders | vm/vm.c:543-545 | less is transitive and holds between a number and the next; comparisons and logical operators answer one or zero |
| OperatorLaws.LogicTable | vm/vm.c:555-560 | zero is false and all else true: what or and and answer with each truth value on either side |
| OperatorLaws.DeMorgan | vm/vm.c:555-560 | De Morgan's law for the logical operators and the logical not |
| OperatorLaws.MinusUndoesPlus | vm/vm.c:522-527 | subtraction undoes addition wherever that does not overflow |
| OperatorLaws.PlusCounts | vm/vm.c:522-524 | addition counts on from its first operand, commutes, has zero as its unit, and is defined exactly up to the largest and down to the smallest int |
| OperatorLaws.TimesAdds | vm/vm.c:528-530 | multiplication is repeated addition, commutes, and turning the sign of an operand turns the sign of the product |
| OperatorLaws.TimesFits | vm/vm.c:528-530 | a product is defined exactly when its first operand lies between two quotients of the bounds of an int |
| OperatorLaws.Division | vm/vm.c:531-536 | quotient and remainder are defined exactly when the divisor is not zero and the quotient fits an int, and give back the dividend |
| OperatorLaws.DivisionBack | vm/vm.c:531-536 | quotient times divisor plus remainder, all computed with the operators, is defined and the dividend |
| OperatorLaws.BitByBit | vm/vm.c:561-569 | bitwise or, and and exclusive or combine each of the 32 bits of the two's complement representations |
| OperatorLaws.BitsCombined | vm/vm.c:561-569 | a bit of an or is set when one of the operands has it, of an and when both have, of an exclusive or when exactly one has |
| OperatorLaws.BitsDetermine | vm/vm.c:561-569 | an int is known by its 32 bits |
| OperatorLaws.BitwiseUnits | vm/vm.c:561-569 | what the bitwise operators give with no bits, with all bits and with the operand itself |
| OperatorLaws.ShiftsUndo | vm/vm.c:570-575 | shifting to the right undoes a defined shift to the left |
| OperatorLaws.ShiftDoubles | vm/vm.c:570-572 | shifting left by nothing leaves a number that is not negative, by one more doubles it or is undefined where that overflows; widths outside 0 to 31 and negative numbers have no value |
| OperatorLaws.RightShiftFloors | vm/vm.c:573-575 | shifting to the right rounds down, for negative numbers as well, and is defined exactly for widths from 0 to 31 |
| SourceLanguage.ExecMonotone | compiler/strom.cpp:892-942 | more loop turns than needed do not change the outcome of a program |
| SourceLaws.Expressions | compiler/strom.cpp:844-862 | an operator works on the values of its operands, the left one first, and only when both have one; unary minus is subtraction from zero and not is comparison with zero |
| SourceLaws.Variables | compiler/strom.cpp:623-677 | a variable has the value it was set to last; setting it changes no other variable and no output |
| SourceLaws.Assignments | compiler/strom.cpp:863-879 | after an assignment the variable has the value the expression had before, and all others theirs; a compound one assigns the operation |
| SourceLaws.WritesInOrder | compiler/strom.cpp:880-885 | written values come out in the order of the statements |
| SourceLaws.Sequences | compiler/strom.cpp:966-980 | statements can be grouped in any way; a break or a fault ends a sequence |
| SourceLaws.Conditions | compiler/strom.cpp:892-907 | a condition that is not zero takes the first branch, zero the second, and without else an empty one |
| SourceLaws.LoopUnrolls | compiler/strom.cpp:909-924 | a while loop is a condition over its body followed by the loop itself, and a break in the body ends it |
| SourceLaws.ForIsWhile | compiler/strom.cpp:925-943 | a for loop is its initialisation and a while loop whose body ends with the step, which a break leaves out |
| SourceLaws.Tests | compiler/strom.cpp:1223-1307 | a switch compares values, and a range is the conjunction of two comparisons with both ends included |
| SourceLaws.BlocksInOrder | compiler/strom.cpp:1223-1307 | tests of a block and blocks of a switch are tried in order, a default is always taken, and an empty switch does nothing |
| ConstTable.InsertKeeps | compiler/bcout.cpp:249-403 | every insertion keeps the table consistent, and every offset keeps denoting its constant |
| ConstTable.InsertWrites | compiler/bcout.cpp:272-404 | an insertion changes at most the constant it names: one element of an array and no other, one more block behind those of an exception table, the parent of a symbol; everything else is as it was |
| ConstTable.NewConstants | compiler/bcout.cpp:343-398 | a new array has zero elements everywhere, a new exception table no blocks, a forced symbol its name and no parent, at the end of the table |
| ConstTable.HistoryExtends | compiler/bcout.cpp:249-403 | along every history of insertions the table stays consistent and every offset keeps its meaning |
| ConstTable.InterningIsByValue | compiler/bcout.cpp:300-368 | after any history, interning gives equal offsets exactly for equal values of one type, and the offset reads back the value |
| ConstTable.Interned | compiler/bcout.cpp:422-458 | a lookup after interning finds the offset that interning gave |
| ConstTable.Aligned | compiler/bcout.cpp:249-270 | offsets are multiples of 4, constants lie inside the table, and a string with its terminator lies inside its constant |
| ConstTable.ContentsInside | vm/vm.c:305-350 | elements, blocks and characters lie inside the bytes of their constant, and nothing is left behind elements and blocks |
| ConstTable.WalkTable | vm/vm.c:296-354 | the virtual machine's walk visits exactly the allocated constants in order and stops at the end |
| ConstTable.WalkNeedsFilled | vm/vm.c:296-354 | from every constant the walk reaches the next one exactly when every exception table holds all the blocks it was allocated for |
| ConstTable.UnfilledMisleads | compiler/bcout.cpp:388-403 | an exception table that is not filled sends the walk to a place where no constant is |
| Bytecode.TagRoundTrip | vm/types.h:210-213 | an int made into a tagged word or an integer object is read back |
| Bytecode.GoJoin | vm/vm.c:674-1349 | running in two parts is running at once |
| CompiledCode.ExprRuns | compiler/strom.cpp:623-677 | the code of an expression, run, leaves its value on the stack and nothing else, or stops the machine exactly when it has none |
| CompiledCode.BinRuns | compiler/strom.cpp:844-849 | the code of a binary expression, run, leaves the value of the operation, or stops the machine when an operand or the operation has none; all eighteen operators |
| CompiledCode.UnaryRuns | compiler/strom.cpp:851-861 | the code of a unary minus or a logical not, run, leaves its value, or stops the machine when there is none |
| CompiledCode.CondRuns | compiler/strom.cpp:892-907 | a condition with its jump falls through exactly when it is not zero |
| CompiledCode.WriteRuns | compiler/strom.cpp:880-884 | the code of a Write statement appends the value to the output |
| CompiledCode.AssignRuns | compiler/strom.cpp:863-878 | the code of an assignment stores the value in the variable's slot and changes no other slot |
| CompiledCode.CompoundRuns | compiler/strom.cpp:870-878 | a compound assignment evaluates its variable's address once and stores the combined value |
| CompilerCorrectness.ThenRuns | compiler/strom.cpp:966-974 | the code of a statement list does what its source does |
| CompilerCorrectness.IfElseRuns | compiler/strom.cpp:892-907 | the code of an if with else runs the branch that the source runs, with the same outcome |
| CompilerCorrectness.WhileRuns | compiler/strom.cpp:909-923 | the code of a while loop has the outcome of the source for any number of turns; a break ends the loop |
| CompilerCorrectness.TurnsRun | compiler/strom.cpp:925-942 | the code of a for loop has the outcome of the source for any number of turns; a break skips the counter step and ends the loop |
| CompilerCorrectness.ScopesRun | compiler/strom.cpp:1223-1307 | the tests of a block jump to its body exactly when one of its scopes takes the value |
| CompilerCorrectness.BlocksRun | compiler/strom.cpp:1223-1307 | a switch runs the body of the first block with a matching scope and goes on behind the switch |
| CompilerCorrectness.StmtRuns | compiler/strom.cpp:844-979 | for every statement and every number of turns the machine gets as far as the source does, with the same variables, output and operand depth |
| CompilerCorrectness.CompilerCorrect | compiler/strom.cpp:844-979 | the compiled code stops exactly when the source terminates, and then agrees with it on variables, output and operand depth; every other stack slot is unchanged |
| Backpatching.PatchMiddle | compiler/bcout.cpp:409-411 | patching a jump overwrites its operand and nothing else |
| Backpatching.PatchScopes | compiler/strom.cpp:1223-1307 | the tests of a block, patched, are the tests laid out for the body's address |
| Backpatching.PatchBreaks | compiler/bcout.cpp:413-420 | the code of a statement with its labelled breaks patched is the code laid out for the target; breaks of inner loops keep theirs |
| Backpatching.PatchFinalJumps | compiler/strom.cpp:1223-1307 | the jumps behind the bodies, patched, go to the end of the switch |
| BytecodeOutput.StableS | compiler/bcout.cpp:300-316 | code already emitted stays right while the constant table grows |
| BytecodeOutput.Bcout.W8 | compiler/bcout.cpp:137-143 | appends one byte without a label and answers its address |
| BytecodeOutput.Bcout.W8Labeled | compiler/bcout.cpp:145-152 | appends one byte with its label |
| BytecodeOutput.Bcout.W16 | compiler/bcout.cpp:154-162 | appends sixteen bits, low byte first; larger values are cut |
| BytecodeOutput.Bcout.W0 | compiler/bcout.cpp:174-179 | appends an instruction without operand |
| BytecodeOutput.Bcout.Wb1 | compiler/bcout.cpp:181-192 | appends an instruction with a byte operand |
| BytecodeOutput.Bcout.Ww1 | compiler/bcout.cpp:194-205 | appends an instruction with a 16-bit operand and answers its address |
| BytecodeOutput.Bcout.Ww1Labeled | compiler/bcout.cpp:207-218 | appends an instruction with a 16-bit operand, with its label on the opcode only |
| BytecodeOutput.Bcout.FixForwardJmpw | compiler/bcout.cpp:409-411 | the jump at the address goes to the end of the code so far; all other bytes stay |
| BytecodeOutput.Bcout.ResolveBreak | compiler/bcout.cpp:413-420 | exactly the labelled jumps in the interval go to the end of the code so far, and lose their labels |
| BytecodeOutput.Bcout.FindInt | compiler/bcout.cpp:422-432 | the offset of an interned integer, or -1 |
| BytecodeOutput.Bcout.BcoInt | compiler/bcout.cpp:300-316 | the offset of an integer, which is added only when it is missing |
| BytecodeOutput.Bcout.TranslateE | compiler/strom.cpp:844-861 | emits the code of the expression behind what was there |
| BytecodeOutput.Bcout.TranslateA | compiler/strom.cpp:863-878 | emits the code of the assignment |
| BytecodeOutput.Bcout.TranslateWrite | compiler/strom.cpp:880-884 | emits the code of a Write statement |
| BytecodeOutput.Bcout.TranslateIf | compiler/strom.cpp:892-907 | emitting with a placeholder and patching gives the code of an if without else |
| BytecodeOutput.Bcout.TranslateIfElse | compiler/strom.cpp:892-907 | emitting with placeholders and patching two jumps gives the code of an if with else |
| BytecodeOutput.Bcout.TranslateWhile | compiler/strom.cpp:909-923 | emitting, patching and resolving breaks gives the code of a while loop; its breaks go just behind the back jump and no label is left in its body |
| BytecodeOutput.Bcout.TranslateFor | compiler/strom.cpp:925-942 | emitting, patching and resolving breaks gives the code of a for loop with its initialisation |
| BytecodeOutput.Bcout.TranslateThen | compiler/strom.cpp:966-974 | the code of a list is that of its statements in a row |
| BytecodeOutput.Bcout.TranslateScopes | compiler/strom.cpp:1223-1307 | the tests of a block, and the addresses of exactly their jumps to its body |
| BytecodeOutput.Bcout.TranslateBlock | compiler/strom.cpp:1223-1307 | one block with its tests resolved, its jump over the body, and the address of its jump to the end when blocks follow |
| BytecodeOutput.Bcout.TranslateCase | compiler/strom.cpp:1223-1307 | emitting blocks and patching their jumps gives the code of the switch |
| BytecodeOutput.Bcout.TranslateS | compiler/strom.cpp:844-979 | what the Translate methods emit for any statement is its code, with exactly its unresolved breaks labelled |
| JumpTargets.StmtWhole | compiler/strom.cpp:844-979 | the code of every statement consists of whole instructions |
| JumpTargets.AllJumpsLand | compiler/strom.cpp:892-979 | every jump in the code of a statement goes to the first byte of an instruction of it, to its end, or is a break out of it |
| Optimizer.FoldsAsTheMachine | compiler/strom.cpp:408-480 | for all eighteen operators and all ints the compiler folds to what the virtual machine computes, and gives up exactly where the operation is undefined |
| Optimizer.FoldingPreserves | compiler/strom.cpp:408-500 | folding changes the value of no expression, defined or not, on any store |
| Optimizer.TrimPreserves | compiler/strom.cpp:1177-1221 | unlinking empty ranges and turning a range of one number into the number take the same values, whenever the scrutinee has a value or the tests need none |
| Optimizer.TrimExactly | compiler/strom.cpp:1177-1221 | trimming the scopes of a block gives the same answer on a store, fault included, exactly when the scrutinee has a value there or the one test the program comes to is not a removed empty range |
| Optimizer.TrimSwitchExactly | compiler/strom.cpp:1177-1221 | trimming a whole switch selects the same block, or fails likewise, exactly when the scrutinee has a value or the switch, if it made a test, still makes one |
| Optimizer.NoValue | compiler/strom.cpp:1223-1307 | a scrutinee without a value makes a switch fail exactly when there is a test to make before a default |
| Optimizer.TrimmedSwitch | compiler/strom.cpp:1177-1221 | run, the trimmed switch has the outcome of the switch, faults included; where all tests were removed the switch faults and the trimmed one runs a body that needs no test |
| Optimizer.OptimizerPreserves | compiler/strom.cpp:408-587 | an optimized program ends in the same state and with the same output as the program, whenever that ends without a fault |
| Optimizer.OptimizerReflects | compiler/strom.cpp:408-587 | when an optimized program ends, the program ends in the same state, or in a fault that the optimizer removed |
| Optimizer.OptimizerKeepsFaults | compiler/strom.cpp:408-587 | when no switch loses all its tests the optimized program has exactly the outcomes of the program, faults included, in both directions |
| Optimizer.KeptIsSafe | compiler/strom.cpp:556-566 | what the optimizer keeps of a program -- no for loop whose condition folds to zero, no expression labels in switches on a constant -- is the program itself exactly when it has none of these |
| Optimizer.KeptSame | compiler/strom.cpp:522-587 | the optimizer answers the same for a program and for what it keeps of it |
| Optimizer.OptimizerKeeps | compiler/strom.cpp:408-587 | for every program the optimizer accepts, with no condition on it: the optimized program ends as the kept program does, and where it ends the kept one ends so too or faults |
| Optimizer.DeadForDropsInit | compiler/strom.cpp:556-566 | a for loop with a condition that folds to zero is preserved exactly on the stores its dropped initialisation does not change |
| Optimizer.DeadForOnUnset | compiler/strom.cpp:561-564 | a for loop with a condition that folds to zero is not preserved on any store in which its variable is unset |
| Optimizer.ConstantMatchExactly | compiler/strom.cpp:1127-1170 | on a constant the optimizer decides about a block as the running program does exactly when no label that is an expression would decide otherwise |
| Optimizer.ConstantSwitchExactly | compiler/strom.cpp:1127-1170 | on a constant the optimizer chooses the block that the program runs exactly when no label that is an expression, up to that block, would decide otherwise |
| Optimizer.ChosenBodies | compiler/strom.cpp:1127-1170 | the body of the block that is run is what the program selects, and that of the chosen block, optimized, is what the optimizer answers |
| Optimizer.ExpressionLabelSkipped | compiler/strom.cpp:1145-1153 | a switch on 2 loses a block whose label is a variable that holds 2 |
| Optimizer.EmptyRangeHidesFault | compiler/strom.cpp:1177-1221 | an instance: a switch on an unset variable with one empty range faults, and runs to its end when optimized |
| ScopeList.OptimizeScopes | compiler/strom.cpp:1192-1217 | the loop over the linked scopes leaves a well linked list of the trimmed scopes, with the effect of a removed first scope on the back pointer |
| WholeProgram.LabelsLeft | compiler/strom.cpp:892-979 | after translation a break label is left exactly when a break is outside all loops |
| WholeProgram.ClosedNeverBreaks | compiler/strom.cpp:976-979 | a program with all its breaks in loops never ends by a break |
| WholeProgram.OptimizedClosed | compiler/strom.cpp:522-587 | the optimizer moves no break out of its loop |
| WholeProgram.ClosedIsFinal | compiler/bcout.cpp:413-420 | the code of such a program does not depend on where a break would go |
| WholeProgram.ClosedJumpsLand | compiler/bcout.cpp:409-420 | no jump of such a program leaves its code or goes into the middle of an instruction |
| WholeProgram.Compile | compiler/strom.cpp:408-979 | optimizing and translating answers the code of the optimized program and the table of its constants |
| WholeProgram.CompiledLoads | compiler/strom.cpp:1002-1028 | what it answers can be run from address 0 |
| WholeProgram.PipelineCorrect | compiler/strom.cpp:408-979 | source to output, for what the optimizer keeps of any program it accepts, which is the program itself exactly when it is safe: when the program ends the machine stops with the same variables, output and operand depth; when the machine stops the program ends, at worst in a fault the optimizer removed; when no switch loses all its tests the machine stops exactly when the program ends, with a fault exactly for a fault |
| Frames.FrameStack.Call | vm/stack.h:50-67 | BC_CALL builds the frame of the callee above the arguments |
| Frames.FrameStack.MoveDown | vm/stack.h:87-89 | the overlapping forward copy moves every argument, because it never overwrites one before reading it |
| Frames.FrameStack.TailCall | vm/stack.h:80-101 | BC_TCALL rebuilds the frame in place |
| Frames.FrameStack.Return | vm/stack.h:103-111 | BC_RET restores the caller's registers and pushes the value |
| Frames.FrameStack.ReturnSelf | vm/stack.h:113-122 | BC_RET_SELF does so with the receiver |
| Frames.CallHands | vm/stack.h:50-67 | a call hands over the top of the stack, links to the caller and clears the locals |
| Frames.TailCallLinks | vm/stack.h:80-101 | a tail call keeps the linkage of its caller's frame and clears the locals |
| Frames.TailCallHands | vm/stack.h:80-101 | a tail call hands over what a call would and keeps all slots below |
| Frames.CallReturns | vm/stack.h:50-111 | a call and its return replace arguments and receiver by the result, whatever the callee did in its frame |
| Frames.CallReturnsSelf | vm/stack.h:113-122 | a constructor call and its return replace arguments and receiver by the receiver, as long as its slot keeps it |
| Frames.ReturnsAgree | vm/stack.h:103-111 | waiting frames that return one after the other end where the one return of the tail calls ends |
| Frames.ChainReturns | vm/vm.c:934-1027 | from frames related as above, any chain of calls, made with tail calls on one side, ends with all returns of the other side in the same registers, result and lower slots, when the last methods return the same value |
| Frames.TailCallsRefineCalls | vm/stack.h:69-101 | any chain of tail calls, with any argument and local counts, ends with the ip, ap, fp, sp, result and lower slots of the same chain of calls with all its returns; ap never changes and sp stays one frame above it; the equal results are those of module TailCalls |
| TailCalls.RunsFollow | vm/vm.c:934-1037 | two runs of the same methods, one with tail calls and one with calls, make the same calls with the same arguments and return the same value: what a method does depends only on the world, its entry, what it is handed and its cleared locals |
| TailCalls.TailCallsAreCalls | vm/stack.h:69-101 | from one frame, the run with tail calls and the run with calls, with all its returns, end in the same ip, ap, fp, sp, result and slots below the frame; nothing is assumed about the results |
| Exceptions.CoveringBlock | vm/vm.c:1359-1368 | the first block of a frame's table that covers the address |
| Exceptions.FindHandler | vm/vm.c:1351-1394 | the search terminates and finds the handler of the first covering block, frame by frame |
| Exceptions.PoppedAsReturned | vm/vm.c:1351-1357 | unwinding a frame leaves ap, fp, sp and the stack as a return does |
| Exceptions.SearchFindsInnermost | vm/vm.c:1359-1394 | the handler belongs to the innermost frame with a covering block, and its ap, fp and sp are those after popping the frames above |
| Exceptions.TryOutput.Translate | compiler/strom.cpp:944-957 | a try statement is entered in the table after those nested in it |
| Exceptions.FirstIsInnermost | compiler/bcout.cpp:399-403 | in the order in which nested blocks come first, the first covering block is that of the innermost try statement around the address |
| Exceptions.ThrowFindsInnermost | vm/vm.c:1359-1368 | the search, which looks one byte behind a throw, finds the handler of the innermost try around it exactly when no try statement starts right behind it |
| InlineCache.FindMethodInClass | vm/vm.c:377-394 | the method lookup walks along the parents |
| InlineCache.LookupIsNearest | vm/vm.c:377-394 | the lookup finds the declaration nearest on the chain of ancestors, and fails only when there is none |
| InlineCache.DeclaredHasName | vm/vm.c:377-394 | a class answers only methods with the name that was asked for, and none only when it has none of the name and kind and its constructor has another name |
| InlineCache.ParentCalls | vm/vm.c:934-1027 | a call of the parent's method means what a call on the parent itself means, whatever the receiver's class declares; any other call means the receiver's own declaration, then the parent's |
| InlineCache.CallSite.Dispatch | vm/vm.c:943-1004 | a call answers the cached method when the class is the cached one, else looks it up and fills the cache |
| InlineCache.CacheIsExact | vm/vm.c:943-1004 | on every run of receivers every call gets what the lookup without cache answers, exactly when receivers that start at one class mean one method |
| InlineCache.OneKindAgrees | compiler/strom.cpp:719-721 | the cache is right at a site where no class is used both by itself and through an instance |
| InlineCache.MixedKindsConfuse | vm/vm.c:943-1004 | a class and its instance calling one name at one site: the cache answers the wrong method |
| InlineCache.RunSite | vm/vm.c:943-1004 | a call site, run through any receivers, gives the answers that the cache semantics prescribes |
| MemberLayout.ClassEnv.constructor | compiler/tabsym.cpp:65-89 | a class goes on where its parent's counters are, or starts at 0 |
| MemberLayout.ClassEnv.Declare | compiler/tabsym.cpp:267-365 | a declaration takes the next address of its kind, and a second one of a name is refused |
| MemberLayout.AddrsFill | compiler/tabsym.cpp:323-365 | within a class the addresses of one kind are consecutive |
| MemberLayout.ChainFills | compiler/tabsym.cpp:65-89 | along any hierarchy they are 0, 1, 2 and so on, without gap or clash |
| MemberLayout.UnknownParentClashes | compiler/tabsym.cpp:65-89 | a class declared before its parent starts at 0 again: its addresses are disjoint from those of the whole hierarchy it inherits from exactly when there are none on one side |
| MemberLayout.CalcTotal | vm/vm.c:232-245 | the memoized total of instance variables is the plain sum, for every order of calls |
| MemberLayout.CalcOffset | vm/vm.c:247-261 | the memoized offset is that of the nearest built-in ancestor |
| MemberLayout.SumIsTotal | vm/vm.c:232-245 | the virtual machine's sum is the number of addresses the compiler gave |
| MemberLayout.InstanceVariableInside | vm/memory.c:1250-1265 | every instance variable lies inside the traced slots of an object, behind those of a built-in ancestor |
| MemberLayout.OffsetIsNearest | vm/vm.c:247-261 | the slots in front of the own ones of an object are those of its nearest built-in ancestor, and none without one |
| MemberLayout.SymStatic | vm/vm.c:657-672 | the subtracting walk ends at the static with the address, in the class or an ancestor |
| ExprParser.Parser.Vyraz | compiler/parser.cpp:956-958 | the recursive procedures read what the grammar's levels say, from the loosest |
| ExprParser.Parser.ZbVyrazu | compiler/parser.cpp:960-968 | the loop over disjunctions, accumulating to the left |
| ExprParser.Parser.ZbLOrTermu | compiler/parser.cpp:974-982 | the loop over exclusive ors, accumulating to the left |
| ExprParser.Parser.ZbXorTermu | compiler/parser.cpp:988-996 | the loop over logical conjunctions, accumulating to the left |
| ExprParser.Parser.ZbLAndTermu | compiler/parser.cpp:1002-1010 | the loop over bitwise ors, accumulating to the left |
| ExprParser.Parser.ZbBOrTermu | compiler/parser.cpp:1016-1024 | the loop over bitwise ands, accumulating to the left |
| ExprParser.Parser.ZbBAndTermu | compiler/parser.cpp:1030-1036 | the loop over comparisons, accumulating to the left |
| ExprParser.Parser.RelOp | compiler/parser.cpp:930-954 | reads a comparison, or nothing |
| ExprParser.Parser.ZbRelOpTermu | compiler/parser.cpp:1042-1053 | the loop over shifts, accumulating to the left |
| ExprParser.Parser.ZbShiftTermu | compiler/parser.cpp:1059-1070 | the loop over sums, accumulating to the left |
| ExprParser.Parser.ZbTermu | compiler/parser.cpp:1076-1090 | the loop over products; behind a division or remainder the loosest level goes on |
| ExprParser.Parser.ReadFaktor | compiler/parser.cpp:1092-1142 | numbers, names, signs and parentheses |
| ExprParser.PrintParses | compiler/parser.cpp:956-1142 | an expression printed for a level, with parentheses where the levels need them and around every division and remainder, is read back at that level |
| ExprParser.RoundTrip | compiler/parser.cpp:956-1142 | every expression, printed and parsed, gives the same left-associated tree and leaves exactly the tokens behind it |
| ExprParser.ParsePrinted | compiler/parser.cpp:956-1142 | the parser's procedures give back any printed expression |
| ExprParser.ProductAfterDivisionIsLeft | compiler/parser.cpp:1076-1090 | an instance: a / b * c is read as a / b and the rest is left over |
| ExprParser.DisjunctionAfterDivisionIsStolen | compiler/parser.cpp:1076-1090 | an instance: a + b / c or d is read as a + (b / c or d) |
| Precedence.Factors | compiler/parser.cpp:1093-1126 | numbers and names are operands, and a minus or not in front of an operand belongs to it |
| Precedence.InParentheses | compiler/parser.cpp:1127-1132 | whatever is read as a whole is an operand when put in parentheses |
| Precedence.TwoOperands | compiler/parser.cpp:956-1091 | an operator between any two operands takes both |
| Precedence.TwoOperators | compiler/parser.cpp:956-1091 | for operators of any two of the nine groups and operands of every kind: the middle operand belongs to the right operator when that is of a tighter group, else to the left one; only a factor behind a division or remainder is left over |
| Precedence.ThreeAtoms | compiler/parser.cpp:956-1091 | the same for three numbers or names in a row, token by token |
| PlainPrinting.PlainRoundTrip | compiler/parser.cpp:956-1142 | an expression printed with parentheses where the levels ask for them and nowhere else is read back, to exactly its tokens, if and only if no division is the left operand of a multiplicative operator and none ends the left operand of an or without being that operand |
| PlainPrinting.MildParses | compiler/parser.cpp:956-1142 | such an expression, printed for any level, is read back at that level in front of whatever may follow it there |
| PlainPrinting.Misread | compiler/parser.cpp:956-1142 | any other expression is not read back, whatever stops the level: reading fails, gets stuck at a multiplicative operator, or gives some node a left operand of the wrong size |
| PlainPrinting.QuotientSettles | compiler/parser.cpp:1076-1090 | behind a division the parser goes on at the loosest level with the division for its left operand, in front of any tokens |
| PlainPrinting.OrSteals | compiler/parser.cpp:1076-1090 | an or behind any expression that ends with a division takes just that division for its left operand, whatever stands around |
| PlainPrinting.DivisionsToEnclose | compiler/parser.cpp:1076-1090 | the failing families: a division in front of another factor, and a division behind any looser operator in front of an or |
| ClassFile.FileRoundTrip | vm/loader.c:311-418 | loading what was written gives the classes, methods and flags, the table and the code, with the symbols of each class turned round, exactly when no number and no size is all ones, no name holds a zero byte and an int can count the symbols of each kind; otherwise loading fails, or, with too many symbols to count, gives something else |
| ClassFile.BackClassArray | vm/loader.c:311-418 | any number of classes standing anywhere in a file is read back exactly when their numbers, names and symbol counts are good; otherwise reading fails, or, with too many symbols to count, gives other classes |
| ClassFile.BackMethod | vm/loader.c:193-242 | one method is read back exactly when its numbers and name are good |
| ClassFile.BackStr | vm/loader.c:96-130 | a string is read back exactly when it is shorter than all ones and holds no zero byte |
| FileLaws.LowByteFirst | vm/loader.c:63-94 | numbers stand in the file with the low byte first, in four bytes or in eight |
| FileLaws.SymPlaces | vm/loader.c:132-166 | where the name, the address and the constant of a symbol stand |
| FileLaws.MethodPlaces | vm/loader.c:193-242 | where the name, the counts, the entry and the kind of a method stand |
| FileLaws.ClassPlaces | vm/loader.c:311-418 | where the names of a class and its parent and its two numbers of symbols stand |
| FileLaws.FilePlaces | vm/loader.c:420-536 | a file begins with the four bytes of the magic number and the number of classes; behind the classes come the constants and the code, each behind its length, and nothing else |
| ClassFileLoader.Loader.LoadUint32 | vm/loader.c:63-78 | reads four bytes, low byte first, or fails at the end of the file |
| ClassFileLoader.Loader.LoadSize | vm/loader.c:80-94 | reads eight bytes, low byte first, and fails at the end of the file or on all ones |
| ClassFileLoader.Loader.LoadString | vm/loader.c:96-130 | a string, refused when its length is not that of the C string |
| ClassFileLoader.Loader.LoadSym | vm/loader.c:132-166 | reads one symbol as the format prescribes, or fails where the format does |
| ClassFileLoader.Loader.LoadSyms | vm/loader.c:168-191 | the symbols of a class, stored from the end of the array to its front; for a count above 2^31 the int counter is negative at once and the array stays unread |
| ClassFileLoader.Loader.LoadMethod | vm/loader.c:193-242 | reads one method as the format prescribes, or fails where the format does |
| ClassFileLoader.Loader.LoadMethods | vm/loader.c:244-309 | reads the number of methods and that many methods, in their order |
| ClassFileLoader.Loader.LoadClasses | vm/loader.c:311-418 | reads the given number of classes, each with its name, parent, symbols, initializer, constructor and methods |
| ClassFileLoader.Loader.LoadFile | vm/loader.c:493-536 | a whole file, or the first failure in it |
| ClassFileWriter.DivideSyms | compiler/bcout.cpp:602-660 | relinking divides the linked symbols into static and instance ones, each kind complete and in its order |
| ClassFileWriter.ClassOut.W32 | compiler/bcout.cpp:485-493 | appends four bytes and answers where |
| ClassFileWriter.ClassOut.WStr | compiler/bcout.cpp:508-530 | appends a string with its length |
| ClassFileWriter.ClassOut.WSymbol | compiler/bcout.cpp:532-539 | appends a symbol with its name, address and constant |
| ClassFileWriter.ClassOut.WPrvekTab | compiler/bcout.cpp:541-559 | appends a linked list of symbols; the number patched in front of them is right |
| ClassFileWriter.ClassOut.WMethod | compiler/bcout.cpp:579-600 | appends a method with its flag, counts and entry point |
| ClassFileWriter.ClassOut.WMethods | compiler/bcout.cpp:602-706 | appends the methods of a class with their number |
| ClassFileWriter.ClassOut.WClass | compiler/bcout.cpp:602-706 | appends a class with its divided symbols |
| ClassFileWriter.WriteClasses | compiler/bcout.cpp:708-734 | appends all classes; dividing the symbols of one does not disturb the others |
| ClassFileWriter.WriteFile | compiler/bcout.cpp:736-769 | the file consists of the magic number, the classes with their number, the constant table and the code |
| ClassFileWriter.KindReversed | compiler/bcout.cpp:602-660 | taking the symbols of one kind commutes with turning the list round |
| ClassFileWriter.LoadedInDeclarationOrder | vm/loader.c:168-191 | after writing and loading, the symbols of each kind are in the order of their declarations |
| GrowableArray.GrowsFromTwo | vm/memory.c:1212-1215 | a turn of the growing loop makes a capacity larger exactly from two on |
| GrowableArray.KekArray.Get | vm/vm.c:761-801 | reads the element, or reports an index behind the end |
| GrowableArray.KekArray.Grow | vm/k_array.c:187-207 | the contents become the sequence extended with nil, in a block of sufficient capacity |
| GrowableArray.KekArray.Address | vm/vm.c:802-828 | extends the sequence to the index, in place when the capacity allows it |
| GrowableArray.KekArray.Set | vm/k_array.c:116-131 | extends the sequence to the index and sets that element only |
| GrowableArray.KekArray.Append | vm/k_array.c:145-177 | appends another array's elements; the stored lengths agree afterwards exactly when the array has grown or nothing was appended |
| GrowableArray.KekArray.AppendSelf | vm/k_array.c:145-177 | appending an array to itself: the loop runs to the length that was just raised, and stays inside the block exactly when that has room for three times the elements; then the contents are doubled, but the slots behind them hold a third copy instead of nil |
| GrowableArray.Build | vm/k_array.c:107-131 | building an array of n elements one index at a time copies fewer than 4n elements |
| StringReplace.FindIsFirst | vm/k_string.c:138-202 | the search answers the first occurrence, or none when there is none |
| StringReplace.PlacesAreLeftmost | vm/k_string.c:138-202 | the replaced occurrences do not overlap and are counted right, and every occurrence starts inside one of them |
| StringReplace.ReplaceBySelf | vm/k_string.c:138-202 | replacing a pattern by itself changes nothing |
| StringReplace.ResultLength | vm/k_string.c:155-171 | the length of the result is that of the text plus what each occurrence adds |
| StringReplace.BufferSuffices | vm/k_string.c:155-171 | the computed buffer holds the result, for any object length that is not shorter than the text |
| StringReplace.EmptyPatternIsStuck | vm/k_string.c:158-165 | with an empty pattern the counting loop stays where it is |
| StringReplace.CountOccurrences | vm/k_string.c:158-165 | the first pass terminates and counts the occurrences that the second replaces |
| StringReplace.ComputedLength | vm/k_string.c:166-171 | the buffer length computed from the count is enough for the result |
| StringReplace.Replace | vm/k_string.c:138-202 | the second pass builds the text with every such occurrence replaced, and never writes outside the buffer |
| SchemeReader.DecimalBack | vm/k_string.c:121-136 | an integer printed in decimal is read back |
| SchemeReader.PrintReads | kek_scheme/parser.kek:48-117 | a printed value in front of a delimiter is read back, and reading stops just behind it |
| SchemeReader.ReadPrintRoundTrip | kek_scheme/types.kek:44-148 | every nested proper list of integers, booleans, symbols and strings without quotes, printed on a line and read, gives an equal value and leaves the end of the line |
| SchemeReader.DottedPairIsReadAsList | kek_scheme/types.kek:129-148 | an instance: the pair of 1 and 2 is read back as the list of 1, the symbol of a dot, and 2 |
| SchemeForms.GapSkipped | kek_scheme/parser.kek:21-48 | white space and comments in front of a text do not change which character is read next |
| SchemeForms.FormReads | kek_scheme/parser.kek:93-117 | reading any written expression -- quotes at every depth, lists with any white space and comments between their elements, the word null, printed values -- gives its meaning and stops just behind it |
| SchemeForms.GapBefore | kek_scheme/parser.kek:21-48 | white space or a comment in front of an expression changes nothing |
| SchemeForms.QuotedReads | kek_scheme/parser.kek:112-114 | a quote in front of a printed value, once or twice, is read as the list of the symbol quote and the value |
| SchemeForms.NothingLeft | kek_scheme/parser.kek:93-117 | at the end of the input there is nothing to read, a quote holds nothing and an open list is an error |
| SchemeForms.PlusReads | kek_scheme/parser.kek:86-88 | digits, with or without a plus sign, are read as their number when that is an int |
| SchemeExact.ReadsBackExactly | kek_scheme/types.kek:44-148 | of all values whose parts can be printed, those that come back in front of any delimiter are exactly the nested proper lists of integers, booleans, symbols that read as such and strings without quotes, and a symbol by itself that begins with a closing parenthesis |
| SchemeExact.NotRead | kek_scheme/parser.kek:48-117 | any other value is not read back: dotted pairs, symbols that look like something else, strings with quotes, at any depth and in front of any delimiter |
| SchemeExact.ParenNameReads | kek_scheme/parser.kek:108-117 | a symbol that begins with a closing parenthesis is read back when it stands by itself |
| SchemeExact.ReadAtoms | kek_scheme/parser.kek:48-91 | the symbols and strings that reading can answer at all |
| LineInput.KekFile.Fgets | vm/k_file.c:97-103 | the C function as its standard describes it: up to n - 1 characters, through the first newline, with a zero behind them, and nothing else in the buffer changes |
| LineInput.KekFile.Readln | vm/k_file.c:82-120 | readln on a file answers its lines one after the other, each with its newline, for any length; the buffer is doubled and never written behind its end; a last line without a newline is not answered |
| LineInput.TermReadln | vm/k_term.c:49-70 | readln on the terminal answers what was typed with a newline behind it, or nothing at the end |
| LineInput.LinesOf | vm/k_file.c:82-120 | lines, put one behind the other in front of any text, are the first lines of it |
| LineInput.LinesCover | vm/k_file.c:82-120 | a text is its lines and a rest without a newline |
| SchemeLines.KeptTerminated | kek_scheme/reader.kek:43-63 | whatever lines there are, what the parser sees of them is empty or ends with a newline |
| SchemeLines.UnterminatedIsLost | vm/k_file.c:82-120 | what stands behind the last newline of an input never reaches the parser |
| SchemeLines.ReadBreaks | kek_scheme/parser.kek:48-117 | every newline inside a value that was read stood in the text that was read for it: none is made up or counted twice |
| SchemeLines.ComesBackExactly | kek_scheme/reader.kek:43-63 | a value printed at the beginning of an input, on as many lines as its text has, is what reading gives, whatever follows, exactly when it reads back at all and none of its lines begins with the comment character |
| SchemeLines.HashedLost | kek_scheme/reader.kek:54-58 | a value with a line that begins with the comment character is not read back, in front of any text: the lost newline cannot be made up for |
| SchemeLines.NewlineNeeded | vm/k_file.c:82-120 | no value at all is read back from an input that ends with its text and has no newline behind it |
| SchemeParser.Reader.ReadChar | kek_scheme/reader.kek:43-63 | the next character over lines, comment lines passed over; after a pushback the same one again |
| SchemeParser.Reader.UnreadChar | kek_scheme/reader.kek:65-67 | puts the last character back |
| SchemeParser.PushbackBehindTheEnd | kek_scheme/reader.kek:43-67 | the reader by itself: after the end of an input a pushback makes the last character come again; the parser never does this |
| SchemeParser.SymTable.GetSym | kek_scheme/types.kek:85-105 | equal names get the same symbol and different names different ones, and no symbol is lost |
| SchemeParser.Parser.SkipWhite | kek_scheme/parser.kek:21-29 | the first character that is not white space |
| SchemeParser.Parser.SkipComments | kek_scheme/parser.kek:39-46 | skips comments to the ends of their lines |
| SchemeParser.Parser.ReadToken | kek_scheme/parser.kek:66-81 | the characters up to a delimiter, which is put back; as every line ends with a newline a delimiter always follows, and the pushback never leads behind the end |
| SchemeParser.Parser.ReadQuoted | kek_scheme/parser.kek:66-81 | the characters up to a quote, or a failure at the end of the input |
| SchemeParser.Parser.ReadAtom | kek_scheme/parser.kek:48-91 | an atom, with its kind decided by its text |
| SchemeParser.Parser.ReadRest | kek_scheme/parser.kek:93-106 | reads the elements of a list up to its closing parenthesis, recursively, or fails at the end of the input |
| SchemeParser.Parser.ReadValue | kek_scheme/parser.kek:108-117 | one value, a failure, or the end of the input; a quote at the end gives the pair of quote and nil that the code makes |
| SchemeParser.ReadBack | kek_scheme/parser.kek:93-117 | the parser over the pushback reader, on an input that begins with a printed value: it answers that value and stands at the end of its last line exactly when the value is plain, or a symbol by itself that begins with a closing parenthesis, and none of its lines begins with the comment character |

## Left out

Collector and heap:

- Generational mode, promotion, the write barrier, mark-and-sweep, the object table and the malloc-backed modes: GC_NEW is modelled, and GC_NONE only as the unbounded heap it is compared with.
- Exceptions inside the collector proofs: a thrown object that is saved while the stack unwinds is not a root.
- Subclasses of File: their first slot is a C handle that the collector would trace.
- Addresses are integers and sizes are those of a 64-bit build; struct padding, misaligned accesses and the pointer width are not modelled further.
- Clearing of a new space or object: allocation is modelled as answering a cleared object, because `#ifdef FORCE_CALLOC` in vm/memory.c is true for the value 0 as well.
- Machine.Vm.IndexAddr: an array of capacity below two counts as stuck, because the growing loop of vm/memory.c:1212-1215 would not end; indices are not negative.
- Machine.Vm.Compare: only equality; inequality, which compares strings by the sign strcmp answers, and concatenation are left out.
- Machine.Vm.Step: member addresses are already resolved in its instructions; names, calls and exceptions are the subject of other modules, and the statics of all classes are one area.
- Machine.Vm.AllocateRegistered: storing an element in native_arr_elem_set keeps its value in an unregistered variable while the array grows; only the growth through IDXA is modelled.

Compiler and machine:

- Optimizer.OptimizerPreserves: says nothing of programs with a for loop whose condition folds to zero or with expression labels in a switch on a constant; OptimizerKeeps says of these what the optimized program does instead.
- Optimizer.FoldingPreserves: the operand of a folded negation is taken as assigned back, although UnMinus::Optimize and Not::Optimize drop the optimized node when it does not fold (compiler/strom.cpp:482-500); a constant-false if without else is an empty statement instead of a null node.
- Operations that C leaves undefined (overflow, division by zero, shifts by too much) have no value in the model, and a program that comes to one has the outcome Fault.
- CompilerCorrectness.CompilerCorrect: covers integer expressions over arguments and locals; code and constant table below 65536 bytes and the 4096 stack slots are preconditions, as the 16-bit operands and the fixed stack demand. Members, calls, strings, Read and inline cache padding are left out.
- BytecodeOutput.Bcout.TranslateCase: the fixed size of the two jump lists (1000 entries each) is not modelled.
- ConstTable.InterningIsByValue: the table does not move while a constant is being added; ct_malloc answers a pointer taken before its realloc (compiler/bcout.cpp:253-260).
- ConstTable.Aligned: the length stored for a string literal is rounded up; runtime string lengths are not modelled further.
- TailCalls.TailCallsAreCalls: what a method does is a function of the world outside the stack, its entry, what it is handed and its cleared locals, and it keeps to its own frame; calls inside a method return before its last one.
- Frames.TailCallsRefineCalls: the two last results are equal by assumption here and by proof in TailCalls; methods with bytecode only; native callees whose caller was entered from native code, and tail calls inside a try, are left out.
- Exceptions.TryOutput.Translate: a method body is modelled as far as try statements matter; setjmp and longjmp are left out.
- InlineCache.CacheIsExact: the class table is fixed during a run.

Files, layout and parsers:

- ClassFile.FileRoundTrip: the elements of an array that is allocated and not read are all `Unread`, whatever the memory held; the constant pointers of symbols are plain numbers, and the assertion that the first constant is nil is not part of the model.
- MemberLayout.SymStatic: the class the walk starts from has a static, because the code reads its first one.
- MemberLayout.ClassEnv.Declare: members of classes only; locals and arguments of methods are left out.
- ExprParser.RoundTrip: an operand is a number or a name; calls, indexing, literals of other types, the lexer and the declarations and statements of the language are left out.
- SchemeReader.Read: a number that does not fit an int fails instead of becoming whatever sscanf makes of it; quote expressions are read but not printed, and printing the nil inside an unfinished one is an error.
- LineInput.KekFile.Readln: the file holds no zero byte, at which strlen would stop, and no line is so long that an int cannot count it.
- SchemeParser.Reader.ReadChar: the reader takes its lines from a sequence; for a file that is the one Readln answers, for the terminal what is typed.
- StringReplace.Replace: the pattern is not empty; characters are those of the C string, so its text may be shorter than the object's length.
- GrowableArray.KekArray.AppendSelf: what the loop writes behind the block has no model; the method answers that it would.
- Native classes for files, the terminal and the system, string_split, the Scheme evaluator and its built-in functions, the line editor, debug output and option parsing.
