# A Dafny model of the NEO stack virtual machine

This project models the core of the virtual machine in `pkg/vm`, with the byte formats it rests on, and
proves what that core is for. `dafny verify dfyconfig.toml` checks everything.

* **Parallel multi-signature checking.** A coordinator closes a window of keys and signatures from both ends
  while three workers answer in any order. `Matching` is the promise: signatures can be assigned to keys in
  increasing order. `MultisigPar` is the coordinator's loop, with the scheduler's choice left open;
  `MultisigChannels` adds channels and workers as a step system and proves the answer, the absence of
  blocking, and a bound on every run.
* **Items, stacks and the reference-counted size.** `Items` holds the items: primitives are values, arrays,
  structs and maps are objects. `RefCount` states the books of the counters that all stacks share, over
  cyclic object graphs, with pending references in the middle of a walk. `RemovalWalk` is the removal walk as
  it is written, which need not end, and what it leaves of the books; `Counting` has both walks on the heap.
  `Reaching` says what the books mean for what the stacks reach. `RingStack` is the doubly linked ring with
  its sentinel, refining a sequence; `StackOps` and `StackRuns` are the stack opcodes and whole runs of them, and
  `StackLaws` says what such runs move, copy and lose without the functions that compute single opcodes.
* **Object opcodes.** `Equality`, `StructClone` and `OrderedMap` are the operations on items. `Edits` says when
  changing a slot ends, and when the books are exact afterwards; `SlotBooks`, `HeapWrites` and `ObjectOps` are
  APPEND, SETITEM, REMOVE, NEWARRAY, NEWSTRUCT, NEWMAP and VALUES, `Packing` is PACK. `ObjectRuns` are whole
  runs of them over the rings and the heap, with `MapKeys` for the keys of maps and `Searching` to find out
  whether a container is still reached. `NumberNames`, `SlotLaws` and `EditSlots` say which number a key names and
  which slot the opcodes take, `EqualityLaws` what equality means for each kind; `FailingRuns` are short scripts on which the removal walk goes wrong.
* **Codecs.** `TwosComplement` and `BigInt` are integers in 64-bit words, `BinIO` the reader and writer with
  their sticky errors, `ItemBytes`, `Serialization`, `Serializable`, `Deserialization` and `StoredItems` the
  serialization of items. `WrittenForms` gives the written bytes by range and kind, in literal numbers.
* **Scripts.** `Opcodes`, `Contexts` and `Emit` are the decoder and the assembler; `MultisigScript`,
  `MultisigParse` and `MultisigRun` the scripts of multi-signature contracts, from the keys to the verdict;
  `RedeemKeys` reads the keys off the bytes of the script.
* **Control.** `Frames` gives calls, jumps and returns as functions on frames and stacks, `Jumps` and
  `CallSteps` say of the states before and behind a step where jumps and calls lead. `Isolation` and `SharedCalls`
  prove what a callee can do to its caller over whole runs, with stacks of its own or on the caller's evaluation
  stack. `Machine` is the VM with heap, counters, prices and a
  gas limit, with `PriceLaws`; `StackSlots` are the slots of all its stacks.
* **Merkle trees.** `Merkle` is the level-by-level builder against a recursive specification, with proofs of
  membership in `MerkleLaws`.

Snapshots. A `Graph` maps the containers of a heap to their slots. Predicates such as `Exact`, `Ranked` and
`Equals` speak of a snapshot, `Shows` ties the snapshot to the heap, and methods take and return snapshots
as ghost values.

Uninterpreted. Signature verification, script lookup and the pair hash of Merkle trees are function-valued
parameters, so what is proved holds for all of them. Injectivity of the pair hash is assumed only where stated.

Where the code and its description disagree, the code is followed. The message for more than 1024 signatures
speaks of the number of keys (pkg/smartcontract/contract.go:21-23), but keys are not limited there, so that a
script with more than 1024 keys can be created and is not recognised. The depth of a Merkle tree is the
constant 1. The recogniser of scripts reads counts as unsigned bytes.

Findings that are proved:

* The removal walk can run for ever. An array in its own slot, with no other holder, is live and the books are
  exact; taking the slot out never ends (`RemovalWalk.SelfReferenceNeverEnds`), and neither does taking the
  array out of a second one that is not even live (`Edits.PackedSelfReferenceNeverEnds`). Scripts of seven and
  nine opcodes lead there (`FailingRuns`). With exact books, uncounting a live value ends if and only if it has
  a count to spare or is held without its own slots, whatever container it is taken out of
  (`Edits.EndsExactly`); from any counts and for any value it ends if and only if a finite list of openings
  covers the references that it takes back (`RemovalWalk.EndsIfAffordable`). On a heap every walk ends, whatever
  the counts, if and only if the heap has no cycle (`RemovalWalk.EndlessExactly`). For SETITEM and REMOVE to end
  with exact books it is enough that the remaining stack slots reach the container (`Edits.ReachableIsHeld`).
  A run of the VM halts or faults under a gas limit unless some opcode changes a container that is not reached;
  and even then a walk only goes on for ever where the heap has a cycle (`Machine.VM.Run`).
* The counted size can be below zero and then covers nothing (`Edits.SizeBelowZero`); four opcodes are enough
  (`FailingRuns.SizeBelowZeroRuns`). After APPEND, SETITEM or
  REMOVE the books are exact if and only if the container is live, or SETITEM replaces a value by one that
  makes no difference to the counts (`Edits.EditExactly`).
* Live containers are the reachable ones, and size is exactly their slots and those of the stacks, if and only if
  no unreachable live containers hold one another in a ring (`Reaching.LiveExactly`).
* Serialization refuses shared containers just like cyclic ones (`Serializable.SerializableExactly`).
* The price of CHECKMULTISIG is right up to 922337203685 keys and wraps round beyond (`Machine.PriceExactly`),
  also to negative prices; while the books are exact no such instruction goes through (`Machine.NeverDear`).
* A key of a list counts by its low 64 bits, so that 2^64 names the first slot (`NumberNames.SmallNames`).
* 16 has an opcode of its own but is emitted as bytes, and 0xFFFF and 0xFFFFFFFF take the longer form of a number
  (`WrittenForms.SixteenIsBytes`, `WrittenForms.VarUintForm`).
* Lists of hashes of different lengths can have the same Merkle root; `Merkle.SameRootExactly` says when.
* A frame that a TAILCALL puts in place of an isolated one hands its whole stack to the caller
  (`Isolation.IsolatedRunKeepsCaller`).

## Model

| member | source | states |
|---|---|---|
| Matching.SkipFirstKey | pkg/vm/vm.go:1507-1521 | a first key that does not verify the first signature can be dropped without changing whether an increasing assignment exists |
| Matching.TakeFirstKey | pkg/vm/vm.go:1507-1528 | a first key that verifies the first signature can be matched with it without loss |
| Matching.SkipLastKey | pkg/vm/vm.go:1507-1528 | the same for the last key and the last signature, no match |
| Matching.TakeLastKey | pkg/vm/vm.go:1507-1528 | the same for the last key and the last signature, match |
| Matching.TooFewKeys | pkg/vm/vm.go:1246-1250 | more signatures than keys can never be assigned |
| Matching.GreedyIsExact | pkg/vm/vm.go:1448-1549 | the sequential one-ended test says yes exactly when an increasing assignment exists |
| Matching.ReverseBoth | pkg/vm/stack.go:453-457 | reversing keys and signatures together, as popping both does, changes nothing |
| MultisigPar.AnyResult | pkg/vm/vm.go:1500-1530 | whichever outstanding result arrives, the window stays matchable if and only if the whole problem is, or the loop stops with the right answer; the direction is told right by the number of the signature |
| MultisigPar.CheckMultisig1 | pkg/vm/vm.go:1540-1549 | for one signature: true exactly if some key verifies it |
| MultisigPar.CheckMultisigPar | pkg/vm/vm.go:1448-1538 | for every order of results the loop ends and returns whether an increasing assignment exists |
| MultisigPar.CheckMultisigParIsGreedy | pkg/vm/vm.go:1448-1538 | the parallel answer is the sequential one |
| MultisigChannels.StepIsGood | pkg/vm/vm.go:1480-1535 | every step of coordinator or worker keeps the system invariant: at most two tasks outstanding, room in every channel |
| MultisigChannels.SendsNeverBlock | pkg/vm/vm.go:1480-1535 | whenever somebody is about to send, the channel has room, also after the tasks channel is closed |
| MultisigChannels.NoDeadlock | pkg/vm/vm.go:1480-1535 | until everything has ended somebody can take a step |
| MultisigChannels.StepDoesWork | pkg/vm/vm.go:1480-1535 | every step lowers the work that is left |
| MultisigChannels.RunsAreShort | pkg/vm/vm.go:1480-1535 | no run is longer than four steps per key and eight more |
| MultisigChannels.KeysVerifiedOnce | pkg/vm/vm.go:1480-1535 | on every run each key is verified at most once |
| MultisigChannels.EveryMaximalRunIsCorrect | pkg/vm/vm.go:1448-1535 | every run that cannot go on has ended with the right answer and all workers gone |
| MultisigChannels.EveryRunCanGoOn | pkg/vm/vm.go:1480-1535 | in every reachable state no send blocks, and unless all is done somebody can take a step |
| MultisigChannels.EveryRunCanEnd | pkg/vm/vm.go:1480-1535 | every run can be continued to one that has ended, with the right answer |
| RefCount.AddOneBalances | pkg/vm/stack.go:216-236 | counting a pending reference, and all that comes alive with it, keeps the books balanced, on any graph |
| RefCount.AddIsExact | pkg/vm/stack.go:216-236 | a new stack slot, once counted, leaves exact books exact |
| RefCount.RemoveOne | pkg/vm/stack.go:238-261 | taking a reference back leaves the books exact for one reference less; size goes down, nothing comes alive |
| RefCount.RemoveSpares | pkg/vm/stack.go:238-261 | what the remaining stack slots reach stays live |
| RefCount.ReachableIsLive | pkg/vm/stack.go:216-261 | with exact books everything the stacks reach is live |
| RemovalWalk.LowerEnds | pkg/vm/stack.go:238-261 | a walk that ends also ends from higher counts, and leaves higher ones |
| RemovalWalk.EnoughFuel | pkg/vm/stack.go:238-261 | a walk that is deeper than there are containers never ends: whether one ends, and with what, is decided at that depth |
| RemovalWalk.CycleNeverEnds | pkg/vm/stack.go:238-261 | once the walk gets to a cycle of containers without a count to spare, no depth is enough |
| RemovalWalk.SelfReferenceNeverEnds | pkg/vm/stack.go:238-261 | an array in its own slot and nowhere else: the books are exact, and taking the slot out never ends |
| RemovalWalk.EndsIfAffordable | pkg/vm/stack.go:238-261 | from any counts, for any item: the walk ends if and only if there is a finite list of openings that covers the reference taken back and all those that the openings take back in turn |
| RemovalWalk.EndlessExactly | pkg/vm/stack.go:238-261 | all walks over a heap end, from whatever counts, if and only if no containers hold one another in a cycle |
| RemovalWalk.AccountedEnds | pkg/vm/stack.go:238-261 | taking back a reference that the books account for always ends and leaves what `RemoveOne` says |
| RemovalWalk.WalkBooks | pkg/vm/stack.go:238-261 | from any books, any ending walk: one reference less, and size falls one further behind for each container met without a count |
| RemovalWalk.UncountedWhileThere | pkg/vm/stack.go:238-261 | uncounting something live while its reference stays, if it ends, leaves books that lack just this reference |
| Counting.Counters.UpdateSizeAdd | pkg/vm/stack.go:216-236 | the walk over the heap ends, also on cycles, and does what the specification does on the snapshot |
| Counting.Counters.UpdateSizeRemove | pkg/vm/stack.go:238-261 | whenever the walk on the snapshot ends, the heap walk ends with the same counts, whatever the books are |
| Counting.Counters.Gain | pkg/vm/stack.go:196-214 | a gained slot keeps the books exact; the counts are those of `AddOne` |
| Counting.Counters.Lose | pkg/vm/stack.go:329-343 | a lost slot keeps the books exact; the counts are those of `RemoveOne` |
| Reaching.SizeCoversReachable | pkg/vm/stack.go:216-261 | size is at least all stack slots plus all slots of containers the stacks reach |
| Reaching.AcyclicIsTight | pkg/vm/stack.go:216-261 | without cycles live is the same as reachable and size is exactly that sum |
| Reaching.LiveExactly | pkg/vm/stack.go:216-261 | live is the same as reachable, and size exactly that sum, if and only if no unreachable live containers hold one another in a ring |
| Reaching.ReachableElsewhere | pkg/vm/vm.go:1036-1108 | whether a container is reached does not depend on its own slots |
| RingStack.Stack.LinkIn | pkg/vm/stack.go:203-207 | next and prev stay inverse around the sentinel when an element is linked in |
| RingStack.Stack.LinkOut | pkg/vm/stack.go:333-337 | the same when one is unlinked |
| RingStack.Stack.LinkFirst | pkg/vm/stack.go:413-423 | the same when one is brought to the top, the adjacent case included |
| RingStack.Stack.Peek | pkg/vm/stack.go:311-320 | the element n deep, or nothing |
| RingStack.Stack.Dup | pkg/vm/stack.go:349-358 | a fresh element with the value n deep |
| RingStack.Stack.Insert | pkg/vm/stack.go:196-214 | an element still linked is replaced; the contents gain its value, the counters stay exact |
| RingStack.Stack.Push | pkg/vm/stack.go:275-277 | the value comes to the top |
| RingStack.Stack.InsertAt | pkg/vm/stack.go:266-272 | the value goes in n deep exactly if 1 <= n <= len |
| RingStack.Stack.RemoveAt | pkg/vm/stack.go:324-326 | the value n deep goes exactly if it exists |
| RingStack.Stack.Pop | pkg/vm/stack.go:286-288 | the top value goes |
| RingStack.Stack.Swap | pkg/vm/stack.go:383-398 | two values change places exactly if both exist |
| RingStack.Stack.Roll | pkg/vm/stack.go:402-425 | the value n deep comes to the top, the others keep their order |
| StackOps.Perform | pkg/vm/vm.go:574-718 | DUP, DROP, NIP, SWAP, TUCK, OVER, ROT, DEPTH, XDROP, XSWAP, XTUCK, PICK and ROLL do on the ring what `Shuffled` does on a sequence (`StackLaws` says what that is), fault when it says so, and keep the counters exact |
| StackOps.Execute | pkg/vm/vm.go:503-514 | an opcode that goes through is a fault all the same exactly if the counted size is then above 2048 |
| StackRuns.Move | pkg/vm/vm.go:565-569 | the top element moves between evaluation and alternative stack; both stay valid, the counters exact |
| StackRuns.Run | pkg/vm/vm.go:503-718 | a whole run of stack opcodes over two rings goes through exactly if every opcode does and no counted size on the way is above 2048; it ends with what the functions on sequences give, the counters exact behind every step |
| StackRuns.LedgerSize | pkg/vm/stack.go:216-261 | without cycles those sizes are the slots on the stacks and in what they reach |
| StackLaws.RollLaw | pkg/vm/vm.go:707-712 | n ROLL lifts the item n deep to the top and leaves the others in order, exactly if it is there |
| StackLaws.XSwapLaw | pkg/vm/vm.go:653-658 | n XSWAP exchanges the item n deep with the top, exactly if both are there |
| StackLaws.SwapLaw | pkg/vm/vm.go:577-581 | SWAP exchanges the two topmost items |
| StackLaws.RotLaw | pkg/vm/vm.go:674-678 | ROT lifts the third item to the top |
| StackLaws.PickLaw | pkg/vm/vm.go:696-705 | n PICK puts a copy of the item n deep on top, all others as they were |
| StackLaws.DupLaw | pkg/vm/vm.go:574-575 | DUP does so with the top |
| StackLaws.OverLaw | pkg/vm/vm.go:689-694 | OVER does so with the second item |
| StackLaws.XTuckLaw | pkg/vm/vm.go:660-672 | n XTUCK puts a copy of the top in n deep |
| StackLaws.TuckLaw | pkg/vm/vm.go:583-591 | TUCK puts it below the second item |
| StackLaws.XDropLaw | pkg/vm/vm.go:643-651 | n XDROP takes out the item n deep |
| StackLaws.DropLaw | pkg/vm/vm.go:714-718 | DROP takes out the top |
| StackLaws.NipLaw | pkg/vm/vm.go:683-687 | NIP takes out the second item |
| StackLaws.DepthLaw | pkg/vm/vm.go:680-681 | DEPTH pushes the number of items |
| StackLaws.CopyAdds | pkg/vm/stack.go:349-358 | a copy adds just the item that is copied |
| StackLaws.LossTakes | pkg/vm/stack.go:324-326 | a loss takes just the item that is taken out |
| StackLaws.MovesKeepAll | pkg/vm/vm.go:565-712 | ROLL, XSWAP, SWAP, ROT and the moves between the stacks keep all items |
| StackLaws.ShortCopies | pkg/vm/vm.go:574-705 | 0 PICK is DUP and 1 PICK is OVER, on all stacks and also where they fault |
| StackLaws.ShortTuck | pkg/vm/vm.go:583-672 | 2 XTUCK is TUCK |
| StackLaws.ShortMoves | pkg/vm/vm.go:577-712 | 1 ROLL and 1 XSWAP are SWAP, 2 ROLL is ROT |
| StackLaws.ShortLosses | pkg/vm/vm.go:643-718 | 0 XDROP is DROP, 1 XDROP is NIP |
| StackLaws.RollsRound | pkg/vm/vm.go:707-712 | n ROLL, n + 1 times, leaves the stacks as they were |
| StackLaws.BelowTop | pkg/vm/vm.go:577-694 | NIP is SWAP DROP, TUCK is SWAP OVER |
| StackLaws.ThereAndBack | pkg/vm/vm.go:565-572 | what goes to the other stack and back is where it was |
| StackLaws.CopyDropped | pkg/vm/vm.go:574-718 | DUP, OVER or DEPTH and then DROP leave the stacks as they were |
| StackLaws.SwappedTwice | pkg/vm/vm.go:577-581 | so does SWAP SWAP |
| StackLaws.NumberedByAny | pkg/vm/vm.go:643-712 | any item that names the same number has the same effect on these opcodes |
| Equality.PrimitivesByBytes | pkg/vm/stack_item.go:211-223 | primitives are equal exactly when their byte forms are |
| Equality.EqualsReflexive | pkg/vm/stack_item.go:138-154 | equality of items is reflexive |
| Equality.EqualsSymmetric | pkg/vm/stack_item.go:300-362 | equality is symmetric across all kinds |
| Equality.EqualsTransitive | pkg/vm/stack_item.go:300-362 | equality is transitive across all kinds |
| EqualityLaws.EqualsByKind | pkg/vm/stack_item.go:138-590 | arrays, maps and interop items equal only themselves, structs only structs with equal fields, primitives by bytes |
| Equality.ItemEquals | pkg/vm/stack_item.go:354-362 | the code decides the specified equality |
| Equality.StructEquals | pkg/vm/stack_item.go:138-154 | comparing structs field by field ends, since no struct contains itself through structs, and decides equality |
| OrderedMap.Index | pkg/vm/stack_item.go:480-487 | the place of a key, or a negative number exactly if the map has no value for its bytes |
| OrderedMap.Add | pkg/vm/stack_item.go:519-529 | the finite map from key bytes to values is updated at one key; keys stay pairwise different and in their order |
| OrderedMap.Drop | pkg/vm/stack_item.go:532-536 | one key goes, the others keep value and order |
| StructClone.Clone | pkg/vm/stack_item.go:175-186 | a clone ends, equals its source, and shares no struct with it along paths through structs |
| StructClone.CloneIfStruct | pkg/vm/vm.go:1551-1558 | structs are cloned, everything else is passed on |
| SlotBooks.SlotAdded | pkg/vm/vm.go:962-987 | a slot written to a live container is a pending reference; to any other it is nothing |
| SlotBooks.SlotDropped | pkg/vm/vm.go:1075-1108 | a slot taken from a live container leaves one reference too many; from any other, nothing |
| SlotBooks.FiledRanked | pkg/vm/vm.go:962-1066 | filing a fresh clone in a struct keeps the relation of structs in structs acyclic |
| Edits.EndsExactly | pkg/vm/vm.go:1036-1108 | with exact books, uncounting a live container ends if and only if it has a count to spare or is held without its own slots; the slot that it is taken out of may be in any container, live or not |
| Edits.EditEndsExactly | pkg/vm/vm.go:1036-1108 | an edit of any container, from any counts, ends if and only if nothing is uncounted or the openings that this leads to can be afforded |
| Edits.PackedSelfReferenceNeverEnds | pkg/vm/vm.go:1075-1108 | an array that holds itself, in the slot of a second one that is not live: the books are exact, and taking it out never ends |
| Edits.ReachableIsHeld | pkg/vm/vm.go:1036-1108 | a container that the remaining stack slots reach is live and held, whatever its own slots are |
| Edits.AcyclicEnds | pkg/vm/stack.go:238-261 | where no container holds itself every walk ends, from any counts |
| Edits.AcyclicHasNoCycle | pkg/vm/stack.go:238-261 | depths that fall from each container to those in its slots rule out a cycle |
| Edits.EditExactly | pkg/vm/vm.go:962-1108 | an edit that ends leaves exact books if and only if the container is live or a replacement makes no difference; a dead container never loses a slot unnoticed |
| Edits.SafeEdit | pkg/vm/vm.go:962-1108 | an edit of a held container ends within the depth of the heap and leaves exact books |
| Edits.SizeBelowZero | pkg/vm/vm.go:1075-1108 | REMOVE on an unheld array of one false leaves size -1 with exact books before, and after one push size is zero |
| ObjectOps.Append | pkg/vm/vm.go:962-987 | clone, check, append; structs stay acyclic; the books stay exact if and only if it faults or the container is live |
| ObjectOps.SetItem | pkg/vm/vm.go:1036-1066 | uncount the value in the slot of the key (`SlotLaws`), write, count the new one, wherever that ends: exact condition for a fault, counts as the two walks leave them, and exact books if and only if it faults, the container is live or the replacement makes no difference |
| ObjectOps.Remove | pkg/vm/vm.go:1075-1108 | uncount and take out the slot of the key (`SlotLaws`), wherever that ends; a missing map key is no error; exact books if and only if nothing is taken out or the container is live |
| ObjectOps.NewList | pkg/vm/vm.go:926-960 | NEWARRAY and NEWSTRUCT: pass on, copy, or make falses; structs stay acyclic |
| ObjectOps.NewMap | pkg/vm/vm.go:1257-1258 | a new empty map; structs stay acyclic, the books exact |
| ObjectOps.ValuesArray | pkg/vm/vm.go:1277-1300 | VALUES: a new array of the slots, structs cloned |
| HeapWrites.WriteRanked | pkg/vm/vm.go:926-1108 | a write of fresh clones into any container, or a new container, keeps structs acyclic, whatever the counters say |
| ObjectRuns.EveryStateRanked | pkg/vm/vm.go:926-1300 | in every state of every run of NEWARRAY, NEWSTRUCT, NEWMAP, PACK, APPEND, SETITEM, REMOVE, VALUES and stack opcodes structs are acyclic, held or not |
| ObjectRuns.ExecuteOne | pkg/vm/vm.go:926-1300 | each of them goes through exactly if the snapshot of slots, map keys and stacks says so, and faults otherwise, where it could do nothing (`ObjectRuns.DoingGoes`); operands popped from the ring and results pushed, it does on rings and heap what it does on the snapshot, with every slot and every map key in its place and each struct stored as a new one that equals it; the counters stay exact if the container that it changes is reached |
| ObjectRuns.RunObjects | pkg/vm/vm.go:503-1300 | a run of them ends at its end, at the first opcode that cannot go through, at a size above 2048, or before the first opcode that would change a container that the stacks do not reach; the counters are exact behind every step |
| NumberNames.NamesOne | pkg/vm/vm.go:1036-1108 | every primitive names exactly one 64-bit number, that which agrees with it in the low 64 bits |
| NumberNames.SmallNames | pkg/vm/vm.go:1036-1108 | a 64-bit integer and its bytes name it, and so does the integer one word higher |
| NumberNames.ShortStrings | pkg/vm/emit/bigint.go:14-62 | strings of one and two bytes: the low byte first, the last one signed |
| SlotLaws.ListSet | pkg/vm/vm.go:1036-1054 | SETITEM on a list: just the slot that the key names has the item on top, or for a struct a new one that equals it |
| SlotLaws.ListSetGoes | pkg/vm/vm.go:1046-1050 | exactly if there is such a slot |
| SlotLaws.ListRemove | pkg/vm/vm.go:1075-1098 | REMOVE on a list: just the slot that the key names goes, the others keep their order |
| SlotLaws.ListRemoveGoes | pkg/vm/vm.go:1075-1098 | exactly if there is such a slot |
| SlotLaws.ListAppend | pkg/vm/vm.go:962-987 | APPEND: the item on top comes behind the last slot, up to 1024 |
| SlotLaws.MapSet | pkg/vm/vm.go:1055-1062 | SETITEM on a map: the bytes of the key have the item on top, all other keys their old value |
| SlotLaws.MapSetGoes | pkg/vm/vm.go:1055-1062 | exactly if the key is a primitive and is there already or one of at most 1024 |
| SlotLaws.MapRemove | pkg/vm/vm.go:1099-1105 | REMOVE on a map: the bytes of the key have no value any more, all other keys their old one |
| SlotLaws.FalsesMade | pkg/vm/vm.go:926-960 | NEWARRAY and NEWSTRUCT of a number: a new list of so many falses, others unchanged |
| SlotLaws.FalsesGo | pkg/vm/vm.go:926-960 | exactly from 0 to 1024 |
| SlotLaws.Packed | pkg/vm/vm.go:989-1000 | PACK: a new array of the items below the number, in order |
| SlotLaws.PackGoes | pkg/vm/vm.go:989-1000 | exactly if there are so many, and at most 1024 |
| FailingRuns.SelfReferenceRuns | pkg/vm/vm.go:503-1108 | PUSH0 NEWARRAY DUP DUP APPEND PUSH0 goes through from nothing with exact counts; the REMOVE that follows takes the only slot, both operands are popped, and uncounting the slot never ends |
| FailingRuns.PackedSelfReferenceRuns | pkg/vm/vm.go:503-1108 | the same for PUSH0 NEWARRAY DUP DUP APPEND PUSH1 PACK PUSH0, where REMOVE finds its container no longer live |
| FailingRuns.SizeBelowZeroRuns | pkg/vm/vm.go:503-1108 | PUSH1 NEWARRAY PUSH0 goes through from nothing with exact counts; the REMOVE that follows takes the only slot and leaves size -1 |
| TwosComplement.SignedEncode | pkg/vm/emit/bigint.go:83-120 | reading the encoding of an integer gives the integer |
| TwosComplement.EncodeIsShortest | pkg/vm/emit/bigint.go:83-120 | no shorter string has the same value |
| TwosComplement.CanonicalIsEncode | pkg/vm/emit/bigint.go:83-120 | a canonical string is the encoding of its value |
| TwosComplement.EncodeInjective | pkg/vm/emit/bigint.go:83-120 | different integers have different encodings |
| BigInt.GetEffectiveSize | pkg/vm/emit/bigint.go:66-80 | strips exactly the sign bytes |
| BigInt.BytesToInt | pkg/vm/emit/bigint.go:14-62 | the two's-complement value of any string, through stripping, words and inversion |
| BigInt.IntToBytes | pkg/vm/emit/bigint.go:83-120 | the canonical encoding of any integer |
| BigInt.WordsToBytes | pkg/vm/emit/bigint.go:122-137 | eight bytes a word, same value |
| BinIO.VarUintRoundTrip | pkg/io/binaryWriter.go:104-128 | a number of variable length is read back, whatever follows |
| WrittenForms.VarUintForm | pkg/io/binaryWriter.go:104-128 | one byte up to 252, three with 253 first up to 65534, five with 254 first up to 4294967294, nine with 255 first beyond; the bytes behind sum up to the number, lowest first |
| WrittenForms.NumberFormOnce | pkg/io/binaryWriter.go:104-128 | each number has one such form, and each form one number |
| BinIO.VarBytesRoundTrip | pkg/io/binaryReader.go:171-184 | a byte string is read back exactly if it is within the limit |
| BinIO.BinWriter.WriteVarUint | pkg/io/binaryWriter.go:104-128 | writes that format, with the strict bounds, and nothing after an error |
| BinIO.BinWriter.WriteVarBytes | pkg/io/binaryWriter.go:138-141 | length and bytes |
| BinIO.BinReader.ReadBytes | pkg/io/binaryReader.go:187-193 | all the bytes asked for, or an error that stays |
| BinIO.BinReader.ReadVarUint | pkg/io/binaryReader.go:149-167 | parses that format or fails |
| BinIO.BinReader.ReadVarBytes | pkg/io/binaryReader.go:171-184 | fails exactly if too short or over the limit |
| ItemBytes.TreeRoundTrip | pkg/vm/serialization.go:38-143 | a written tree followed by any bytes is read as itself, to its last byte |
| ItemBytes.EntriesRoundTrip | pkg/vm/serialization.go:123-137 | no pair of a map that was written overwrites another when read |
| WrittenForms.TreeSpelled | pkg/vm/serialization.go:38-81 | the bytes of an item spell it: type 0, 1, 2, 128, 129 or 130, length or number, contents in order, each value of a map behind its key |
| WrittenForms.RepeatedKey | pkg/vm/serialization.go:123-137 | a map read with a key twice has it once, with the later value |
| Serialization.SerializeItemTo | pkg/vm/serialization.go:38-81 | writes the bytes of the tree of an item, or fails exactly when the walk does; after an error nothing is written |
| Serializable.VisitCounts | pkg/vm/serialization.go:38-42 | a walk that gets through has met each container once |
| Serializable.VisitGetsThrough | pkg/vm/serialization.go:38-42 | if no container is met twice, the walk gets through |
| Serializable.SerializableExactly | pkg/vm/serialization.go:38-81 | it gets through if and only if no container below is met twice and no interop item is met |
| Deserialization.DecodeItem | pkg/vm/serialization.go:97-143 | on any bytes: fails exactly if the parse does, else builds an item of that tree from new containers |
| Deserialization.DecodeEntries | pkg/vm/serialization.go:123-137 | pairs are filed as they come, a repeated key keeps its place |
| StoredItems.SerializeItem | pkg/vm/serialization.go:22-31 | succeeds exactly for those items |
| StoredItems.DeserializeItem | pkg/vm/serialization.go:84-91 | the item of the parsed tree, or nothing |
| StoredItems.RoundTrip | pkg/vm/serialization.go:22-143 | serialized and read back, an item gives a new one with the same tree |
| StoredItems.SameTreeSameBytes | pkg/vm/serialization.go:22-81 | what was read back serializes again, to the same bytes |
| Contexts.Decode | pkg/vm/context.go:62-127 | the next instruction lies inside the script, and a fetch before the end moves on |
| Contexts.Context.Next | pkg/vm/context.go:62-127 | fetches the decoded instruction and leaves the pointers at it and behind it |
| Emit.EmitInt | pkg/vm/emit/emit.go:35-49 | emits the form of an integer, 16 as bytes |
| Emit.EmitBytes | pkg/vm/emit/emit.go:80-99 | emits the form of a byte string |
| Emit.EmitSyscall | pkg/vm/emit/emit.go:103-115 | refuses the empty name; the length byte is truncated |
| Emit.EmitJmp | pkg/vm/emit/emit.go:122-132 | refuses what is no jump |
| Emit.EmitAppCall | pkg/vm/emit/emit.go:136-142 | emits the hash behind the opcode |
| Emit.SoundIsReadable | pkg/vm/emit/emit.go:15-142 | exactly which emissions are well-formed instructions: parameter lengths right, names under 256 bytes, data at most 1 MiB |
| WrittenForms.EmittedInt | pkg/vm/emit/emit.go:35-49 | -1 to 15 are opcodes 79, 0 and 81 to 95; any other integer is pushed as the shortest bytes that mean it |
| WrittenForms.IntFormOnce | pkg/vm/emit/emit.go:35-49 | each integer has one such form, and each form one integer |
| WrittenForms.SixteenIsBytes | pkg/vm/emit/emit.go:35-49 | 16 is written as the bytes 1 and 16 |
| WrittenForms.EmittedData | pkg/vm/emit/emit.go:80-99 | the length is the opcode up to 75; beyond, one, two or four bytes behind 76, 77 or 78 hold it, lowest first |
| Emit.DisassembleEmitted | pkg/vm/context.go:62-127 | fetching over emitted instructions gives exactly their opcodes and parameters, then the end |
| Emit.EmitScript | pkg/vm/emit/emit.go:15-142 | a list is emitted unless a member is refused |
| Emit.FetchAll | pkg/vm/context.go:62-127 | repeated Next from 0 lists the instructions up to the implicit RET |
| Emit.EmittedIntIsPushed | pkg/vm/vm.go:544-562 | executing an emitted integer pushes an item that stands for it, for every 64-bit integer |
| Emit.EmittedBytesArePushed | pkg/vm/vm.go:544-562 | executing emitted bytes pushes them |
| Packing.Pack | pkg/vm/vm.go:989-1000 | PACK on the ring: an array of the top n items in order, or a fault exactly as specified |
| Packing.EmitArray | pkg/vm/emit/emit.go:52-72 | the arguments last one first, their number, PACK; an unsupported one is an error |
| Packing.ExecuteArray | pkg/vm/emit/emit.go:52-72 | executing that script leaves an array of the arguments in order, exactly if they are at most 1024 and they and their number fit under the size limit on top of what is counted already |
| MultisigScript.SortedOnce | pkg/crypto/keys/publickey.go:27-31 | all ways of sorting keys give the same list |
| MultisigScript.CreateMultiSigRedeemScript | pkg/smartcontract/contract.go:14-35 | fails exactly for bad counts, else sorts in place and writes count, keys, number, check; `RedeemKeys` reads them off the bytes |
| MultisigParse.ParseMultiSigContract | pkg/vm/contract_checks.go:40-86 | accepts exactly the verification scripts and returns their keys in order |
| MultisigParse.RedeemsExactly | pkg/vm/contract_checks.go:9-86 | an accepted script is, byte for byte, count, keys, number and check with nothing left over, and every such script is accepted |
| MultisigParse.RedeemsBounds | pkg/vm/contract_checks.go:9-86 | keys of 33 bytes, 1024 at most |
| MultisigParse.RedeemsOnce | pkg/vm/contract_checks.go:40-86 | the keys of a script are unique |
| MultisigParse.CreatedIsRecognised | pkg/smartcontract/contract.go:14-35 | a created script is recognised with exactly its keys if and only if there are at most 1024 |
| RedeemKeys.KeyCompressed | pkg/crypto/keys/publickey.go:100-133 | the first byte of a key is 2 or 3 by the parity of y, the other 32 are the digits of x to base 256, highest first |
| RedeemKeys.CompressedTells | pkg/crypto/keys/publickey.go:100-133 | the bytes tell x and the parity of y |
| RedeemKeys.CreatedScript | pkg/smartcontract/contract.go:14-35 | the created script is the count, for each of the given keys 33 and the bytes that stand for it, their number, and 174; the numbers that the keys stand for never fall |
| MultisigParse.IsSignatureContract | pkg/vm/contract_checks.go:90-105 | exactly 33 bytes pushed and CHECKSIG |
| MultisigParse.IsStandardContract | pkg/vm/contract_checks.go:109-111 | one or the other |
| MultisigRun.PopSigElements | pkg/vm/stack.go:429-461 | an array of byte arrays, or a number and that many items, else an error |
| MultisigRun.CheckMultisig | pkg/vm/vm.go:1236-1255 | goes through exactly with well-formed operands and a hash set, and leaves whether they match |
| MultisigRun.VerifyMultisig | pkg/vm/vm.go:1236-1255 | pushing m signatures and running the created script leaves whether they match the sorted keys in increasing order, exactly if m + n + 2 more slots fit under 2048 |
| Frames.StepSound | pkg/vm/vm.go:503-521 | every successful step keeps the VM's stacks those of the top frame, at most 1024 frames and all pointers inside the scripts |
| Frames.ReturnedSound | pkg/vm/vm.go:1185-1216 | returning keeps that invariant or halts with no frame |
| Jumps.JumpStep | pkg/vm/vm.go:1128-1135 | the step from a jump leads to the target of its two displacement bytes or behind the instruction, JMPIF to the target if the item on top is true, JMPIFNOT if it is false; there is one exactly if the target is not outside the script and a condition is there |
| Jumps.EmittedJump | pkg/vm/emit/emit.go:122-132 | an emitted jump is the opcode and the displacement, low byte first |
| CallSteps.CallStep | pkg/vm/vm.go:1137-1147 | CALL goes on in the same script at its target, with an empty alternative stack of its own, above the caller |
| CallSteps.AppCallStep | pkg/vm/vm.go:1160-1183 | APPCALL and TAILCALL start the script of the hash, from the stack if the script has zeros and may call so, above the caller or in its place |
| CallSteps.InnerStep | pkg/vm/vm.go:1345-1412 | CALLI goes on in the same script, two bytes further than a jump, with the arguments on new stacks |
| CallSteps.OuterStep | pkg/vm/vm.go:1345-1412 | CALLE, CALLED, CALLET and CALLEDT start the script of the hash with the arguments on new stacks, above the caller or in its place if that owes as many results |
| CallSteps.NoHash | pkg/vm/vm.go:1367-1383 | without a hash, in the script or on the stack, there is no such step |
| CallSteps.ParameterLengths | pkg/vm/context.go:100-127 | parameters as they are fetched: two bytes for a jump, 20 for a hash, two counts before either |
| SharedCalls.SharedReturn | pkg/vm/vm.go:1208-1216 | RET of a frame on the caller's evaluation stack always goes through, puts its alternative stack on top of the caller's in order, changes nothing else and loses no item |
| SharedCalls.StepBeside | pkg/vm/vm.go:1137-1216 | a step of such a callee, or of what it calls, leaves all stacks of the caller but the evaluation stack, or comes back so |
| SharedCalls.SharedRunHandsBack | pkg/vm/vm.go:1137-1216 | over a whole run from CALL or APPCALL to the return: the caller finds the evaluation stack as the callee left it and the callee's alternative stack on top of its own; its frame and all other stacks are as they were |
| SharedCalls.RunKeepsTwoStacks | pkg/vm/vm.go:1137-1412 | in no state of a run has a frame the same stack for both, if none had at the start |
| Isolation.EntryStep | pkg/vm/vm.go:1345-1412 | entering moves the arguments in order, takes the hash, leaves all other stacks |
| Isolation.StepAbove | pkg/vm/vm.go:1185-1216 | a step above the base, which may change any container, keeps the stacks below out of reach or hands over exactly the results that are owed |
| Isolation.IsolatedRunKeepsCaller | pkg/vm/vm.go:1345-1412 | over a whole run: the caller's stack is its old one less arguments and hash plus exactly r results in order, or the whole stack of a frame that a TAILCALL put in place; its frame and all lower stacks are as they were |
| Machine.PriceOfSuccess | cli/main.go:1593-1638 | what goes through, is not free, and is not a check of so many keys that its price could overflow gas within the limit, has a positive price that does not overflow |
| Machine.PriceExactly | cli/main.go:1613-1634 | the price of a check of n keys is n times that of one if and only if n is at most 922337203685 |
| Machine.PriceCanBeNegative | cli/main.go:1613-1634 | one more and it is negative |
| Machine.NeverDear | pkg/vm/vm.go:503-521 | while the books are exact and the size is within its limit no check goes through whose price could overflow gas within a limit that leaves room for one more price |
| PriceLaws.PriceTable | cli/main.go:1593-1638 | nothing up to opcode 0x61, 10, 20 or 100 units for calls, hashes and signatures, one for the rest |
| PriceLaws.CheckPrice | cli/main.go:1613-1634 | 100 units a key, one if there is no sensible number |
| Machine.TakenEnds | pkg/vm/stack.go:329-343 | with exact books taking any item off any stack ends and leaves exact books |
| Machine.ChangeBooked | pkg/vm/vm.go:962-1108 | changing a slot keeps the books if the container is held; if it never ends, it was not held and the heap has a cycle |
| Machine.VM.MoveTop | pkg/vm/vm.go:1199-1205 | moving items one by one, each uncounted and counted again, keeps their order; with exact books it always ends |
| Machine.VM.ExecuteJump | pkg/vm/vm.go:1128-1135 | JMP, JMPIF, JMPIFNOT as specified (`Jumps.JumpStep`) |
| Machine.VM.ExecuteCall | pkg/vm/vm.go:1137-1147 | CALL as specified (`CallSteps.CallStep`) |
| Machine.VM.ExecuteAppCall | pkg/vm/vm.go:1160-1183 | APPCALL and TAILCALL as specified (`CallSteps.AppCallStep`) |
| Machine.VM.ExecuteIsolated | pkg/vm/vm.go:1345-1412 | the isolated calls as specified (`CallSteps.InnerStep`, `CallSteps.OuterStep`) |
| Machine.VM.ExecuteRet | pkg/vm/vm.go:1185-1216 | RET as specified (`SharedCalls.SharedReturn`, `Isolation.StepAbove`) |
| Machine.VM.ExecuteEdit | pkg/vm/vm.go:962-1108 | APPEND, SETITEM and REMOVE take their operands and change just the slot that they name, a struct stored as a new one; they fault only if operands are missing, the key or the container is of the wrong kind, the index is out of range or there is no room; walks are on the real counters, and the books fail only if the remaining slots did not reach the container |
| EditSlots.SetItemEdits | pkg/vm/vm.go:1036-1054 | just the slot of the list that the key names is changed, operands go, other containers stay |
| EditSlots.RemoveEdits | pkg/vm/vm.go:1075-1098 | just that slot goes |
| EditSlots.AppendEdits | pkg/vm/vm.go:962-987 | the item comes behind the last slot |
| EditSlots.ListEditFaults | pkg/vm/vm.go:962-1099 | on a list they fault exactly for want of room or for a key that names no slot |
| Machine.VM.Step | pkg/vm/vm.go:362-370 | a step that does not fail keeps gas within the limit and the counted size at most 2048, and costs gas, ends a frame or uses bytes of the script; one that faults had nothing to fetch, could not go through, or is above a limit; a walk never ends only after a container was changed that was not reached, and on a heap with a cycle |
| Machine.VM.Run | pkg/vm/vm.go:323-359 | under a positive gas limit that leaves room for one more price every run halts or faults, if in each of its states the container that the next opcode changes is reached from the slots that remain; otherwise it may also come to a removal walk that never ends, but only where the heap has a cycle, or to a check whose price could overflow the gas; the gas consumed is the sum of what the executed instructions cost |
| Merkle.PairUp | pkg/crypto/hash/merkle_tree.go:47-62 | a level holds the hashes of neighbours, the last one paired with itself if it is alone |
| Merkle.HeightIsLog | pkg/crypto/hash/merkle_tree.go:39-64 | the number of levels is the logarithm of the number of leaves, rounded up |
| Merkle.RootTellsLists | pkg/crypto/hash/merkle_tree.go:39-64 | with an injective pair hash, lists of equal length with equal roots are equal |
| Merkle.SameRootExactly | pkg/crypto/hash/merkle_tree.go:39-64 | with an injective pair hash two lists have equal roots if and only if the lower tree and the level of the higher one at its height have the same leaves when filled up |
| Merkle.LastMayBeRepeated | pkg/crypto/hash/merkle_tree.go:52-57 | repeating a last lone hash does not change the root |
| MerkleLaws.LeafProof | pkg/crypto/hash/merkle_tree.go:39-64 | for every leaf the hashes beside its way up, one a level, lead to the root |
| MerkleLaws.ProofIsSound | pkg/crypto/hash/merkle_tree.go:39-64 | with an injective pair hash hashes that lead to the root start from the leaf that is there |
| Merkle.BuildMerkleTree | pkg/crypto/hash/merkle_tree.go:39-64 | the root hash is the recursive one; every level is linked to the next by parents and children |
| Merkle.LinksLeadToRoot | pkg/crypto/hash/merkle_tree.go:47-59 | parent links lead from every node to the root, one step a level |
| Merkle.NewMerkleTree | pkg/crypto/hash/merkle_tree.go:16-32 | a tree for every list but the empty one, each leaf Height(n) links below the root |

## Left out

- ObjectOps.SetItem: where the walk never ends there is no result to state; `Edits.EditEndsExactly` says when that is, for any container and any counts.
- ObjectOps.Remove: the same.
- ObjectRuns.RunObjects: the search for the container that the next opcode changes is the model's own, the program goes on without it. Runs are recursive methods where the program has a loop, here and in `StackRuns`.
- Machine.VM.ExecuteEdit: which key of a map stands in which slot, and what a clone of a struct has in its slots, is not in the heap of this machine, so a map may give any slot for a key; `ObjectRuns.ExecuteOne` has the keys, `StructClone.Clone` the slots.
- Machine.VM.Step: opcodes that only work on data, other than APPEND, SETITEM and REMOVE, may fault at any time, take, put, reorder and overwrite items on the two current stacks and make and rearrange containers in any way; their own results are proved elsewhere or not at all. SYSCALL always faults, as without registered hooks.
- Machine.VM.Run: stops where the program would recurse for ever, or where a check went through whose price could overflow the gas; what the program does after that is not modelled.
- Frames.StepSound: stacks are sequences with numbers for names; that the rings refine sequences is `RingStack`. Script hashes of contexts are not modelled.
- Deserialization.DecodeItem: the panics of the decoder (a negative array size, a key that is no primitive) are errors here, and memory never runs out.
- MultisigPar.CheckMultisigPar: keys always decode and signatures have the right length; the cache of decoded keys is not modelled.
- MultisigScript.CreateMultiSigRedeemScript: the sorting algorithm is replaced by its result, and the point at infinity is no key.
- MultisigRun.VerifyMultisig: the script and the signatures run one after the other on the same stack; gas is not charged there.
- RingStack.Stack.Push: stacks share their counters but `Clear` is not modelled, which does not release counts.
- Merkle.NewMerkleTree: hashes are byte strings of any length; double SHA-256 is a parameter.
- UNPACK, PICKITEM, KEYS, HASKEY, ARRAYSIZE, REVERSE, arithmetic and bit opcodes, CAT, SUBSTR, LEFT, RIGHT and SIZE: no state of their own that the model would say more about.
- Primitive items are immutable values: the sharing of big integers and byte slices in place (INVERT, NEGATE, ABS, CAT) is not captured.
- The debugger, breakpoints, JSON and YAML, reflection-based reading and writing of arrays, reuse of a VM by `Load`.
- The syscall table and its prices, HTTP and storage in cli/main.go.
- Hashes, elliptic curves, addresses, wallets, and the flat record codecs of blocks and transactions.
