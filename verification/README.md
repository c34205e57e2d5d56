# A model of the bundled FUSE library

This project models the concurrent and memory-managing core of the FUSE 3 library in `lib/` and
proves what that code relies on. `dafny verify dfyconfig.toml` checks all of it.

Two shapes recur. Where threads interleave, a component is a step system: one step for each critical
section, an invariant that every step keeps, and theorems about every state of every run. Where code
changes a structure in place, a class holds the fields and each method is tied to a function or map
that says what the structure stands for. Path locks, interrupts and the worker pool have both, and the
class methods refine the steps.

| file | component |
|---|---|
| `tree.dfy` | parent pointers, climbing, acyclicity |
| `lock_counts.dfy`, `path_locks.dfy` | the `treelock` counter; locking paths and changing the tree under locks |
| `lock_queue.dfy`, `requests.dfy`, `runs.dfy` | the queue of waiting requests; the step system of all requests; its theorems |
| `fuse_cache.dfy`, `path_buffer.dfy` | the loops that lock, unlock, wake and name paths; the buffer a path is built in |
| `node_refs.dfy`, `deletion.dfy` | reference counts, deletion up the tree, node ids; why the operations on counts are runs of the step system |
| `node_tables.dfy`, `node_slabs.dfy` | incremental linear hashing; the slab allocator |
| `range_locks.dfy` | advisory byte-range locks, as in fcntl() of IEEE Std 1003.1-2008, System Interfaces volume, section 3 |
| `interrupts.dfy` | request and interrupt lists of the low-level library |
| `worker_pool.dfy` | the worker threads of the multi-threaded loop |
| `buffer_copy.dfy` | copying between buffer vectors |
| `option_lists.dfy`, `option_parse.dfy` | option lists and argument parsing |
| `readdir_pages.dfy` | directory pages |
| `lists.dfy`, `arithmetic.dfy`, `wrappers.dfy` | shared helpers |

## What is assumed

- About the kernel (`Requests.Kernel`, `Requests.CanBegin`): directories and write targets that a waiting request names
  stay referenced, and fewer than 2^30 requests are in flight. `get_node` aborts otherwise (lib/fuse.c:548-557).
- About a lookup of ".." (lib/fuse.c:2587-2594): the kernel does not forget the node it names (`Requests.CanForget`), and
  the parent is still cached when its path is tried. From then on the model shows that the locked parent stays, although
  the kernel may not know it; between 2590 and 2594, and while the lookup waits, nothing in the code keeps it.
- About a request that changes the tree (`Requests.Binds`): the names it changes are bound to what it write-locked, or
  unbound. The kernel's directory locks see to that between lib/fuse.c:1004 and the second lookup at lib/fuse.c:1382
  and lib/fuse.c:1396-1397.
- `remember` is 0. The kernel forgets only nodes it has looked up; a forget of zero lookups of a node that has none
  would lower a count wrongly (lib/fuse.c:1358-1361, `NodeRefs.ForgetOwesIff`).

That a finished request leaves the queue before the next pass over it is not assumed.
`queue_element_wakeup` does not look at `done`, but a request that failed with -ENOENT fails again, because nothing
that is cut off from the root is ever linked to it again and nothing below it is locked (`Runs.RunFailsForGood`).
That the two names of an exchange differ is not assumed either: the locks see to it (`Deletion.MayExchange`), and
without them a count would be wrong (`NodeRefs.SelfExchangeMiscounts`).

## Where the code and its comments differ

- The comment at lib/fuse_opt.c:387 says that a last "--" is removed. The position it is compared with is taken before
  "-o" and its list are inserted, so it stays whenever there is such a list, as in `prog -o a --`
  (`OptionParse.LastSeparatorIff`, `OptionParse.SeparatorIsKept`).
- Empty options at the start of an option list are lost when it is built (`OptionLists.RoundTripIff`).
- A pending INTERRUPT may outlive any number of arriving requests, as long as each of them is one that another pending
  INTERRUPT asks for (`Interrupts.MatchedArrivalMovesNobody`); only the others move it up (`Interrupts.RunAnswersPending`).
- When `fuse_buf_copy` has copied all of its source, and the source's last buffer was not empty, the destination's
  cursor stays where the last step began. The step has at most the length of that last buffer; if it is shorter, it
  began at the start of a destination buffer (`BufferCopy.BufCopy`, `BufferCopy.OneByteStaysBehind`).

## Model

| member | source | states |
|---|---|---|
| `Runs.StepKeeps` | lib/fuse.c:954-1453 | every critical section of the inode cache keeps the whole invariant, and every path that is locked before and after it keeps its chain, node for node and name for name |
| `Runs.RunKeepsInv` | lib/fuse.c:954-1453 | the invariant holds in every state that any interleaving of any number of requests can reach |
| `Runs.RunKeepsPath` | lib/fuse.c:954-973 | path stability: from the moment a path is locked until it is unlocked its chain has the same nodes, parents and names, so unlock_path walks exactly what was locked |
| `Runs.RunAccounts` | lib/fuse.c:189-190 | lock accounting: in every reachable state treelock is -1 iff one request writes and nobody reads, and otherwise the number of read holds, plus INT_MIN only if there is a reader; the count stays below INT_MAX |
| `Runs.RunKeepsTree` | lib/fuse.c:1002-1034 | in every reachable state the tree is acyclic, every locked path reaches the root, and no write-locked node lies on a locked chain, of its own request or another |
| `Runs.RunAssertions` | lib/fuse.c:954-973 | no assertion of unlock_path, nor the treelock assertion of delete_node, can fail in a reachable state |
| `Runs.RunKeepsDiscipline` | lib/fuse.c:1057-1189 | queue discipline: waiting requests other than the head hold nothing, finished ones hold all their paths or none, running ones hold all, nobody else holds anything |
| `Runs.RunFailsForGood` | lib/fuse.c:1018-1024 | in every reachable state try_get_path answers -ENOENT iff the directory does not reach the root, whoever holds what; a path that failed so fails again, so a finished request that is woken once more takes no lock |
| `Runs.RunLosesNoWakeup` | lib/fuse.c:1129-1328 | whenever paths were given back, every request in the queue, at every place, has its paths, or another request holds its write target or a node of its chain that takes no more readers, or its own two paths keep each other from being locked |
| `Runs.RunWaitsForHolders` | lib/fuse.c:1169-1328 | in every reachable state, while a request waits for one path some other request holds something, and that one is running, has its paths, or is the head of the queue with one of two paths |
| `Runs.RunWriterComesNext` | lib/fuse.c:1002-1034 | writers are not starved: a request that comes to write a node held by another one is put at the end of the queue, and until that one gives the node back nobody gets it who did not have it when the writer came |
| `Runs.RunLetsNoneJoin` | lib/fuse.c:1005-1034 | while a holder of a node that is written, or read with a writer waiting, goes on holding it, the node gets no new holder, its mark stays, and every try through the node or at it is told to wait |
| `Runs.ReadersOnlyLeave` | lib/fuse.c:1005-1034 | one step of that: the readers of such a node after a step are some of those before it and the mark stays, unless all who held it have left |
| `Runs.RunPassMarks` | lib/fuse.c:1086-1135 | a pass over the queue marks the write targets of every request that still waits, as far as others hold them throughout |
| `Runs.RunServesInTurn` | lib/fuse.c:1073-1135 | first come, first served: after a pass an unfinished request waits for somebody who held something before the pass or stands before it in the queue, or its two paths clash; the head holds each of its paths or finds somebody in its way |
| `Runs.RunKeepsTurn` | lib/fuse.c:1057-1189 | no request in the queue overtakes another, whatever steps are taken |
| `Runs.WriteTargetStable` | lib/fuse.c:1388-1453 | only the request that has write-locked a node gives it another parent or name, or removes it |
| `Runs.DeleteIsSafe` | lib/fuse.c:828-840 | a node without references is not locked |
| `Runs.StepStaysUnrooted` | lib/fuse.c:1377-1453 | no step links what is cut off from the root to it again |
| `Requests.RenameStepKeeps` | lib/fuse.c:1388-1422 | a rename with both paths locked leaves the tree acyclic and all held chains alone; the moved node climbs to the root, a replaced one loses its name, no other node moves |
| `Requests.ExchangeStepKeeps` | lib/fuse.c:1424-1453 | likewise for an exchange: both nodes end up in each other's place and under the root |
| `Requests.HideStepKeeps` | lib/fuse.c:1388-1422 | hiding a file renames it within its directory and keeps all held chains |
| `Requests.BeginKeeps` | lib/fuse.c:1191-1298 | a request that tries its paths, a lookup of ".." included, gets all of them, or is queued or refused holding none |
| `Runs.JobLeavesKnown` | lib/fuse.c:1377-1453 | what a request moves or removes leaves a directory that the kernel knows, so the parent that a ".." lookup has locked stays referenced when its child goes |
| `Runs.KnownAfterForget` | lib/fuse.c:1330-1375 | a directory in which a running request changes names cannot be forgotten for good |
| `Requests.LeaveKeeps` | lib/fuse.c:1169-1189 | a finished request leaves the queue with exactly the paths it was given |
| `Requests.FinishKeeps` | lib/fuse.c:1300-1328 | unlocking and the wake pass keep the invariant and the tree |
| `LockQueue.WakeFromSound` | lib/fuse.c:1129-1135 | a pass over the queue keeps all counters accounted for and every queued request disciplined; requests outside the queue keep what they hold |
| `LockQueue.WakeSound` | lib/fuse.c:1073-1127 | waking one element, finished or not, head or not, leaves it disciplined and touches nobody else's holds |
| `LockQueue.WaitsForHolder` | lib/fuse.c:1002-1034 | try_get_path answers -EAGAIN only if somebody holds the write target, or a node of the chain that is written or has a writer waiting |
| `LockQueue.TryAgainIff` | lib/fuse.c:1002-1034 | -EAGAIN is the answer exactly when somebody is in the way of the path |
| `LockQueue.TryFirstMarks` | lib/fuse.c:1246-1265 | a request that finds what it is to write held by another one is told to wait, leaves the node marked and adds no holder, also when its first path was locked and given back |
| `LockQueue.WakeMarks` | lib/fuse.c:1086-1101 | a wakeup that does not succeed leaves what the request is to write, and another one holds, marked, at the head of the queue and behind it |
| `LockQueue.HeadTakesBoth` | lib/fuse.c:1086-1116 | the head of the queue keeps each of its two paths that can be locked |
| `LockQueue.ServedInTurn` | lib/fuse.c:1129-1135 | a pass gives no request what one before it in the queue waits for |
| `LockQueue.TryFirstWaits` | lib/fuse.c:1191-1298 | a request is put in the queue only if another one is in its way, or its own two paths clash |
| `LockQueue.AllWaitFrom` | lib/fuse.c:1129-1135 | what a pass over the queue has passed is finished or waits for a request that is in its way |
| `LockQueue.StillInTheWay` | lib/fuse.c:1073-1135 | while the pass goes on, who is in the way stays there: nothing is given back, and a node that takes no more readers still takes none |
| `LockQueue.TryMeaning` | lib/fuse.c:1018-1024 | try_get_path answers -ENOENT iff the climb ends elsewhere than at the root |
| `LockQueue.TryFirstSound` | lib/fuse.c:1246-1265 | trying one or two paths takes all or nothing |
| `LockQueue.UnrootedFails` | lib/fuse.c:1002-1034 | below a node that lost its name no counter is set, so the lookup of a path there fails with -ENOENT and never with -EAGAIN |
| `PathLocks.TryKeepsInv` | lib/fuse.c:975-1055 | a failed try restores every counter except for a waiting mark on its write target; a successful one is accounted for |
| `PathLocks.BusyTargetIsMarked` | lib/fuse.c:1005-1011 | a write target that is locked gives -EAGAIN, and INT_MIN is added to its counter if and only if it was read; the node is then taken, and nothing else has changed |
| `PathLocks.TakenKeepsOut` | lib/fuse.c:1006-1030 | no path through a taken node, or to it for writing, can be locked |
| `PathLocks.TryLocks` | lib/fuse.c:1012-1034 | what a successful try has locked: the target from 0 to -1, each node of the climb from some n >= 0 to n + 1, nothing else |
| `PathLocks.DropUndoesTry` | lib/fuse.c:954-1055 | locking a path and unlocking it gives back the cache exactly |
| `PathLocks.UnlockIsSafe` | lib/fuse.c:954-973 | the assertions of unlock_path hold of every hold at any time |
| `PathLocks.WrittenIsOnNoChain` | lib/fuse.c:1002-1034 | a write-locked node is on no read-locked chain, whichever was locked first, and has one writer |
| `PathLocks.RenameKeeps` | lib/fuse.c:1388-1422 | what a rename does to tree and names when its nodes are write-locked |
| `PathLocks.ExchangeKeeps` | lib/fuse.c:1424-1453 | what an exchange does to tree and names |
| `PathLocks.RemoveKeeps` | lib/fuse.c:1377-1386 | what a removal does to tree and names |
| `PathLocks.AddNodeKeeps` | lib/fuse.c:882-919 | a new node starts unlocked and disturbs no held chain |
| `PathLocks.DeleteNodeKeeps` | lib/fuse.c:828-840 | an unlocked node without children can go |
| `PathLocks.AddedIsFound` | lib/fuse.c:882-919 | the new node is found under its name and unlocked; all other names are as before |
| `PathLocks.DeletedIsGone` | lib/fuse.c:828-840 | a deleted node is found under no name; all other names are as before |
| `LockCounts.CounterMeaning` | lib/fuse.c:189-190 | the one signed counter tells free, read n times, written, and read n times with a writer waiting apart |
| `LockCounts.TakeKeepsAccount` | lib/fuse.c:1002-1034 | counting up one chain and one write target accounts for the new hold |
| `LockCounts.GiveBackKeepsAccount` | lib/fuse.c:954-973 | counting down accounts for the hold that is gone, and clears a waiting mark with the last reader |
| `LockCounts.GiveBackUndoesTake` | lib/fuse.c:954-1034 | counting up and down again is the identity |
| `Tree.AttachAcyclicIff` | lib/fuse.c:802-826 | linking a nameless node under a directory keeps the tree acyclic iff the climb from the directory does not end at that node |
| `FuseCache.Fuse.UnlockPath` | lib/fuse.c:954-973 | the loop lowers the first nodes of the chain and the write target, given the function's own assertions |
| `FuseCache.Fuse.LockChain` | lib/fuse.c:1018-1050 | the loop locks the whole chain and builds the text, or restores every counter |
| `FuseCache.Fuse.TryGetPath` | lib/fuse.c:975-1055 | a locked target has INT_MIN added if it was read and gives -EAGAIN; success sets it to -1 and counts up each node of the climb; any other failure changes nothing. It refines the function the invariants are proved about, and the text is the path from the root |
| `FuseCache.Fuse.QueueElementWakeup` | lib/fuse.c:1073-1127 | refines one wakeup |
| `FuseCache.Fuse.WakeUpQueued` | lib/fuse.c:1129-1135 | the loop over the queue refines the pass |
| `FuseCache.Fuse.GetPaths` | lib/fuse.c:1191-1298 | returns the paths, an error, or leaves the request at the end of the queue |
| `FuseCache.Fuse.FreePath` | lib/fuse.c:1300-1328 | unlocks all paths of a request and wakes the queue |
| `FuseCache.Fuse.RenameTheNode` | lib/fuse.c:1388-1422 | refines the rename of links and names: the node has the new name and no longer the old one, and -EBUSY changes nothing |
| `FuseCache.Fuse.ExchangeTheNodes` | lib/fuse.c:1424-1453 | refines the exchange: each name is bound to what the other one was |
| `FuseCache.Fuse.PathName` | lib/fuse.c:975-1055 | with need_lock unset: the walk fills the buffer that add_name grows and yields the path from the root, or -ENOENT iff the climb ends elsewhere |
| `PathBuffer.PathBuf.AddName` | lib/fuse.c:921-952 | puts "/" and a name in front of the text, whether or not the buffer had to be replaced |
| `FuseCache.PathSplits` | lib/fuse.c:975-1055 | the text of a path falls, at its slashes, into the names on the climb, from the root down |
| `RangeLocks.Node.LocksInsert` | lib/fuse.c:3855-3927 | map overwrite: the owner has the new type on exactly the given bytes, all other bytes and owners are unchanged, compatible owners stay so iff it was an unlock or conflicted with nobody, entries stay sorted, disjoint, maximally merged and within 0..OFFSET_MAX, entries of other owners keep their place and everything else, the owner's carry the process id of the request or of an earlier entry of his, and the nodes allocated in advance suffice |
| `RangeLocks.Node.LocksConflict` | lib/fuse.c:3829-3840 | the first entry that conflicts, and none iff no byte of the request is held incompatibly by another owner |
| `RangeLocks.InsertCompatibleIff` | lib/fuse.c:3829-3927 | mutual exclusion: owners that are compatible on every byte stay so iff an unlock is inserted, or a lock that conflicts with nobody |
| `RangeLocks.FreeIff` | lib/fuse.c:3829-3840 | overlap of entries and clash of bytes are the same thing |
| `NodeTables.NodeTable.Lookup` | lib/fuse.c:536-546 | returns exactly the live node with that key, whatever splits, merges and resizes happened |
| `NodeTables.NodeTable.Insert` | lib/fuse.c:689-698 | adds one node to the map the table stands for, also when the table cannot grow; one slot is split iff it then holds at least size/2 nodes and not all slots are split; and there are never more nodes than slots in use, unless a failed allocation has stopped the growth |
| `NodeTables.NodeTable.Remove` | lib/fuse.c:628-641 | takes one node out, and says whether it was there; slots are merged iff fewer than size/4 nodes are left, and there are still no more nodes than slots in use |
| `NodeTables.NodeTable.Rehash` | lib/fuse.c:660-687 | splits one slot and leaves the map alone; size and split point afterwards |
| `NodeTables.NodeTable.Remerge` | lib/fuse.c:602-626 | merges one to eight slots back, in the halved table if nothing is split, and leaves the map alone; all merged upper slots were empty but possibly the last, and it stops early only for that one |
| `NodeTables.NodeTable.Resize` | lib/fuse.c:643-658 | doubling moves nothing; a failed allocation changes nothing |
| `NodeTables.NodeTable.Reduce` | lib/fuse.c:586-600 | halving moves nothing, whether or not the array shrinks |
| `NodeTables.NodeTable.constructor` | lib/fuse.c:4599-4612 | an empty table stands for the empty map |
| `NodeTables.Tables.AddNode` | lib/fuse.c:882-919 | the id table and the name table, each with its own hash, both know the new node and lose nothing |
| `NodeTables.Tables.DeleteNode` | lib/fuse.c:828-840 | both tables forget the node and nothing else; a node that has lost its name is forgotten by the id table |
| `NodeTables.UpperSlotsEmpty` | lib/fuse.c:525-534 | slots from size/2 + split upward are empty |
| `NodeTables.BucketMoves` | lib/fuse.c:525-534 | moving the split point by one only concerns the slot it passes |
| `NodeTables.BucketAtResize` | lib/fuse.c:525-534 | after the last split the doubled table asks for the same slots |
| `NodeTables.SplitMoves` | lib/fuse.c:660-687 | an entry relinked to the upper slot is found there, and nothing is lost |
| `NodeTables.ComputeNameHash` | lib/fuse.c:700-715 | the loop computes the 64-bit polynomial hash and its slot |
| `NodeTables.NameHashIs` | lib/fuse.c:700-715 | the hash is the value of the name to the base 31 behind the parent id, wrapped around once |
| `NodeTables.IdHashDistinct` | lib/fuse.c:525-534 | no two ids below 2^32 have the same full hash: the id can be computed back |
| `NodeRefs.InodeCache.UnrefNode` | lib/fuse.c:842-848 | one reference less; the node is freed iff that was the last, then ancestors kept only for it, each once and at count zero; the recursion ends |
| `NodeRefs.InodeCache.DeleteNode` | lib/fuse.c:828-840 | frees the node and the ancestors kept only for it |
| `NodeRefs.InodeCache.UnhashName` | lib/fuse.c:745-771 | removes a name and its reference to the parent; the "unable to unhash" abort cannot be reached |
| `NodeRefs.InodeCache.HashName` | lib/fuse.c:802-826 | adds a name and a reference to the parent |
| `NodeRefs.InodeCache.FindNode` | lib/fuse.c:882-919 | returns the node of that name with exactly one lookup more, all others unchanged, or a new node with an id that is live nowhere; the log of all (id, generation) pairs ever issued grows by exactly its pair and, as part of Valid(), holds none twice until the generation wraps |
| `NodeRefs.InodeCache.NextId` | lib/fuse.c:850-859 | ends when an id is free; the id is live nowhere, and its pair with the generation was never issued, until the generation wraps, and every id that was passed over is reserved or live |
| `NodeRefs.InodeCache.ForgetNode` | lib/fuse.c:1358-1366 | takes exactly count lookups of this node back; it goes iff these were the last, no child has a name and no "." lookup is in progress, and with it exactly what nothing refers to any more |
| `NodeRefs.ForgetOwesIff` | lib/fuse.c:1358-1361 | the reference given back with the last lookup is owed iff there was a lookup; forgetting none of none makes the count too low |
| `NodeRefs.InodeCache.TakeDot` | lib/fuse.c:2572-2585 | a lookup of "." takes a reference, or fails for an unknown node |
| `NodeRefs.InodeCache.DropDot` | lib/fuse.c:2610-2614 | gives it back, with all that follows |
| `NodeRefs.InodeCache.RemoveNode` | lib/fuse.c:1377-1386 | counts stay exact; between referenced directories it does to the tree what the path locks assume |
| `NodeRefs.InodeCache.RenameNode` | lib/fuse.c:1388-1422 | counts stay exact, nothing is freed, every node keeps its lookups, id and generation, and the tree changes as the path locks assume |
| `NodeRefs.InodeCache.ExchangeNode` | lib/fuse.c:1424-1453 | likewise |
| `NodeRefs.SelfExchangeMiscounts` | lib/fuse.c:1424-1453 | exchanging a bound name with itself would leave all links as they are and the directory with one reference too many |
| `NodeRefs.InodeCache.constructor` | lib/fuse.c:4757-4780 | the cache starts with the root, looked up once |
| `NodeRefs.NoGarbage` | lib/fuse.c:745-848 | the cache holds exactly the nodes referenced from outside and their ancestors |
| `NodeRefs.NoReferences` | lib/fuse.c:842-848 | a count is zero iff the kernel has no lookup, no child has a name and no "." lookup is in progress |
| `Deletion.ZeroCountIsUnlocked` | lib/fuse.c:828-848 | when a reference count has dropped to zero the node is not locked, so the assertion of delete_node holds |
| `Deletion.UnreferencedIff` | lib/fuse.c:828-848 | no references left is exactly the condition under which the step system deletes |
| `Deletion.InitSame` | lib/fuse.c:4757-4780 | the new cache is the same in the counted model and in the step system |
| `Deletion.TouchFollows` | lib/fuse.c:882-919 | find_node of a known node is one step of the system |
| `Deletion.CreateFollows` | lib/fuse.c:882-919 | find_node of a new name is one step |
| `Deletion.TakeDotFollows` | lib/fuse.c:2572-2585 | taking a reference for "." is one step |
| `Deletion.RemoveFollows` | lib/fuse.c:1377-1386 | remove_node with the path locked is one step |
| `Deletion.RenameFollows` | lib/fuse.c:1388-1422 | rename_node with both paths locked is one step |
| `Deletion.HideFollows` | lib/fuse.c:1388-1422 | hiding a file is one step |
| `Deletion.ExchangeFollows` | lib/fuse.c:1424-1453 | exchange_node with both paths locked is one step |
| `Deletion.MayRename` | lib/fuse.c:1388-1422 | what the counted rename relies on, referenced directories and a result that is a tree, follows from the locks |
| `Deletion.MayExchange` | lib/fuse.c:1424-1453 | likewise for an exchange, and also that its names differ if there is anything to exchange |
| `Deletion.PrunedFollows` | lib/fuse.c:828-848 | what the recursion of unref_node frees the step system can delete, one node after the other, each without references when its turn comes |
| `Deletion.ForgetFollows` | lib/fuse.c:1330-1375 | forget_node is one forget, and one deletion for every node it frees |
| `Deletion.DropDotFollows` | lib/fuse.c:2610-2614 | the end of a "." lookup is one step, and one deletion for every node it frees |
| `NodeSlabs.SlabAllocator.AllocNode` | lib/fuse.c:463-484 | hands out an address that no live node has, from the first slab with a free node; takes a page only if there is none, and fails only when that is refused |
| `NodeSlabs.SlabAllocator.AllocSlab` | lib/fuse.c:431-461 | a new slab has all its nodes free |
| `NodeSlabs.SlabAllocator.FreeNodeMem` | lib/fuse.c:496-511 | gives one node back; its slab goes iff it was the last node of it, and no other |
| `NodeSlabs.SlabAllocator.LiveNodesApart` | lib/fuse.c:426-461 | live nodes overlap neither each other nor a header |
| `NodeSlabs.SlabAllocator.CountsAddUp` | lib/fuse.c:463-511 | used counts the live nodes of a slab, used + free is the capacity, and the lists hold exactly the partial and the full slabs |
| `NodeSlabs.SlabAllocator.NothingLeft` | lib/fuse.c:4840-4841 | once every node was given back both lists are empty |
| `NodeSlabs.MaskFindsSlab` | lib/fuse.c:426-429 | masking the address of a node finds its own slab |
| `NodeSlabs.CapacityFits` | lib/fuse.c:431-461 | as many nodes as fit behind the header of a page, and one more would not |
| `Interrupts.StepKeeps` | lib/fuse_lowlevel.c:130-145 | every step of every thread keeps reference counts, list contents, lock ownership and fates right |
| `Interrupts.RunKeepsInv` | lib/fuse_lowlevel.c:1652-1731 | the same in every reachable state of every interleaving |
| `Interrupts.InterruptsNotLost` | lib/fuse_lowlevel.c:2343-2354 | whenever a request's lock is free, an interrupted request with a callback has had it called |
| `Interrupts.CallbackIsCurrent` | lib/fuse_lowlevel.c:1663-1674 | the callback about to be called is the registered one, exactly unless the request was answered meanwhile |
| `Interrupts.PendingMatchesNothing` | lib/fuse_lowlevel.c:1711-1731 | no pending interrupt asks for a listed request |
| `Interrupts.InterruptOutcome` | lib/fuse_lowlevel.c:1652-1709 | an INTERRUPT gets a reference to the first listed request it asks for; if there is none it is destroyed as a duplicate of a pending one, or becomes the last of the pending ones; nothing else changes |
| `Interrupts.ArriveOutcome` | lib/fuse_lowlevel.c:1711-1731 | an arriving request is listed last and unmarked, and the oldest pending interrupt is bounced; or it is marked, exactly if a pending interrupt asks for it, and that one is unlinked and destroyed |
| `Interrupts.PendingLeavesIff` | lib/fuse_lowlevel.c:1711-1731 | a pending interrupt leaves the list exactly if its request comes in, or it is the oldest and a request comes in that no pending interrupt asks for; else it keeps its place or moves up |
| `Interrupts.RunAnswersPending` | lib/fuse_lowlevel.c:1711-1731 | no interrupt stays pending for long: once more requests that no interrupt asked for have come in than stood before it on the list, it has marked its request or is bounced |
| `Interrupts.MatchedArrivalMovesNobody` | lib/fuse_lowlevel.c:1715-1723 | a run in which a request comes in and the oldest interrupt stays: requests that another pending interrupt asks for do not count |
| `Interrupts.RunMarksOnlyAsked` | lib/fuse_lowlevel.c:1652-1731 | no request is interrupted unless an INTERRUPT with its number has come in |
| `Interrupts.RunCallsOnlyInterrupted` | lib/fuse_lowlevel.c:1668-1674 | and no callback is called before |
| `Interrupts.FateMoves` | lib/fuse_lowlevel.c:1652-1731 | later it only marks its target, marks the awaited request, or is bounced with EAGAIN |
| `Interrupts.DestroyedOnce` | lib/fuse_lowlevel.c:130-145 | what was destroyed is on no list, in no thread's hands, and not destroyed again |
| `Interrupts.DestroyedWasThere` | lib/fuse_lowlevel.c:1675-1705 | only records in memory, and duplicates, are destroyed |
| `Interrupts.NothingLeaks` | lib/fuse_lowlevel.c:130-145 | when no interrupt is in work, memory holds exactly the listed requests and pending interrupts |
| `Interrupts.LockIsGivenBack` | lib/fuse_lowlevel.c:1663-1674 | a thread only waits for a request's lock while another thread can go on |
| `Interrupts.OnlyHolder` | lib/fuse_lowlevel.c:1663-1674 | a request's lock has one holder |
| `Interrupts.LowLevel.CheckInterrupt` | lib/fuse_lowlevel.c:1711-1731 | returns the oldest pending interrupt, unlinked, exactly if there is one and none asks for the request, which is then unmarked; else the first that asks is unlinked and destroyed, and the request marked |
| `Interrupts.LowLevel.FindInterrupted` | lib/fuse_lowlevel.c:1652-1709 | the two loops find the first listed request with the number, which gets a reference; without one the INTERRUPT is destroyed iff a pending one asks for the same, and else becomes the last of them |
| `Interrupts.LowLevel.FreeReq` | lib/fuse_lowlevel.c:130-145 | takes the request off the list and its callback away, gives one reference back, and says whether it was the last |
| `Interrupts.LowLevel.PutInterrupted` | lib/fuse_lowlevel.c:1675-1709 | gives the reference back, destroys the request iff it was the last one, and the INTERRUPT in any case |
| `BufferCopy.BufCopy` | lib/buffer.c:281-321 | ends; the number of bytes, or the error, is that of as many chunks as go through whole and of what the next one moves; the source's next bytes replace the destination's, as many as are returned, nothing else changes; min(remaining) bytes between memory; the source cursor moves by the result, and the destination's too iff not all of a source with a non-empty last buffer was copied; else it is behind by the last step, whose length is pinned down |
| `BufferCopy.OneByteStaysBehind` | lib/buffer.c:281-321 | one byte copied into a destination of two: the cursor stays at the start |
| `BufferCopy.CopyResult` | lib/buffer.c:227-255 | how many bytes a step moves, or its error, for each of the four combinations of memory and file, in terms of what the system calls return |
| `BufferCopy.FailsIff` | lib/buffer.c:304-309 | where the first step has something to move, the call fails exactly if that step does |
| `BufferCopy.CopyOne` | lib/buffer.c:227-255 | copying between two buffers is copying between the flat sequences |
| `BufferCopy.BufVec.Advance` | lib/buffer.c:265-279 | moves the cursor by len over a buffer's end; the assertions hold |
| `BufferCopy.BufVec.Size` | lib/buffer.c:22-35 | the total size |
| `BufferCopy.RetryLoop` | lib/buffer.c:42-108 | an error iff the first call failed; without retry the first result, with it the sum of the results up to the first that is zero or an error, and never more than asked for |
| `BufferCopy.MovedIff` | lib/buffer.c:42-108 | what the read and write loops return is determined by the results of the calls: the first alone, or a sum of leading positive ones that ends at a zero, an error, or the length |
| `BufferCopy.FdToFd` | lib/buffer.c:110-158 | copies 4096 bytes a round up to the first round that reads or writes less, then what that round moved; an error counts only if nothing was copied before |
| `BufferCopy.MovedThroughIff` | lib/buffer.c:110-158 | what the rounds return is determined likewise: k rounds of 4096 bytes that are read and written in full, and the first that is not |
| `BufferCopy.CopyCountIff` | lib/buffer.c:289-321 | what a copy returns is determined likewise: the buffers fall into chunks, k of them go through whole, and the next moves less |
| `BufferCopy.CopyCountOfOne` | lib/buffer.c:227-255 | between two single buffers it is what one call of fuse_buf_copy_one moves |
| `BufferCopy.ChunksFill` | lib/buffer.c:300-302 | the chunks make up the smaller of both totals |
| `BufferCopy.BufVec.LeftRemains` | lib/buffer.c:300-302 | what is left of the buffers, one by one, adds up to the bytes behind the cursor |
| `OptionLists.RoundTripIff` | lib/fuse_opt.c:114-331 | escaping, joining, splitting and unescaping gives the list back iff it has one option or its first is not empty |
| `OptionLists.EmptyFirstOptionIsLost` | lib/fuse_opt.c:120-127 | the list of an empty option and "a" comes back as "a" alone |
| `OptionLists.SplitJoined` | lib/fuse_opt.c:293-331 | what comes back in any case: the list without its leading empty options |
| `OptionLists.ReadEscaped` | lib/fuse_opt.c:114-136 | an escaped option is read back whatever follows it |
| `OptionLists.ProcessGroup` | lib/fuse_opt.c:293-331 | the loop that unescapes in place reads the original list: the write pointer never passes the read pointer |
| `OptionLists.AddOptCommon` | lib/fuse_opt.c:114-136 | appends with a comma and escapes; the allocated buffer is long enough |
| `OptionLists.OctalNulCutsOff` | lib/fuse_opt.c:309-316 | an octal escape for NUL cuts an option off |
| `OptionLists.OctalReadBack` | lib/fuse_opt.c:307-316 | a backslash and the three octal digits of any byte are read back as that byte |
| `OptionLists.BackslashReadBack` | lib/fuse_opt.c:307-325 | before anything else a backslash stands for the next byte, and at the end of the list for itself |
| `OptionLists.PlainReadBack` | lib/fuse_opt.c:297-327 | every other byte stands for itself, and a comma ends the option |
| `OptionLists.AddedUnescaped` | lib/fuse_opt.c:138-141 | what is added without escaping is read as a list of its own |
| `OptionLists.EscapeChangesIff` | lib/fuse_opt.c:129-133 | escaping changes exactly the options with a comma or a backslash |
| `OptionParse.ParseIsIdempotent` | lib/fuse_opt.c:347-422 | parsing the output of a successful parse yields the same arguments |
| `OptionParse.ParseCollects` | lib/fuse_opt.c:148-150 | the same about the parse as a function; without any -o only a first separator that comes last is taken away |
| `OptionParse.PartsOf` | lib/fuse_opt.c:347-368 | the lists and the other arguments of two command lines put together are those of the first and then those of the second |
| `OptionParse.LastSeparatorIff` | lib/fuse_opt.c:387-392 | a last "--" is removed iff no earlier argument is a -o or a "--", unlike the comment says |
| `OptionParse.SeparatorIsKept` | lib/fuse_opt.c:387-392 | the arguments prog, -o, a, -- come back unchanged |
| `OptionParse.RunAgain` | lib/fuse_opt.c:347-368 | kept arguments are kept again, whatever list is gathered |
| `OptionParse.Parser.OptParse` | lib/fuse_opt.c:370-395 | fails iff the last argument before any separator is a -o without its list; else returns the program, one -o with the options of all -o lists in order, but for empty ones at the start, and all other arguments in order |
| `OptionParse.Parser.ProcessOne` | lib/fuse_opt.c:347-368 | one argument, or a -o with its list |
| `OptionParse.InsertArg` | lib/fuse_opt.c:78-92 | shifts and inserts at the position |
| `ReaddirPages.ReadsAllIff` | lib/fuse.c:3544-3585 | going on from the last offset gives every entry once and in order, then an empty page, iff the page size fits the longest padded entry |
| `ReaddirPages.ReadsUpTo` | lib/fuse.c:3544-3585 | otherwise exactly the entries before the first that does not fit |
| `ReaddirPages.DecodePage` | lib/fuse.c:3562-3583 | a page decodes to consecutive entries from its offset, with the offsets behind them |
| `ReaddirPages.PageIsFull` | lib/fuse.c:3562-3583 | a page ends where the list does, or the next padded entry is longer than the room that is left |
| `ReaddirPages.DecodeEncoded` | lib/fuse_lowlevel.c:275-300 | the kernel reads back the entry that was packed |
| `ReaddirPages.AddDirentry` | lib/fuse_lowlevel.c:275-300 | packs an entry with padding, or changes nothing if it does not fit |
| `ReaddirPages.DirHandle.FillFromList` | lib/fuse.c:3544-3585 | fills the buffer with the page, 8-aligned and within the size |
| `ReaddirPages.DirHandle.ExtendContents` | lib/fuse.c:3302-3325 | the buffer holds at least minsize bytes and keeps its contents; it is replaced iff it was too small, by one of less than twice minsize, of 1024 bytes, or of the greatest size |
| `WorkerPool.RunCounts` | lib/fuse_loop_mt.c:71-144 | until the loop exits numworker is the list length, numavail the number of listed workers not busy with other than FORGET, and 0 <= numavail <= 10, in every reachable state |
| `WorkerPool.RunStaysAvailable` | lib/fuse_loop_mt.c:111-114 | as long as every worker that is needed can be started, some listed worker is not busy, in every reachable state before mt.exit |
| `WorkerPool.StepMovesWorkers` | lib/fuse_loop_mt.c:90-139 | before mt.exit a worker is added exactly when a request leaves none available and one can be started, and one goes exactly when its return makes more than ten available |
| `WorkerPool.StepKeeps` | lib/fuse_loop_mt.c:71-301 | every step keeps counters and records right |
| `WorkerPool.NobodyJoinsLate` | lib/fuse_loop_mt.c:288-293 | after mt.exit no worker is added, and only the joiner takes one off the list |
| `WorkerPool.FreedOnce` | lib/fuse_loop_mt.c:120-131 | a record is freed once, by its worker or by the joiner |
| `WorkerPool.JoinLoopEnds` | lib/fuse_loop_mt.c:286-293 | every step after mt.exit lowers a bound, so the join loop ends |
| `WorkerPool.JoinLoopProceeds` | lib/fuse_loop_mt.c:286-293 | while a worker is listed some step is possible |
| `WorkerPool.Mt.TakeRequest` | lib/fuse_loop_mt.c:90-116 | goes on unless mt.exit is set; counts the worker as busy unless it is a FORGET, and lists the new worker iff none is left and one can be started |
| `WorkerPool.Mt.ReturnWorker` | lib/fuse_loop_mt.c:120-139 | counts the worker as available again; it goes on iff that makes ten at most, and else takes itself off the list unless mt.exit is set |
| `WorkerPool.Mt.JoinAll` | lib/fuse_loop_mt.c:250-293 | whatever the other threads do meanwhile, every listed worker is joined and freed, none twice, and nobody stays listed |
| `WorkerPool.AllCanBeJoined` | lib/fuse_loop_mt.c:286-293 | from every state after mt.exit the threads can run so that every pthread_join returns |

## Left out

- Nodes, requests, workers and slabs are numbers in maps instead of pointers; links between structures are sequences
  and maps, so what is not captured is the relinking of single `next` and `prev` pointers.
- An empty name stands for a NULL name in the path locks.
- Deadlock freedom of requests with two paths, which the code marks as open (lib/fuse.c:1253).
- Memory exhaustion, except for growth and shrinking of the node tables, the nodes of `locks_insert`, the pages of the
  slab allocator and new worker threads; memory leaks of path strings.
- The `remember` mode, its LRU list and its timers.
- FuseCache.Fuse.LockChain: builds the text as a string, so that -ENOMEM half way up is not modelled; `FuseCache.Fuse.PathName` makes the same walk with the real buffer.
- FuseCache.Fuse.PathName: the text must fit 32 bits, the width of the buffer's size.
- RangeLocks.Node.LocksInsert: says of the process id of a merged entry only that it is the request's or that of an earlier entry of the owner.
- NodeTables.NodeTable.Insert: does not say where in a chain a node goes; lookups do not depend on it.
- NodeRefs.InodeCache.UnhashName: clears the node's name before it lowers the parent's count instead of after; both happen in one critical section and nothing in between reads the name.
- NodeRefs.InodeCache.FindNode: enters a new node in the id table before the name table instead of after, in one critical section.
- NodeSlabs.MaskFindsSlab: masking is taken as subtracting the remainder by the page size, which is what it is for a power of two.
- BufferCopy.BufCopy: what system calls on files return is an input, and a file is the range of bytes it holds; splice, pipes and sizes of SIZE_MAX are not modelled.
- BufferCopy.RetryLoop: once the given results are used up the file counts as at its end.
- Templates and callbacks of the option parser.
- ReaddirPages.ReadsAllIff: whole-directory mode without the extra attributes of readdirplus.
- WorkerPool.RunCounts: the semaphore and signals that wake the main thread are not modelled; it may go on at any time after the session has exited.
- Interrupts.InterruptsNotLost: that threads go on at all is assumed; what is proved is that a lock is always held by a thread that can.
- Interrupts.LowLevel.FreeReq: the channel reference that a request holds is not modelled.
- Mounting, signals, daemonizing, the INIT flags, stat and timeout conversion, CUSE, modules loaded at run time, and the application in `src/`.
