# Proofs about the QEMU core

This project models five parts of QEMU 7.1 in Dafny and proves properties of them for all inputs, all
graphs and all runs. `dafny verify dfyconfig.toml` checks everything; `wrappers.dfy` holds what the parts share.

**Exclusive sections** (`exclusive.dfy`, for `cpus-common.c`). Any number of vCPU threads, each with a
program counter; every atomic read or write, every lock operation and every wait is one step, and a run is
any interleaving. Proved over every run: mutual exclusion, the meaning of `pending_cpus`, no lost wake-up,
progress of a waiter, release of the lock, absence of deadlock (some thread that is neither outside nor
blocked can always step), and that everybody gets through: without new entries and spurious wake-ups every
schedule ends after a bounded number of steps, with every thread outside, and each has been in the section
or the execution it came for.

**The block-node graph** (`block_graph.dfy`, `graph_search.dfy`, `permissions.dfy`, `refresh.dfy`,
`alignment.dfy`, `transactions.dfy`, `references.dfy`, `block_layer.dfy`, `inactivation.dfy`,
`inactivation_order.dfy`, `aio_context.dfy`, for `block.c`). Nodes and edges are numbered; the `Layer`
object holds the maps from numbers to records, the `parents` and `children` lists and the reference counts,
and its methods change them in place the way the source does. Permission masks are sets. The class
invariants are `Indexed` (the lists agree exactly with the target and owner fields of the edges), `Acyclic`,
and `Balanced` (each count is the number of incoming edges plus references held by callers plus references
parked in pending transaction records). A transaction is the list of its actions; `Revert` is what undoing
all of them gives, and every operation that records an action is shown to leave `Revert` unchanged, so a
failed operation goes back to the very state it started from. The success of the four public graph changes
is characterised exactly: they succeed if and only if the change itself is allowed and the affected subtrees
admit a consistent assignment of permission masks that passes every check. Inactivation and the move to
another AioContext are proved against the graph as a whole: parents before children, and the whole connected
component or nothing.

**Jobs** (`jobs.dfy`, for `job.c` and `blockjob.c`). One `JobGroup` object is one transaction with its jobs;
a single job is a group of one. Between operations the invariant `Valid` holds: the state of each job, the
pause accounting, the reference counts, and the verdict on the group. `Open` means that no completion
callback has run. A closed group has committed and cleaned every job once (only if none had failed), or
aborted and cleaned every job once (only if one had failed or been cancelled by force), or is the result of
a failed preparation. `Live` is any sequence of operations on the group: nothing that has been closed is
ever reopened or called back again, and a failure is never forgotten. That every attempted transition is in
the table is the precondition of `Transition`, which every caller is shown to meet. The nested event loop
inside `job_finish_sync` is a list of events, arbitrary and of any length; if it ends before the awaited job
has completed, the operation reports that it is still waiting (`stuck`). When that happens is said exactly:
`Due` describes the events that a job which is being torn down still needs.

**GDB packets and vCont** (`gdb_packet.dfy`, `gdb_vcont.dfy`, for `gdbstub.c`). The byte automaton works on
its 4096-byte buffer and equals a function on values; a packet body is a list of plain, escaped and
run-length pieces with a meaning of its own, and the automaton is proved to compute that meaning. vCont is
read from the text of the packet up to its first NUL, numbers included, and its effect on each CPU is
compared with the leftmost item that covers it.

**Drive addresses** (`drives.dfy`, for `blockdev.c`). The table of drives, the search for a free address and
the mapping between index, bus and unit.

## Where the code is not what one would expect

- Loosening permissions is not safe for the size-alignment check: `LooseningCanMisalign` gives a graph, and
  `AlignmentSurvives` says exactly when the users of the graph can bring it about, with the refresh that
  follows taken into account: when one of them writes to an unaligned node directly or through filters, on
  no way through a data child, and nobody else asks for RESIZE there.
- `bdrv_inactivate_all` runs into its own assertion on some graphs: `ParallelEdgesAbort` gives one, and
  `SafeExactly` the exact condition under which no order of children and roots makes it fail.
- A payload of more than 4095 bytes is dropped without any reply (`RoundTrip`).
- When a preparation fails, the job that asked for the finalization is committed while all others are
  aborted, if and only if it is not itself the first in the list whose preparation fails (`DoFinalize`).
  `CommittedUnprepared` shows a job committed that could not be prepared. This follows the code, which
  leaves the initiating job uncancelled and stops preparing at the first failure.
- A group can be torn down if and only if all its other jobs have been started or have completed
  (`CanBeTornDown`): the wait for a job that was not started never ends.
- A job that fails before its start is not waited for any more, but the jobs that waited for it are not told:
  they are left hanging if and only if they had all completed (`EarlyFail`); `LeftHanging` gives such a group.
- `PendingCounts` has a third case, for the CPU that has cleared its flag and not yet decremented the count.
- A vCont packet with a process id and nothing after it makes the source read past its end (`ProcessAtEnd`),
  and one that addresses all threads of a process that does not exist makes it use a null pointer
  (`ProcessMissing`). The model gives both the status `Undefined`; `UndefinedExactly` shows that there are no
  others.
- A negative drive index whose remainder is -1 starts a search instead of naming a unit (`IndexMinusThree`);
  `PlacedByIndex` has the exact condition.

## Model

| member | source | states |
|---|---|---|
| `Exclusive.StepInv` | cpus-common.c:181-309 | every atomic step of every thread keeps the protocol invariant (who owns the section, what the count says, what each waiter may rely on) |
| `Exclusive.RunInv` | cpus-common.c:181-309 | the invariant holds after every prefix of every interleaving of any number of threads |
| `Exclusive.MutualExclusion` | cpus-common.c:190-309 | while one thread is between the return of start_exclusive and end_exclusive, no other thread is in a section and no CPU is between the return of cpu_exec_start and the start of cpu_exec_end |
| `Exclusive.PendingCounts` | cpus-common.c:190-223 | outside the scan pending_cpus is 0 with no has_waiter flag set, or 1 plus the number of flags; the one exception, spelled out, is the lock holder that has cleared its flag and not yet decremented |
| `Exclusive.MarkedNeverBlocked` | cpus-common.c:237-309 | a CPU with has_waiter is never blocked on a condition variable and finds pending_cpus non-zero |
| `Exclusive.NoLostWakeup` | cpus-common.c:181-234 | a thread blocked in start_exclusive waits for a marked CPU, a decrement or a signal under way; one blocked in exclusive_idle waits for the owner of a section or a broadcast under way |
| `Exclusive.WaitMakesProgress` | cpus-common.c:213-223 | after the scan no step of any thread sets the awaited CPUs back, every step of an awaited CPU brings the release closer, and when none is left the waiter has been woken and sees a count of 1 |
| `Exclusive.LockIsReleased` | cpus-common.c:190-309 | each step of the lock holder releases the lock or strictly lowers a bound on the steps until it does |
| `Exclusive.NeverDeadlocked` | cpus-common.c:181-309 | no deadlock: in every reachable state in which some thread is inside the protocol, blocked or not, a thread that is inside and not blocked on a condition variable can step |
| `Exclusive.DrainIsBounded` | cpus-common.c:181-309 | a run in which from some point on no thread enters and none wakes up unsignalled ends, under every scheduler, within a bound read off the state at that point |
| `Exclusive.Drains` | cpus-common.c:181-309 | and it can always be continued until every thread is outside |
| `Exclusive.EverybodyGetsThrough` | cpus-common.c:181-309 | in that continuation every thread that is in start_exclusive gets into its section before it is outside, and every thread that is in cpu_exec_start gets to execute |
| `Exclusive.LeavesThrough` | cpus-common.c:190-309 | in every run a thread that has left start_exclusive has been in its section, and one that has left cpu_exec_start has executed |
| `Exclusive.WhoAsksGets` | cpus-common.c:190-309 | from every reachable state a thread that is outside can ask for a section or for execution, and gets it in some continuation |
| `Exclusive.FastPath` | cpus-common.c:237-309 | without a section pending, cpu_exec_start and cpu_exec_end take neither the lock nor another thread's time |
| `Exclusive.OnlyLastSignals` | cpus-common.c:300-306 | the end of execution wakes up another thread only when it was the last that was waited for, and only one that waits for that |
| `Exclusive.HasNextStep` | cpus-common.c:181-309 | with the lock free or its own, the next instruction of a thread can be executed |
| `BlockGraph.OneEdgeAcyclic` | block.c:3093-3097 | adding or redirecting one edge keeps the graph acyclic if its owner is not reachable from its target |
| `BlockGraph.OneEdgeCycle` | block.c:3093-3097 | and otherwise it does close a cycle |
| `GraphSearch.TopologicalDfs` | block.c:2224-2247 | from a sorted, subtree-closed list: a duplicate-free list of exactly the old nodes and everything reachable from the new root, each parent before its descendants, still subtree-closed; terminates on every DAG |
| `GraphSearch.RecurseHasChild` | block.c:4141-4157 | true if and only if the node is reachable; terminates on every DAG |
| `GraphSearch.ShouldUpdateChild` | block.c:4996-5073 | the breadth-first search says yes if and only if the edge may leave its node and does not leave a node of the subtree of `to`; terminates on every graph |
| `Permissions.GetCumulativePerm` | block.c:2546-2562 | the loop over the parent list computes the union of required and the intersection of shared masks over all edges into the node |
| `Permissions.ParentPermsConflict` | block.c:2171-2194 | reports a conflict if and only if some edge into the node requires what another one does not share |
| `Permissions.CowChild` | block.c:2670-2704 | a backing child is only ever read, and may change under the reader exactly if the parents share WRITE or the node is inactive |
| `Permissions.FilteredChild` | block.c:2654-2668 | a filtered child is asked for exactly what the parents require and shares exactly what they share |
| `Permissions.StorageChild` | block.c:2706-2784 | the masks of a storage child, permission by permission: what the parents require, CONSISTENT_READ for metadata unless no I/O is done, WRITE and RESIZE for the metadata of a writable node, RESIZE for whoever writes data; sharing RESIZE only while inactive, and WRITE only while inactive or without metadata |
| `Permissions.DefaultPermsMonotone` | block.c:2659-2807 | looser masks on the parents give looser masks on every child, for every role |
| `Refresh.RefreshConsistent` | block.c:2452-2544 | after the refresh every child edge of every listed node with a driver holds exactly the driver's function of the final cumulative masks |
| `Refresh.ChecksStable` | block.c:2523-2544 | the conflict, read-only, alignment and driver checks made at a node's turn say the same as on the final masks |
| `Refresh.RefreshUnique` | block.c:2452-2544 | the result is the one and only assignment that agrees with the old masks outside the list and is consistent inside it |
| `Refresh.RefreshableIff` | block.c:2523-2544 | the refresh of a list passes exactly when some consistent assignment of masks to its nodes passes every check, whatever the order |
| `Refresh.RefreshIdempotent` | block.c:2452-2544 | a second refresh changes nothing |
| `Refresh.ChecksMean` | block.c:2452-2544 | the checks at a node one by one, edge by edge: everybody shares what the others require, who writes writes to a writable image, an unaligned image that is written to can be resized by somebody, and the driver agrees |
| `Refresh.ConsistentMeans` | block.c:2196-2211 | a consistent edge holds the masks its driver asks for, except that an image opened with force-share shares everything |
| `Refresh.LooseningSpreads` | block.c:2606-2638 | with the default functions, shrinking required sets, enlarging shared sets or removing edges leaves every edge weakly looser after refreshing any list |
| `Refresh.LooseningSafe` | block.c:3113-3127 | so no permission conflict and no read-only failure can arise that was not there before |
| `Refresh.LooseningFailsOnlyOnDrivers` | block.c:2606-2638 | after loosening, a node passes its checks if and only if size alignment and the driver agree |
| `Alignment.LooseningCanMisalign` | block.c:2482-2491 | giving up RESIZE while keeping WRITE can make the size-alignment check fail: a concrete graph, after the refresh |
| `Alignment.AlignmentSurvives` | block.c:2482-2491 | the alignment check of a node passes after everything the users may give up and the refresh that follows, if and only if the image is aligned, or RESIZE is asked of the node by somebody who is not a user, or every writer of it has a way to it through a data child |
| `Alignment.EdgeAsks` | block.c:2659-2807 | what a node with the default function asks of a child, write access and RESIZE, in terms of what its own parents ask: passed on, turned into RESIZE by a data child, or always there for the metadata of a writable node |
| `Alignment.Arrives` | block.c:2452-2544 | after a refresh what a chain of edges carries is asked of the node at its end |
| `Alignment.ResizeComesFrom` | block.c:2452-2544 | and RESIZE is asked of a node only along such a chain, from an edge that starts with it or with WRITE and a data child on the way |
| `Alignment.DataChildSurvives` | block.c:2706-2784 | so no loosening by users can misalign a node all of whose users are data or backing children |
| `Transactions.RevertNewest` | util/transactions.c:60-79 | aborting all actions newest first and then cleaning all equals undoing the newest completely and then the rest |
| `Transactions.Record` | util/transactions.c:47-58 | recording an action that undoes a change leaves what the transaction goes back to unchanged |
| `References.ZeroMeansUnused` | block.c:6911-6921 | a node whose count is zero has an empty parent list, no edge into it, no holder and no pending record |
| `BlockLayer.Layer.ReplaceChildNoperm` | block.c:2839-2917 | redirects one edge; the parents and children lists agree again with the target and owner fields of all edges |
| `BlockLayer.Layer.ChildSetPerm` | block.c:2255-2286 | sets the masks and records an action such that rolling back still leads to the state before the transaction |
| `BlockLayer.Layer.NodeRefreshPerm` | block.c:2452-2521 | succeeds if and only if the read-only, alignment and driver checks pass; gives each child edge the driver's masks and records that the driver is to be told, or changes nothing |
| `BlockLayer.Layer.ListRefreshPerms` | block.c:2523-2544 | succeeds if and only if the unique consistent assignment passes the checks at every listed node, and then installs it; the driver of every listed node is to be told |
| `BlockLayer.Layer.RefreshPerms` | block.c:2593-2604 | succeeds if and only if the subtree admits a consistent assignment that passes every check; then the subtree holds it, otherwise nothing has changed |
| `BlockLayer.Layer.ChildTrySetPerm` | block.c:2606-2638 | the new masks are in force exactly when the subtree can be refreshed with them; then the edge holds them and the subtree the consistent masks that follow; failure is reported exactly when they are not and the request did not merely loosen |
| `BlockLayer.Layer.AttachChildCommon` | block.c:2995-3070 | adds the edge, its reference and list entries; rolling back undoes exactly that |
| `BlockLayer.Layer.AttachChildNoperm` | block.c:3078-3111 | fails if and only if the parent is reachable from the child, and keeps the graph acyclic |
| `BlockLayer.Layer.ReplaceChildTran` | block.c:2419-2446 | moves one edge and parks a reference to its old node in the transaction; rolling back undoes exactly that |
| `BlockLayer.Layer.MoveUser` | block.c:5188-5209 | one user of a node: moved, skipped, or refused with the source's error, exactly by the stay-at-node flag, the search result and the frozen flag; what lies below `to` does not change |
| `BlockLayer.Layer.ReplaceNodeNoperm` | block.c:5178-5212 | although each edge is tested on the graph as changed so far, exactly the edges that may move in the graph before the call move; succeeds if and only if none of them is frozen and the others may be skipped; never a cycle |
| `BlockLayer.MovedMeans` | block.c:4996-5073 | which users move: those that need not stay at their node, except edges of nodes below the new target; nothing else about them changes |
| `BlockLayer.MovableMeans` | block.c:5178-5212 | what stands in the way: a frozen user that has to move, or one that cannot move and may not be skipped |
| `BlockLayer.Layer.RemoveFileOrBackingChild` | block.c:5126-5165 | empties the edge in the slot and clears the slot; rolling back undoes exactly that |
| `BlockLayer.Layer.TranAbort` | util/transactions.c:60-79 | nodes, edges, slots and counts are those from before the transaction, with exact lists, for every recorded sequence of actions |
| `BlockLayer.Layer.TranCommit` | util/transactions.c:81-100 | drops exactly the parked references and frees exactly the emptied edges that are meant to go; no node is left behind without a reference; surviving nodes and edges differ in permission masks only, and not even in those if no node is deleted; an edge that points somewhere stays as long as its owner; nothing is deleted if every node that loses a reference has another user |
| `BlockLayer.Layer.CommitReplace` | block.c:2346-2355 | frees the edge if it is empty and meant to go, and gives the parked reference back; a node that still has a user is not deleted by that |
| `BlockLayer.Layer.CommitRemove` | block.c:5100-5105 | frees the emptied edge; the reference to its former owner is kept for the clean-up |
| `BlockLayer.Layer.CleanOne` | block.c:5107-5114 | gives that reference back |
| `BlockLayer.Layer.AbortReplaceChild` | block.c:2357-2392 | puts the old target and the slot back |
| `BlockLayer.Layer.AbortAttachChild` | block.c:2941-2977 | takes the new edge, its reference and the slot entry away again |
| `BlockLayer.Layer.DetachChild` | block.c:3113-3134 | removes the edge and hands its reference to the caller; the subtree of its node then holds the consistent masks without that user if there are any that pass the checks, and the old ones otherwise |
| `BlockLayer.Layer.Unref` | block.c:6911-6921 | the node is deleted if and only if this was its last reference, and the deletion cascades to every node left without one; counts stay balanced, every edge of a surviving owner survives, and only nodes that had lost their users are gone |
| `BlockLayer.Layer.Delete` | block.c:5392-5407 | a node is deleted only when its parent list is empty |
| `BlockLayer.Layer.BdrvRootUnrefChild` | block.c:3223-3232 | removes the edge with its reference, and its node exactly if that was the last one; the rest of the graph is kept up to what only that edge kept alive, and unless a node is deleted the permissions below have been refreshed |
| `BlockLayer.Layer.BdrvAttachChild` | block.c:3188-3220 | succeeds if and only if the edge closes no cycle and the parent's subtree can be refreshed with it; then exactly that edge is new and the subtree is consistent; a failure leaves no trace but the reference it takes over |
| `BlockLayer.Layer.BdrvAppend` | block.c:5326-5355 | succeeds if and only if no cycle arises, no user that has to move is frozen and the result can be refreshed; then the old top is the child of the new node, all its other users have moved, no node is deleted and the subtree is consistent and passes every check; otherwise nothing has changed; never a cycle, references stay balanced |
| `BlockLayer.Layer.AppendedMeans` | block.c:5326-5355 | what appending makes of the graph: the new node has the old top behind its backing slot, every outside user that may move uses the new node, and nothing else is different |
| `BlockLayer.Layer.BdrvReplaceNodeCommon` | block.c:5226-5293 | succeeds if and only if the users can move and both subtrees can be refreshed afterwards; then exactly those users have moved, the subchain is detached if asked for, and unless a node was deleted for want of users both subtrees are consistent and pass every check; otherwise nothing has changed |
| `BlockLayer.Layer.ExchangedMeans` | block.c:5226-5293 | what replacing makes of the graph: the users that may move have moved, the slot to detach is empty and its edge points nowhere, and nothing else is different |
| `BlockLayer.Layer.FindCowParent` | block.c:5240-5249 | finds the node of the chain whose backing or filtered child is `to` |
| `BlockLayer.Layer.BdrvSetBackingHd` | block.c:3452-3473 | succeeds if and only if the driver takes a backing child, the old link is not frozen, the new one closes no cycle and the result can be refreshed; then the backing child is the given one, and unless a node was deleted for want of users the subtree is consistent and passes every check; otherwise nothing has changed |
| `BlockLayer.Layer.RebackedMeans` | block.c:3356-3442 | what a new backing child makes of the graph: the slot holds the new edge to it or nothing, the old edge points nowhere, and nothing else is different |
| `BlockLayer.Layer.BackingRefused` | block.c:3356-3410 | what stands in the way: no driver, a driver without backing children, a frozen link, or a cycle |
| `BlockLayer.BackingChildMeans` | block.c:3341-3348 | the new edge of a filter is a filtered child with all its parents' permissions; that of any other node is a backing child that is only read |
| `BlockLayer.ChainLink` | block.c:8038-8080 | the next node of a chain is behind the backing slot, or for a filter without one behind its file slot |
| `BlockLayer.Layer.SetBackingNoperm` | block.c:3356-3442 | the four reasons for refusing, exactly, and the graph change otherwise |
| `Inactivation.RecurseOk` | block.c:6741-6803 | one recursive call inactivates only nodes of the subtree, each only after all its node parents; on success the node is inactive or has an active parent left |
| `Inactivation.RecurseAsks` | block.c:6741-6803 | a successful call has dealt with every node it came to (it has a driver and is inactive or waits for another parent); a failed one has come to a node without a driver, or to one whose turn has come and which refuses |
| `Inactivation.AllInactive` | block.c:6805-6845 | if every node is inactive or has an active parent, then in a DAG every node is inactive |
| `InactivationOrder.SafeExactly` | block.c:6741-6845 | with nobody objecting, the assertion that a node is still active holds for every order of children and of roots if and only if no node has two edges such that the target of one is also reached through the other (no parallel edges, no shortcuts) |
| `InactivationOrder.ShortcutAborts` | block.c:6753-6759 | a graph with parallel edges or a shortcut has an order in which that assertion fails |
| `InactivationOrder.RunSafe` | block.c:6805-6845 | without them no order makes it fail |
| `InactivationOrder.RecurseLate` | block.c:6741-6803 | if everything that leads to such a node is visited last, no successful call can inactivate it |
| `Inactivation.ParallelEdgesAbort` | block.c:6753-6759 | with two edges to the same child the assertion that the node is still active fails: a concrete graph |
| `Inactivation.Inactivator.InactivateRecurse` | block.c:6741-6803 | at every moment an inactive node has only inactive node parents and no node is marked twice; every node marked had a driver and everybody's consent at the moment of marking; a call that succeeds has dealt with every node it came to, and one that fails has come to a node without a driver or one that refuses |
| `Inactivation.Inactivator.InactivateAll` | block.c:6805-6845 | if it succeeds over an order that includes all roots, every node is inactive, each marked once, parents first and with everybody's consent at that moment; unless the assertion fires, it fails if and only if it comes to a node without a driver or one that refuses |
| `AioContext.Mover.SetAioContextIgnore` | block.c:7328-7406 | never enters a node that is still in progress, terminates on the edges not yet ignored, moves both ends of every edge it adds to the ignore list, and touches only what is connected to the start |
| `AioContext.Mover.SetJob` | blockjob.c:151-167 | moves every node of the job and then the job itself |
| `AioContext.Mover.CanSetAioContext` | block.c:7447-7470 | yes means that everything at every visited edge has been visited and agrees; no means that a connected user refuses |
| `AioContext.Mover.ParentCanSet` | block.c:7408-7432 | the same for one parent edge, through the callback of its owner |
| `AioContext.Mover.ChildCanSet` | block.c:7434-7443 | the same for one child edge |
| `AioContext.Mover.JobCanSet` | blockjob.c:136-149 | the same for all nodes of a job |
| `AioContext.Mover.TrySetAioContext` | block.c:7472-7500 | if every edge joins one context: succeeds if and only if the context is already the right one or no connected user refuses; then all nodes, jobs and users of the connected component have the new context, nothing outside changed and every edge again joins one context; otherwise nothing changed |
| `AioContext.MovedWhole` | block.c:7328-7406 | what a finished move has reached is closed under edges, hence the whole component |
| `AioContext.NotStuck` | block.c:7447-7470 | when the check has gone through, no user connected to the start refuses |
| `GdbPacket.AlwaysInBounds` | gdbstub.c:2999-3144 | for every byte stream at all the line index stays within 0..4095, and so does every command handed on |
| `GdbPacket.PacketMeaning` | gdbstub.c:2999-3144 | a whole packet of plain, escaped and run-length pieces: acknowledged and handed on decoded exactly when it fits the buffer and the checksum agrees, refused when only the checksum is wrong, dropped without a reply when it does not fit |
| `GdbPacket.RoundTrip` | gdbstub.c:669-739 | an encoded payload sent as a packet to an idle, stopped stub is delivered unchanged and acknowledged if and only if it has at most 4095 bytes, whatever reply the stub was waiting on |
| `GdbPacket.EncodedMeaning` | gdbstub.c:723-739 | decoding the encoder's output gives the payload exactly while there is room |
| `GdbPacket.EncodedClean` | gdbstub.c:723-739 | the encoder never emits a raw packet start, packet end or run-length mark |
| `GdbPacket.SignedSumMod` | gdbstub.c:684-690 | the sender's sum of signed chars and the receiver's sum of unsigned bytes agree in the low eight bits |
| `GdbPacket.IdleIgnores` | gdbstub.c:3031-3040 | an idle stub ignores everything up to the next packet start |
| `GdbPacket.AwaitingAck` | gdbstub.c:3004-3022 | while a reply is outstanding every '-' sends it once more and every other byte but '+' and '$' is ignored, over any stream; nothing reaches parser, machine or handler |
| `GdbPacket.Acknowledged` | gdbstub.c:3004-3022 | the first '+' lets go of the reply and does nothing else |
| `GdbPacket.Abandoned` | gdbstub.c:3017-3022 | a '$' gives the reply up and is read as if there had been none |
| `GdbPacket.StopsMachine` | gdbstub.c:3023-3028 | with the machine running and no reply outstanding, a byte stops the machine and goes no further |
| `GdbPacket.StartOfPacket` | gdbstub.c:3031-3040 | outside a packet only '$' matters, and it starts an empty one |
| `GdbPacket.TooLong` | gdbstub.c:3053-3092 | a byte for a full line, or a run that would fill it, drops the packet |
| `GdbPacket.Skipped` | gdbstub.c:3062-3124 | bad run counts, a run of nothing and bad checksum digits are skipped, and an escaped end still ends the packet |
| `GdbPacket.RunMeans` | gdbstub.c:3086-3104 | a run repeats the byte before it three times for a blank and once more for each step from there |
| `GdbPacket.EncodeMeans` | gdbstub.c:723-739 | exactly the four bytes with a meaning are escaped, and every other stands for itself |
| `GdbPacket.ProtocolBytes` | gdbstub.c:2999-3144 | the bytes that frame, escape, repeat and acknowledge |
| `GdbPacket.HexDigits` | gdbstub.c:592-610 | the sixteen digits, written in lower case and read in either; anything else reads as 0 |
| `GdbPacket.ToHex` | gdbstub.c:592-610 | the digit of a nibble is read back as that nibble |
| `GdbPacket.MemToX` | gdbstub.c:723-739 | the loop appends exactly the encoding of the memory |
| `GdbPacket.Stub.PutPacket` | gdbstub.c:669-707 | sends, and keeps for retransmission, the body framed with the checksum that the receiver will compute |
| `GdbPacket.Stub.ReadByte` | gdbstub.c:2999-3144 | one byte: acknowledgements, retransmission, stopping a running machine, and the automaton on the 4096-byte buffer, all as the reference function says; every access stays in the buffer and a packet being checked is terminated |
| `GdbPacket.Stub.LineByte` | gdbstub.c:3041-3106 | the escape, run-length and plain states on the buffer |
| `GdbPacket.Stub.CheckDigit` | gdbstub.c:3107-3139 | the checksum states and the reply |
| `GdbVcont.LeftmostWins` | gdbstub.c:1305-1347 | the final action of a CPU is that of the first item whose selector covers it |
| `GdbVcont.UncoveredUnset` | gdbstub.c:1305-1347 | a CPU is left alone if and only if no item covers it |
| `GdbVcont.WhoResumes` | gdbstub.c:509-568 | a CPU is resumed if and only if some item covers it, and it single-steps if and only if the leftmost such item says so |
| `GdbVcont.ParsePrinted` | gdbstub.c:1266-1303 | a packet written from any list of items that name existing targets is read back as that list |
| `GdbVcont.StrToUlHex` | util/cutils.c:557-577 | a hexadecimal number up to the end of the range, followed by a separator, is read back exactly |
| `GdbVcont.StrToUlTooBig` | util/cutils.c:557-577 | a number above the range is refused |
| `GdbVcont.StrToUlPrefix` | util/cutils.c:557-577 | the prefix of a hexadecimal number is read over |
| `GdbVcont.StrToUlPlus` | util/cutils.c:557-577 | a plus sign is read over |
| `GdbVcont.StrToUlBlank` | util/cutils.c:557-577 | blanks before a number are read over |
| `GdbVcont.Spaces` | util/cutils.c:557-577 | which characters are blanks |
| `GdbVcont.StrToUlNothing` | util/cutils.c:557-577 | without a digit there is no number |
| `GdbVcont.DigitValues` | util/cutils.c:557-577 | the digits, in either case, and no other character |
| `GdbVcont.ActionLetters` | gdbstub.c:1266-1303 | the letters for continue and step, without and with a signal; anything else is not supported |
| `GdbVcont.SignalMeans` | gdbstub.c:1279-1290 | the signal recorded is that of the last item that carries one, and 0 if none does |
| `GdbVcont.ReadTidCut` | gdbstub.c:1179-1224 | numbers of more than 32 bits are cut off |
| `GdbVcont.ThreadTarget` | gdbstub.c:1334-1347 | naming a CPU by process and thread covers exactly that CPU, and is refused exactly if its process is not attached |
| `GdbVcont.ZeroMeansAny` | gdbstub.c:846-887 | the number 0 stands for any process or thread: the first attached CPU that fits |
| `GdbVcont.NoSuchThread` | gdbstub.c:1334-1340 | a thread that no CPU has is refused |
| `GdbVcont.ProcessTarget` | gdbstub.c:1305-1332 | all threads of a process are its CPUs, a process that is not attached is refused, and all processes are the attached ones |
| `GdbVcont.CpuPidMeans` | gdbstub.c:741-750 | the CPUs of a cluster are a process numbered from 1, and those outside any cluster belong to the last process |
| `GdbVcont.ReadOnePrinted` | gdbstub.c:1179-1224 | a process and a thread number are read back as that thread of that process |
| `GdbVcont.ReadAllPrinted` | gdbstub.c:1179-1224 | thread -1 of a process stands for all its threads |
| `GdbVcont.ReadEveryPrinted` | gdbstub.c:1179-1224 | process -1 stands for all processes, whatever the thread |
| `GdbVcont.ReadBarePrinted` | gdbstub.c:1179-1224 | a thread number alone is a thread of process 1 |
| `GdbVcont.UndefinedExactly` | gdbstub.c:1179-1348 | a packet makes the source read past its end or use a null process if and only if, after items that are all in order, an item names a process by a number that ends the packet or all threads of a process that does not exist |
| `GdbVcont.ProcessAtEnd` | gdbstub.c:1179-1193 | the first of these: a concrete packet, for every machine |
| `GdbVcont.ProcessMissing` | gdbstub.c:1316-1322 | the second: a concrete packet, for every machine without that process |
| `GdbVcont.CString` | gdbstub.c:1231-1357 | a packet ends at its first NUL |
| `GdbVcont.Stub.HandleVcont` | gdbstub.c:1231-1357 | if the packet is broken or names a wrong target: the status of the first such thing, and no CPU is resumed nor the signal changed; otherwise exactly the CPUs covered by some item are resumed, as their leftmost item says, and the last signal is recorded |
| `GdbVcont.Stub.Apply` | gdbstub.c:1300-1348 | each item marks exactly the CPUs that its selector covers and no earlier item has marked, or fails exactly for a missing or detached target |
| `GdbVcont.Stub.GetProcess` | gdbstub.c:752-768 | the process of that id, the first one for 0, none if and only if there is none |
| `GdbVcont.Stub.NextAttached` | gdbstub.c:818-831 | the next CPU in the list whose process is attached |
| `GdbVcont.Stub.FirstAttached` | gdbstub.c:834-844 | the first CPU in the list whose process is attached |
| `GdbVcont.Stub.NextInProcess` | gdbstub.c:801-815 | the next CPU in the list of the same process |
| `GdbVcont.Stub.GetCpu` | gdbstub.c:846-887 | the first attached CPU that agrees with process and thread, 0 standing for any; none if and only if no CPU agrees |
| `GdbVcont.Stub.ContinuePartial` | gdbstub.c:509-568 | resumes and single-steps exactly the marked CPUs, or none if the machine needs a reset or cannot be started |
| `Drives.IndexToAddress` | blockdev.c:178-188 | every non-negative index names an address whose index it is |
| `Drives.AddressRoundTrip` | blockdev.c:178-188 | and every address in range is named by its index: the mapping is one to one |
| `Drives.FirstFreeUnique` | blockdev.c:907-916 | there is at most one first free address |
| `Drives.PlacesUnique` | blockdev.c:892-927 | a request has exactly one outcome |
| `Drives.IndexAlone` | blockdev.c:898-902 | a request with an index is refused if and only if it also gives a bus or a unit |
| `Drives.UnitAsked` | blockdev.c:918-927 | a request for a unit of a bus is refused if there is no such unit or it is taken, and gets that address otherwise |
| `Drives.IndexAsked` | blockdev.c:898-927 | a request by index gets the quotient and remainder as bus and unit, or is refused because that is taken |
| `Drives.AnyUnit` | blockdev.c:907-916 | a request for no particular unit gets the first free one on its bus or a later one |
| `Drives.PlacedByIndex` | blockdev.c:898-905 | a drive placed by an index is the one which that index looks up, if and only if the index is not a negative one with remainder -1 |
| `Drives.UnitLooksMissing` | blockdev.c:184-188 | the unit of an index other than -1 comes out as -1, the mark of a missing unit, if and only if the index is negative and one more than a multiple of the units per bus in magnitude |
| `Drives.IndexMinusThree` | blockdev.c:898-916 | index -3 with two units to a bus: the drive goes to the first free address instead |
| `Drives.Table.Search` | blockdev.c:907-916 | the loop terminates for every set of drives and returns the first free address at or after the start of the bus |
| `Drives.Table.New` | blockdev.c:892-927 | no two drives ever share type, bus and unit; the address or the reason for refusal is the only possible one; the table grows by exactly the new drive or not at all |
| `Drives.Table.Get` | blockdev.c:212-228 | finds a drive if and only if one has that type, bus and unit |
| `Drives.Table.GetByIndex` | blockdev.c:274-280 | for a non-negative index, finds the drive of that index if there is one |
| `Drives.Table.OverrideMaxDevs` | blockdev.c:111-133 | changes the units per bus only while no drive of the type exists, so that every unit stays in range |
| `Jobs.SttMovesForward` | job.c:38-52 | along the table a job only moves forward, is concluded only from pending or aborting, and ends in null |
| `Jobs.SttExactly` | job.c:38-52 | which transitions there are, target by target |
| `Jobs.VerbsExactly` | job.c:54-67 | which verbs are allowed, in terms of how far the job has come |
| `Jobs.CanHappen` | job.c:497-584 | which events can occur at a job |
| `Jobs.PauseMeans` | job.c:497-526 | a pause point pauses a job exactly if something holds it and it is not being cancelled by force, and waking it up undoes that |
| `Jobs.EventMeans` | blockjob.c:102-134 | what the other events do, and that the end of a drained section undoes its beginning |
| `Jobs.UserPauseMeans` | blockjob.c:501-557 | resuming takes exactly the user's pause back with the error behind it; a stopping error adds it once and keeps the first error |
| `Jobs.CancelMeans` | job.c:733-765 | cancelling leaves only drained sections and a start still to come to hold the job, marks it unless it has returned and is not forced, and changes nothing else |
| `Jobs.RcMeans` | job.c:662-673 | the result of a job is its own error, the cancellation, or success |
| `Jobs.FinalMeans` | job.c:701-731 | a finalized job is committed or aborted, and cleaned, once; it disappears exactly if nobody asked to see it or it never started |
| `Jobs.DismissMeans` | job.c:622-633 | what dismissal leaves of a job |
| `Jobs.NextOk` | job.c:497-584 | every event at a job keeps its pause count equal to 1 if not started plus 1 if paused by the user plus its open drained sections, keeps an I/O error implying a user pause, and only an exit completes it |
| `Jobs.CancelledOk` | job.c:733-765 | cancelling keeps that accounting, and never takes a force-cancel back |
| `Jobs.Transition` | job.c:179-192 | the assertion on the transition table, which every caller meets |
| `Jobs.Release` | job.c:743-751 | the assertions on the pause count and on the I/O status hold whenever a user's pause is taken back |
| `Jobs.IoStatusReset` | blockjob.c:501-516 | its assertion that the job is paused by the user holds at every call |
| `Jobs.ErrorAction` | blockjob.c:518-557 | a stopping error pauses the job once on behalf of the user and records the first error |
| `Jobs.Happen` | blockjob.c:102-134 | drained sections raise and lower the count one by one; every transition on the way is in the table |
| `Jobs.UserPause` | job.c:586-597 | allowed exactly by the verb table and when not already paused; keeps the accounting |
| `Jobs.UserResume` | job.c:604-620 | allowed exactly by the verb table and when paused by the user; keeps the accounting |
| `Jobs.StartJob` | job.c:971-981 | starting takes the initial pause away and keeps the accounting |
| `Jobs.UnreferencedBase` | job.c:382-402 | the last reference to a job goes only in the null state and outside any transaction |
| `Jobs.EventKeeps` | job.c:767-831 | while a transaction is torn down nothing that its jobs do changes how each of them will be finalized |
| `Jobs.LeftNext` | job.c:1079-1101 | a force-cancelled job that has been started is three steps from completion when paused, two when running, one when it has returned; no event takes it back, and exactly the event that is due, which can always occur, takes it on |
| `Jobs.StartedAreDue` | job.c:1079-1101 | with every other job started, every wait that sees each of them wake up, return and exit in that order, with anything in between, ends |
| `Jobs.CanBeTornDown` | job.c:767-831 | there is a course of events with which tearing down ends if and only if every other job has been started or has completed |
| `Jobs.FinalizedOneLess` | job.c:701-731 | a job that has completed can then be finalized: every transition is in the table, and it gets the callbacks that are due to it, once |
| `Jobs.JobGroup.Unref` | job.c:382-402 | frees the job with its last reference, which its callers only drop in the null state outside any transaction |
| `Jobs.JobGroup.FinalizeSingle` | job.c:701-731 | commit or abort, then clean, each once; the job leaves the transaction and is dismissed if nobody has to see it |
| `Jobs.JobGroup.FinishSync` | job.c:1079-1101 | for any events during the nested event loop: it returns if and only if the job had completed or had been started and the events take it through the steps it had left; then the job has completed, the fate of all jobs is unchanged, and so is what the remaining events mean for the others |
| `Jobs.QuietClean` | job.c:897-902 | between operations no completed job of an open transaction carries an error, so the assertion in the success path holds |
| `Jobs.JobGroup.FinalizeFirst` | job.c:807-821 | a job still running when its turn comes has been asked to cancel, so that assertion holds; it is finalized with the callbacks due to it if the wait for it ends, and the condition for that is exact |
| `Jobs.JobGroup.TxnAbort` | job.c:767-831 | ends if and only if the events are enough for every job of the transaction; then every other job has been aborted and cleaned exactly once, and the initiating job as its own result says |
| `Jobs.JobGroup.PrepareAll` | job.c:833-841 | stops at the first job that fails to prepare and changes only that one |
| `Jobs.JobGroup.DoFinalize` | job.c:848-860 | if every job prepares, all are committed and cleaned once; otherwise all are aborted, except that the initiating job is committed if and only if it is not the first in the list whose preparation fails |
| `Jobs.FirstFailureAt` | job.c:139-172 | which job that is |
| `Jobs.CommittedUnprepared` | job.c:848-860 | a pair of jobs neither of which can be prepared, and the one that asks for the finalization is committed |
| `Jobs.JobGroup.TxnSuccess` | job.c:886-910 | the group moves on exactly when all its jobs have completed, to pending if some job wants manual finalization and to finalization otherwise; as long as it stays open the job waits and nothing else has changed, or all are pending and nothing else has |
| `Jobs.JobGroup.Completed` | job.c:912-923 | an error or a forced cancel aborts the whole transaction, and ends if and only if the events are enough for the other jobs; otherwise the job waits, all become pending, or the group closes, exactly as the other jobs allow |
| `Jobs.JobGroup.ExitJob` | job.c:926-952 | for a job that returned, exactly: whether the operation ends (always, unless the job failed and the events are not enough for the others), the verdict on the group, and the whole group if it stays open |
| `Jobs.JobGroup.ExitAll` | job.c:886-952 | when all jobs that have not completed have returned 0 unforced and exit, in any order, the last exit closes the group: all committed if every preparation succeeds; or all are pending if somebody wants manual finalization |
| `Jobs.JobGroup.Cancel` | job.c:983-1009 | a concluded job is dismissed; a job not started, or already returned and cancelled by force, takes the whole group down, if and only if the events are enough for all; any other is only marked |
| `Jobs.JobGroup.UserCancel` | job.c:1011-1017 | the same in the states in which the verb is allowed, and nothing otherwise |
| `Jobs.JobGroup.Finalize` | job.c:862-869 | allowed exactly when pending; commits the whole group or rolls it back |
| `Jobs.JobGroup.Create` | job.c:312-375 | a new job joins the transaction, and nobody else is touched |
| `Jobs.Joined` | job.c:312-375 | it is the newest, paused until started, with one reference and no callback called |
| `Jobs.JobGroup.Start` | job.c:971-981 | starts the job and changes nothing else; the group invariant is kept |
| `Jobs.JobGroup.Observe` | blockjob.c:102-134 | every event at a job keeps the group invariant and changes that job only; exactly a returned error adds to the failed jobs, and none is ever forgotten |
| `Jobs.JobGroup.PauseJob` | job.c:586-597 | pauses the job exactly when allowed and changes nothing else of the group |
| `Jobs.JobGroup.ResumeJob` | job.c:604-620 | resumes the job exactly when allowed and changes nothing else of the group |
| `Jobs.NeverCommitted` | job.c:767-910 | a job that failed while the group was open has been aborted or not yet finalized in every later state, never committed |
| `Jobs.JobGroup.Live` | job.c:312-1017 | over any sequence of operations and events, each with its exact effect: the callbacks and the verdict of a closed group never change again, failures are never forgotten, a job that failed while the group was open is never committed, and without early failures a group all of whose jobs have completed is closed or waits for the manual finalization somebody asked for |
| `Jobs.JobGroup.EarlyFail` | job.c:648-652 | the job is freed and is not part of the outcome; nothing else changes; the others are left hanging if and only if there are any and all have completed |
| `Jobs.LeftHanging` | job.c:648-652 | a concrete group in which that happens |
| `Jobs.JobGroup.Dismiss` | job.c:635-646 | allowed exactly when concluded; frees the job and nothing else |
| `Jobs.JobGroup.Complete` | job.c:1062-1077 | the driver is told exactly when the job is ready and not being cancelled |

## Left out

- Weak memory: the steps of the exclusive-section protocol are sequentially consistent; the source asks for that with explicit barriers.
- Adding or removing CPUs during an exclusive section, and the work queue that calls `start_exclusive`.
- Opening, probing, filename and option parsing in `block.c` and `blockdev.c`.
- The reopen queue: permissions are computed without a pending reopen, and `bdrv_reopen_*` is not part of this model.
- Drains and AioContext locking inside graph changes, `bdrv_refresh_limits`, `inherits_from`, and the move to another context that `bdrv_attach_child` may try first; attaching is modelled for a parent in the context of the child.
- The error codes and messages of a failed graph change, apart from those of `MoveUser` and of attaching; the driver callbacks are functions of the masks and their own side effects are not modelled.
- Freed edges are removed from the edge map; the model says nothing about stale pointers to them.
- BlockLayer.Layer.BdrvReplaceNodeCommon: with `detachSubchain` the chain from `from` to `to` and its unfrozen links are a precondition, because the callers guarantee them.
- BlockLayer.Layer.BdrvSetBackingHd: the backing slot of a node is assumed to hold an edge owned by that node, as the rest of the block layer keeps it.
- BlockLayer.Layer.AttachChildCommon: for a parent in the AioContext of the child; the attempt to bring the two into one context is left out.
- BlockLayer.Layer.AbortAttachChild: the contexts are not put back, because attaching does not change them.
- BlockLayer.Layer.DetachChild: the node that loses its last user is not moved to the main context.
- Inactivation.Inactivator.InactivateRecurse: the callbacks of drivers and users, and the check for remaining write permissions, are one predicate that says whether they agree.
- Inactivation.Inactivator.InactivateAll: the callbacks of drivers and users, and the check for remaining write permissions, are one predicate that says whether they agree.
- AioContext.Mover.TrySetAioContext: an owner of an edge is a node, a job or a user that either agrees or refuses; the acquisition and release of context locks, and the detach and attach callbacks, are left out.
- Coroutines, timers and `job_enter`: a job's coroutine is modelled by the events it can produce, which may occur whenever they are enabled.
- Jobs.JobGroup.Create: no job joins a transaction that already waits for finalization, where finalizing would run into the source's assertion that the job has completed; the checks on job names are left out.
- Jobs.JobGroup.ExitJob: nothing is claimed about the state of the group inside an operation that is still waiting.
- The callbacks prepare, commit, abort and clean do not call back into the job functions; a driver's cancel callback returns true when forced or when the job is not ready.
- GdbPacket.Stub.ReadByte: the command handler is an arbitrary function from the command to the reply it sends and to whether the machine runs afterwards; the sum of a packet is unbounded where the source wraps, which does not change its low eight bits; the inactive state and user-mode emulation are left out.
- GdbVcont.Stub.HandleVcont: the signal is recorded as the number in the packet, without the translation to the numbers of the target.
- Registers, memory, breakpoints, sockets and target descriptions in `gdbstub.c`.
- Drives.Table.New: options other than interface, bus, unit and index, and backends without legacy drive information, are left out; numbers are taken to fit the source's integers.
- Image formats, `bdrv_activate` and its failures, `qmp_transaction` and the command front ends.
