# hipObject: lifetimes, leases and wire formats

hipObject is a client library for RDMA transfers between GPU memory and an object store. Many threads, and callbacks that re-enter the library, share RDMA connections, registered buffers and one published instance, while a GPU may still be writing a staging buffer that the library has given up on. This project models that core in Dafny and proves what it keeps in every interleaving and under every pattern of failures.

Three kinds of model are used.

* **Machines**, for claims about every interleaving. A machine is a state, a `Step` datatype, a predicate that says which steps the code or its environment can take, and a function that applies one. Verb answers, callbacks, the GPU, spurious wake-ups and exceptions are steps that can happen whenever they are possible. The results quantify over every run from the initial state.
* **Classes and loops**, for code that changes things in place. Each method is proved against the function or property it promises. Answers of the HIP runtime and of the verbs are parameters or arbitrary choices; ghost counters of failed verbs, exceptions, empty polls and queries say that a call fails, or sleeps, only when something it called gave it a reason to.
* **Functions and lemmas**, for the checks, the codecs and the reply grammar.

| file | component |
|---|---|
| `Transport.dfy` | an RC queue pair and its completion queue: connect, drain, reset, poll |
| `PoolProtocol.dfy`, `PoolSystem.dfy`, `PoolProgress.dfy` | one pool in every interleaving; any number of pools, threads and lease objects; runs that exist from reachable states |
| `ConnectionPools.dfy`, `PoolRefinement.dfy` | the pool and lease objects as one thread runs them, and that they follow the protocol |
| `Transfers.dfy` | a whole transfer, from lease to completion, with the transfers its callbacks start, and the token it sends |
| `Buffers.dfy`, `AbandonedList.dfy`, `StageCopy.dfy` | the registrations, the abandoned copies and the staging copy with a deadline |
| `StagingLifetime.dfy`, `StagingResults.dfy`, `StagingChecks.dfy`, `StagingEnds.dfy` | registrations, staging buffers and copies in every interleaving, up to the end of the destructor; what the check for abandoned copies is worth |
| `Lifecycle.dfy`, `LifecycleRuns.dfy` | publishing, using and shutting down instances; what whole runs of them bring about |
| `Teardown.dfy` | the order in which verbs objects are released, judged by a separate monitor |
| `Addressing.dfy`, `StagedTransfer.dfy` | 64-bit ranges, minted tokens, and the bytes that GET and PUT move |
| `Numbers.dfy`, `TokenCodec.dfy`, `Reply.dfy`, `Topology.dfy` | number parsing, the token, the reply grammar, NIC and GID choice |
| `Basics.dfy` | options, counting, fixed-width types |

What the models assume of the world outside:

* Completions arrive only on a queue pair that has reached RTR or RTS, and a completion queue never holds more than its size. A `modify_qp` that fails can leave the queue pair in any state; a queue pair goes to ERR by itself only from RTR or RTS.
* A lock section is one step, and so is an operation on a shared reference count. The wait loop of `acquire` is one pass per lock section, with the wait between two passes.
* A GPU event that is over stays over, and a query that fails means over. An event that is created is not one that a copy in the list has.
* A lease is destroyed on the thread that acquired it, as the source requires of callbacks.
* A host allocation does not wrap around the address space, and is disjoint from the caller's memory.
* `std::vector::reserve` allocates what it is asked for.
* The clock is monotone, and a sleep takes at least 1 ms.

Where the code does not meet a natural expectation, the model keeps the code and states exactly when the expectation holds:

* A staged GET whose server writes less than the advertised range is not transparent: it copies stale staging bytes to the device (`ShortStagedGetIsNot`). It is transparent if and only if the staging buffer already agrees with device memory where the server did not write (`StagedGetTransparentIff`); so it is transparent whatever the server writes if and only if the two agree on the whole range before the call (`TransparentForAnyServerIff`), which `hipObjBufSync` brings about (`SyncMakesGetTransparent`).
* A token for device memory can name bytes past its HIP allocation: `hipObjBufRegisterHost` does not look at the allocation, so device memory registered through it passes every check (`HostRegistrationCanPassItsAllocation`). All tokens for directly registered device memory stay inside its allocation if and only if the registered range passes `isValidDeviceRange` (`TokensStayInAllocationIff`), which `hipObjBufRegister` checks. Tokens stay inside the memory region registered with the NIC either way.
* A `modify_qp` can ask for an illegal transition: a queue pair that fails by itself after its RTR request succeeded is asked to go from ERR to RTS (`FailureMakesARequestIllegal`). This is the only illegal request there is, exactly then (`TransfersSeeOnlyTheirOwn`), and the connection is reset, replaced or dropped all the same (`UsedConnectionIsRestored`).
* A copy whose event could not be recorded is not tracked, so its staging buffer can be freed under it (`UnrecordedCopyCanOutliveItsBuffer`). The guarantee covers exactly the copies that were recorded: from every state in which any other copy runs, some run frees its buffer first (`EveryUntrackedCopyCanLoseItsBuffer`).
* `encodeReplyWithPeerToken` takes any status, but only 200 gives a reply that parses (`EncodedReplyParsesIff200`).
* A transfer whose reply is a plain success, without a peer token, can never succeed, because nothing completes on a queue pair that was not connected (`FinishTransferAfterReply`, `RunRdmaTransfer`); the forms `ok` and `200` are accepted by the reply parser all the same (`PlainSuccessHasNoToken`).
* A call can use a staging buffer while an abandoned copy runs on it: two calls on one buffer both pass the check for abandoned copies, and one of them then gives up (`TwoCallsCanShareABuffer`). A call that is past its check can meet such a copy, without a further check by anyone, if and only if another call is past its check on that buffer (`DisturbedIff`).

## Model

| member | source | states |
|---|---|---|
| `PoolProtocol.NewPoolInv` | src/rdma/connection-pool.cpp:32-46 | a new pool of any size is accounted for, clean, and has no thread waiting |
| `PoolProtocol.StepKeepsInv` | src/rdma/connection-pool.cpp:82-182 | every lock section, wait, notification, verb answer, arrival and exception keeps accounting, hygiene, wake-ups and history |
| `PoolProtocol.DroppedStays` | src/rdma/connection-pool.cpp:158-168 | no step touches a dropped slot, and it is not on the free list |
| `PoolProtocol.UsedConnectionIsRestored` | src/rdma/connection-pool.cpp:151-168 | a connection that a transfer used stays with its lease until its restore starts, and leaves the restore only clean or dropped, whatever failed |
| `PoolProtocol.RestoreShortens` | src/rdma/connection-pool.cpp:128-149 | whatever the verbs answer, each step of a restore leaves strictly fewer to take |
| `PoolProtocol.RestoreGoesOn` | src/rdma/connection-pool.cpp:128-149 | a restore that has not reached its lock section always has a step to take, so it ends |
| `PoolSystem.ActionKeepsInv` | src/rdma/connection-pool.cpp:48-182 | acquiring, moving, connecting, ending and uncounting leases over any number of pools and threads keeps the system invariant |
| `PoolSystem.ReachableInv` | src/rdma/connection-pool.cpp:24-182 | every state that any interleaving reaches satisfies the system invariant |
| `PoolSystem.NoLostWakeup` | src/rdma/connection-pool.cpp:82-112 | while a thread sleeps, a closed or dead pool has a notify-all pending, and an open one has no more free connections than pending notify-ones and awakened threads |
| `PoolSystem.SleeperIsNeverStuck` | src/rdma/connection-pool.cpp:82-102 | no wait cycle: a sleeper has a notification or an awakened thread coming, or a connection of its pool is held by a thread that waits nowhere |
| `PoolSystem.LeasesAreExclusive` | src/rdma/connection-pool.cpp:99-101 | two lease objects never share a connection, and neither connection is free |
| `PoolSystem.LiveIsFreePlusHeld` | src/rdma/connection-pool.h:139-144 | the live count is the free connections plus the lease objects that hold or are returning one, and queue pairs never outnumber slots, even during a replacement |
| `PoolSystem.FreeConnectionsAreClean` | src/rdma/connection-pool.cpp:128-149 | under any verb failures, a free or not yet connected connection is in INIT with an empty completion queue |
| `PoolSystem.TransfersSeeOnlyTheirOwn` | src/hipobj.cpp:162-182 | a modify_qp is legal exactly when it is not the RTS request of a connection that failed by itself after its RTR request, and every completion a transfer consumed arrived during its own lease |
| `PoolSystem.BusyOnlyToHolders` | src/rdma/connection-pool.cpp:86-97 | the per-thread count is the leases the thread owns, moves included; a waiting thread owns none; Busy goes only to a thread that owns one |
| `PoolSystem.PassAnswers` | src/rdma/connection-pool.cpp:86-101 | what a pass of acquire answers in every reachable state, case by case: Closed exactly when the pool is closed, a lease of the last free connection exactly when it is open and has one, and so on |
| `PoolSystem.ClosedForever` | src/rdma/connection-pool.cpp:93-112 | a closed pool stays closed and makes no lease for the rest of every run |
| `PoolSystem.LeasesAreCounted` | src/rdma/connection-pool.cpp:99-101 | a pass makes a lease object exactly when it counts a lease |
| `PoolSystem.MovesAreExact` | src/rdma/connection-pool.h:65-70 | a move hands the connection to the new object, leaves the old one with none, and counts nothing |
| `PoolSystem.UncountingIsExact` | src/rdma/connection-pool.cpp:57-64 | a lease that has ended is forgotten, and its thread owns and counts one fewer |
| `PoolSystem.DroppedSlotsStayEmpty` | src/rdma/connection-pool.h:129-133 | a dropped slot stays empty for the rest of every run and is never leased again |
| `PoolProgress.EverySleeperCanGoOn` | src/rdma/connection-pool.cpp:82-182 | from every reachable state in which a thread sleeps in acquire, some run leads to a pass of that thread that answers, without closing the pool, a spurious wake-up or an exception |
| `PoolProgress.EveryLeaseCanComplete` | src/hipobj.cpp:162-182 | from every reachable state a lease that has not connected can connect, and get and consume any completion of its own |
| `PoolProgress.FailureMakesARequestIllegal` | src/rdma/transport.cpp:223-233 | a reachable state in which RTS was asked for from ERR, after the queue pair failed by itself |
| `ConnectionPools.ConnectionPool.constructor` | src/rdma/connection-pool.cpp:32-46 | clean distinct connections, all free, as many as asked for unless a verb refused one |
| `ConnectionPools.ConnectionPool.AcquireOnce` | src/rdma/connection-pool.cpp:82-102 | each answer of a pass exactly when the pool is closed, has free connections, has live ones, and the thread holds a lease; a lease gets a clean connection that nobody holds |
| `ConnectionPools.ConnectionPool.Close` | src/rdma/connection-pool.cpp:104-112 | closes the pool, keeps its invariant, and owes every waiter a notification |
| `ConnectionPools.ConnectionPool.Restore` | src/rdma/connection-pool.cpp:128-149 | the slot is clean again, or empty exactly when a verb refused a new connection or something threw; which call failed and what was asked of the queue pairs; other slots are untouched |
| `ConnectionPools.ConnectionPool.PutBack` | src/rdma/connection-pool.cpp:158-176 | the lock section frees the index or lowers the live count, and which notification is owed |
| `ConnectionPools.ConnectionPool.Release` | src/rdma/connection-pool.cpp:151-182 | a lease that ends leaves a clean free connection, or a dropped slot only when it could not be replaced, and owes a notify-all exactly when none is left |
| `ConnectionPools.ConnectionPool.Size` | src/rdma/connection-pool.cpp:114-119 | counts the free and the leased connections |
| `ConnectionPools.ConnectionPool.Available` | src/rdma/connection-pool.cpp:121-126 | counts the slots that have a connection and that no lease holds |
| `ConnectionPools.LeaseHandle.constructor` | src/rdma/connection-pool.cpp:48-51 | a lease is counted once, for its thread |
| `ConnectionPools.LeaseHandle.MoveOut` | src/rdma/connection-pool.h:65-70 | a move hands the connection over and leaves the source with nothing to return |
| `ConnectionPools.LeaseHandle.Connect` | src/rdma/connection-pool.cpp:75-80 | the lease is marked connected whether or not connecting works, so it is always reset; it fails only for the peer, the GID index or a verb; the first connect of a lease keeps all requests lawful |
| `ConnectionPools.LeaseHandle.Destroy` | src/rdma/connection-pool.cpp:57-64 | returns and uncounts a lease once; a moved-from lease returns and uncounts nothing |
| `PoolRefinement.AcquireRefines` | src/rdma/connection-pool.cpp:82-102 | a pass of acquire on the pool's fields is an acquire step of the protocol, with the same answer |
| `PoolRefinement.CloseRefines` | src/rdma/connection-pool.cpp:104-112 | close is a step of the protocol, and the notification it owes is the one the step makes due |
| `PoolRefinement.RestoreRun` | src/rdma/connection-pool.cpp:128-149 | a restore, with the very call that failed in its reset and in its replacement, is a run of protocol steps that ends in the same state with the same requests and touches nothing else |
| `PoolRefinement.ReleaseRefines` | src/rdma/connection-pool.cpp:151-182 | a whole release is a run of the protocol from the end of the lease to the end of its lock section, with the same requests and the same notification due |
| `PoolRefinement.ConnectRefines` | src/rdma/connection-pool.cpp:75-80 | connecting a lease is a run of the protocol, with the same requests and the failure between them, if any |
| `PoolRefinement.PollRefines` | src/rdma/transport.cpp:278-300 | a poll that takes a completion is a step of the protocol, which records what the transfer consumed |
| `Transport.RcConnection.TransitionToInit` | src/rdma/transport.cpp:112-121 | the one transition issued, and it fails only when the verb does |
| `Transport.TransitionTable` | test/unit/fake-device.cpp:87-104 | the legal transitions, one by one |
| `Transport.RcConnection.TransitionToRtr` | src/rdma/transport.cpp:173-205 | a GID index that does not fit a byte is refused before any verb is called |
| `Transport.RcConnection.TransitionToRts` | src/rdma/transport.cpp:207-221 | the one transition issued, and it fails only when the verb does |
| `Transport.RcConnection.ConnectRcPeer` | src/rdma/transport.cpp:223-233 | where it ended and exactly what it asked; it fails only for a peer that is not RC, a GID index that does not fit, or a verb; from INIT its requests are lawful |
| `Transport.RcConnection.DrainCompletions` | src/rdma/transport.cpp:247-261 | as many polls as the queue has entries always empty it; a poll that fails leaves the completions not yet taken |
| `Transport.RcConnection.ResetRcConnection` | src/rdma/transport.cpp:265-269 | from any state, success means INIT and an empty queue; which of its calls failed, and what it asked of the queue pair |
| `Transport.RcConnection.PollCompletion` | src/rdma/transport.cpp:271-312 | why it stopped, what it consumed, that it sleeps exactly when a poll found nothing, that a timeout means the deadline passed, and that a connection that was not connected yields nothing |
| `Transport.CreateRcConnection` | src/rdma/transport.cpp:144-171 | a connection in INIT with an empty queue, or none exactly when a verb failed |
| `Transfers.ServerSeesARegisteredRange` | src/hipobj.cpp:141-160 | for a buffer of either registration call, a server that decodes a minted token's text gets every field as it was, and the caller's range, inside the memory region, with nothing wrapped or lost |
| `Transfers.ReplyOfIs` | src/s3/control.cpp:27-46 | a reply counts exactly when the callback worked, claims at most 512 characters, and they are well formed |
| `Transfers.FinishTransferAfterReply` | src/hipobj.cpp:162-182 | it succeeds exactly unless the peer is not RC, the GID index does not fit, a verb failed, polling ended otherwise, or the device sync failed; the lease counts as connected exactly when the reply has a peer token |
| `Transfers.Exchange` | src/hipobj.cpp:308-325 | the answer of each path: an accepted transfer succeeds unless one of those causes happened; a connection is connected only after the server accepted; what stays as it was whatever transfers the callbacks start |
| `Transfers.Callback` | src/hipobj.cpp:297-301 | a callback that starts transfers of its own leaves the lease of the transfer that called it as it is |
| `Transfers.RunAll` | src/hipobj.cpp:297-301 | transfers started one after the other, or inside one another, keep who holds what |
| `Transfers.ExchangeAndReturn` | src/hipobj.cpp:306-326 | the lease is returned and uncounted however the exchange ends |
| `Transfers.RunRdmaTransfer` | src/hipobj.cpp:294-326 | the answer for every state of the pool and every course of the exchange; with any tree of transfers started by callbacks, the leases, the held connections and the thread's count are as before, requests stay lawful, and a transfer whose thread holds a lease never waits |
| `AbandonedList.Gpu.IsOver` | src/abandoned-copies.cpp:134-140 | the answer is whether the event is over by then, and what is over stays over |
| `AbandonedList.KeptAndGone` | src/abandoned-copies.cpp:118-130 | the copies that stay and those that leave are together the list, as multisets |
| `AbandonedList.WhoStays` | src/abandoned-copies.cpp:118-130 | in every list that the invariant allows, a copy leaves exactly when it concerns the entry and answered that it is over, and stays exactly when not |
| `AbandonedList.NoneKept` | src/abandoned-copies.cpp:118-131 | when all of an entry's copies are over, none of them is left in the list |
| `AbandonedList.AbandonedCopies.Reserve` | src/abandoned-copies.cpp:53-66 | capacity covers copies and slots, is at most 3/2 of their peak, and all reallocations together moved at most 3 times the capacity |
| `AbandonedList.AbandonedCopies.Add` | src/abandoned-copies.cpp:68-77 | a reserved slot always has room, so nothing is reallocated, and the slot is used up |
| `AbandonedList.AbandonedCopies.GiveBack` | src/abandoned-copies.cpp:45-51 | an unused slot gives its room back once |
| `AbandonedList.AbandonedCopies.MoveSlot` | src/abandoned-copies.h:59-63 | a move hands the room over and leaves the source with none |
| `AbandonedList.AbandonedCopies.Release` | src/abandoned-copies.cpp:105-132 | splits the list exactly and in order by what the events answered; false means every copy of the entry is over |
| `AbandonedList.AbandonedCopies.Destroy` | src/abandoned-copies.cpp:27-43 | an entry is marked for leaking exactly when one of its copies was not over when asked |
| `StageCopy.StageCopyWithDeadline` | src/hipobj.cpp:193-239 | a recorded copy is over or handed to the list with a reference; the reserved room is used or given back; it asks before each sleep, and gives up only after the deadline |
| `StageCopy.CheckNoAbandonedCopy` | src/hipobj.cpp:244-250 | a call that passes found every copy of the entry over, a call that is refused found one that was not over when it was asked, and running copies stay in the list |
| `Buffers.BufferMap.Insert` | src/buffer.cpp:169-180 | each answer exactly by whether the key is present and the map has 256 entries, and the map afterwards |
| `Buffers.BufferMap.RegisterBuffer` | src/buffer.cpp:182-236 | each answer exactly by the map and what the NIC and the allocator answer, and the entry it makes, direct or staged |
| `Buffers.BufferMap.RegisterHostBuffer` | src/buffer.cpp:238-256 | the same for host memory, which is never staged |
| `Buffers.BufferMap.HipObjBufRegister` | src/hipobj.cpp:412-430 | which error or success exactly when, and the new map; every entry stays sound, and tokens for directly registered device memory stay inside its allocation |
| `Buffers.BufferMap.HipObjBufRegisterHost` | src/hipobj.cpp:432-448 | which error or success exactly when, and the new map; every entry stays sound |
| `Buffers.BufferMap.TokenFor` | src/hipobj.cpp:126-160 | for every entry the map can hold, a token is minted exactly for the ranges inside it, and lies inside the memory region without wrapping |
| `Buffers.BufferMap.DeregisterBuffer` | src/buffer.cpp:258-287 | Busy exactly when something else holds the entry; removal drops the last reference |
| `Buffers.BufferMap.Find` | src/buffer.cpp:289-296 | a new reference to the entry, or none exactly when the address is not registered |
| `Buffers.MadeIsFromApi` | src/buffer.cpp:182-256 | every registration that either call makes after the argument checks is one that token building may rely on; memory is staged only when the NIC reaches it in no other way and direct access is not required; a transfer syncs with the device exactly when it is not staged |
| `Addressing.RangeInRegistration` | src/hipobj.cpp:70-78 | holds exactly when the range lies inside the registration, for every 64-bit input |
| `Addressing.CheckRegistrationArgs` | src/hipobj.cpp:80-94 | accepts exactly nonempty ranges of allowed size whose end does not wrap |
| `Addressing.IsValidDeviceRange` | src/buffer.cpp:121-140 | device memory passes exactly when it starts inside its allocation and the range ends inside it, for every size |
| `Addressing.CheckBufferArgs` | src/hipobj.cpp:124-139 | which of its three answers exactly when |
| `Addressing.MintedTokenIsInside` | src/hipobj.cpp:141-160 | every token minted for a buffer of either registration call names a range inside the NIC's region, with no 64-bit wrap |
| `Addressing.TokensStayInAllocationIff` | src/buffer.cpp:121-140 | all tokens for directly registered device memory stay inside its HIP allocation exactly when the registered range passes the check |
| `Addressing.HostRegistrationCanPassItsAllocation` | src/hipobj.cpp:432-448 | concrete arguments that the host registration call accepts and whose token lies past the allocation |
| `Addressing.WrapCheckIsNeeded` | src/hipobj.cpp:89-92 | without the last argument check, an address could wrap around in a token |
| `StagedTransfer.StagedPutIsTransparent` | src/hipobj.cpp:273-292 | a PUT shows the server the caller's bytes, exactly as an unstaged one would, and staging changes only the staging range |
| `StagedTransfer.GetEffect` | src/hipobj.cpp:252-271 | the byte a GET leaves at every address outside the staging range |
| `StagedTransfer.StagedGetTransparentIff` | src/hipobj.cpp:502-506 | a staged GET equals a direct one exactly when staging agrees with device memory on the bytes the server left out |
| `StagedTransfer.TransparentForAnyServerIff` | src/hipobj.cpp:502-506 | a staged GET equals a direct one whatever the server writes exactly when staging and device memory agree beforehand |
| `StagedTransfer.SyncMakesGetTransparent` | src/hipobj.cpp:546-569 | a sync in either direction makes them agree, so the GET after it is transparent |
| `StagedTransfer.FullStagedGetIsTransparent` | src/hipobj.cpp:502-506 | a GET whose server writes the whole range is transparent |
| `StagedTransfer.ShortStagedGetIsNot` | src/hipobj.cpp:502-506 | a concrete GET in which a stale staging byte reaches device memory |
| `StagedTransfer.PutShowsOnlyTheRange` | src/hipobj.cpp:515-544 | when the server is shown anything, and that it is the caller's bytes, whatever fails |
| `StagedTransfer.GetTouchesOnlyTheRange` | src/hipobj.cpp:481-510 | whatever fails, nothing outside the range changes; a staged GET that meets an abandoned copy or whose transfer fails leaves device memory alone; a GET that succeeds leaves the server's bytes |
| `StagedTransfer.GetAnswers` | src/hipobj.cpp:481-510 | success exactly when nothing goes wrong, and otherwise the error of the first thing that does: arguments, abandoned copy, transfer, staging copy |
| `StagedTransfer.PutAnswers` | src/hipobj.cpp:515-544 | success exactly when nothing goes wrong, and otherwise the error of the first thing that does: arguments, abandoned copy, staging copy, transfer |
| `StagedTransfer.SyncAnswers` | src/hipobj.cpp:546-572 | when a sync succeeds and which error it gives; it changes only the side it was asked to change, and afterwards both agree |
| `StagingLifetime.StepKeepsInv` | src/buffer.cpp:148-296 | calls, registrations, copies, the GPU and teardown keep use counts exact, links consistent, leaks justified and resources accounted for |
| `StagingResults.ReachableInv` | src/state.h:127-133 | every state that any interleaving reaches satisfies the invariant |
| `StagingResults.NeverFreedUnderACopy` | src/hipobj.cpp:184-239 | a staging buffer is never freed while a recorded copy that uses it is running |
| `StagingResults.LeakedExactlyWhenStillRunning` | src/buffer.h:105-112 | after the destructor, a buffer is leaked exactly when one of its abandoned copies was running when asked, and every other is freed |
| `StagingResults.QueryTellsTheTruth` | src/abandoned-copies.cpp:27-36 | the destructor's verdict on a copy is what was true when it asked, and only the entry of a copy that was running is marked |
| `StagingResults.RemovedOnlyWhenUnheld` | src/buffer.cpp:269-280 | the use count is the map's, calls' and copies' references, and removal happens exactly when no one else holds the entry |
| `StagingResults.RegistrationsAlternate` | src/buffer.cpp:148-180 | between two registrations of an address there is a deregistration, whatever races |
| `StagingResults.InsertAdds` | src/buffer.cpp:169-180 | in every reachable state a registration of a free address goes in while there are fewer than 256 entries, and otherwise the table stays as it is |
| `StagingResults.WhatCallsCanDo` | src/hipobj.cpp:193-250 | in every reachable state, exactly when a call can find a buffer, pass the check, set a slot aside, start a copy and give it up |
| `StagingResults.TableIsBounded` | src/buffer.cpp:148-180 | in every reachable state the map has at most 256 entries |
| `StagingResults.NothingIsLost` | src/buffer.cpp:182-256 | memory regions and staging buffers made minus freed are those owned by entries and registrations in progress; after teardown no region is left, and exactly the buffers of copies that were still running |
| `StagingResults.Reclaim` | src/abandoned-copies.cpp:79-83 | a run of steps after which the list is exactly the copies that were not over, in order |
| `StagingResults.BufDeregister` | src/hipobj.cpp:450-476 | the answer and the new map; in a quiescent state whose copies are all over it always succeeds |
| `StagingResults.UnrecordedCopyCanOutliveItsBuffer` | src/hipobj.cpp:212-214 | a reachable state in which an unrecorded copy runs on a freed buffer |
| `StagingEnds.EveryUntrackedCopyCanLoseItsBuffer` | src/hipobj.cpp:212-214 | from every reachable serving state with a running unrecorded copy, some run frees its buffer under it |
| `StagingEnds.EveryCallCanReturn` | src/hipobj.cpp:216-238 | from every reachable state all calls in progress can return, whether their copies are over or still running |
| `StagingEnds.EveryDestructorCanFinish` | src/state.h:127-133 | from every reachable state without calls the destructor can run to its end, with copies still running or not |
| `StagingEnds.EveryInstanceCanEnd` | src/state.h:122-133 | from every reachable state the instance can end: no interleaving gets it stuck |
| `StagingChecks.CheckFindsNone` | src/hipobj.cpp:244-250 | a call passes the check only when no abandoned copy of its entry runs |
| `StagingChecks.OnlyAPastCallDisturbs` | src/hipobj.cpp:226-227 | an abandoned copy starts to run on a buffer only when a call that is past its check on it gives up, and that call is then done with it |
| `StagingChecks.AloneIsUndisturbed` | src/hipobj.cpp:241-250 | while no other call is past its check on the buffer, no abandoned copy comes to run on it |
| `StagingChecks.DisturbedIff` | src/hipobj.cpp:241-250 | a call past its check can meet a running abandoned copy, without a further check, exactly when another call is past its check on the buffer |
| `StagingChecks.TwoCallsCanShareABuffer` | src/hipobj.cpp:241-250 | a reachable state in which a call past its check shares its buffer with a running abandoned copy |
| `Lifecycle.StepKeepsInv` | src/state.cpp:174-293 | every step of initWith, shutdown and calls, including a publication that throws, keeps use counts, lease counts and slot counts exact and the published pointer consistent |
| `Lifecycle.PublishNeverOverwrites` | src/state.cpp:205-211 | in any interleaving with shutdown, initWith publishes only over nothing |
| `Lifecycle.ServedInstancesAreComplete` | src/state.cpp:281-292 | every instance that is published, or that a call holds, was created with all the connections asked for |
| `Lifecycle.AtMostOneServes` | src/state.cpp:182-211 | at most one instance that has been published is not closed |
| `Lifecycle.DestroyedAfterTheLastCall` | src/state.cpp:174-203 | an instance is destroyed exactly when it is not published, nobody keeps it and the last call that held it has returned; its lease and slot counts are those of the calls that hold it, so both are 0 then |
| `LifecycleRuns.ShutdownTakesOutAndCloses` | src/state.cpp:182-203 | whatever runs beside it, when a shutdown returns nothing is published, and the instance that was published when it began is closed |
| `LifecycleRuns.ShutdownCanFinish` | src/state.cpp:182-203 | from every reachable state a shutdown can run to its end |
| `LifecycleRuns.InitPublishes` | src/state.cpp:205-293 | whatever runs beside it, an initWith that nothing fails publishes a new and complete instance, unless one was published already, which then stays |
| `LifecycleRuns.InitCanFinish` | src/state.cpp:205-293 | from every state an initWith can run to its end |
| `LifecycleRuns.CallFindsThePublished` | src/state.cpp:174-180 | a call begins on the published instance, with a reference of its own |
| `LifecycleRuns.WhatCallsCanDo` | src/state.cpp:174-180 | in every reachable state a call can begin exactly while something is published, lease exactly while its pool is open, and return exactly what it owns |
| `LifecycleRuns.CallKeepsItsInstance` | src/state.h:127-129 | in every run, a call's instance is not destroyed before the call returns |
| `LifecycleRuns.OwningMovesBothCounts` | src/rdma/connection-pool.cpp:82-102 | taking a lease or a slot raises the call's count and its instance's by one, and returning it undoes that |
| `LifecycleRuns.CallCanReturn` | src/state.h:127-129 | from every reachable state a call can return what it owns and end |
| `Teardown.ReleasedOnce` | src/rdma/transport.h:83-91 | in an ordered log, an object is created at most once, and releases plus existence equal creations |
| `Teardown.StepKeepsInv` | src/state.h:152-164 | opening, failing, replacing, registering and destroying keep the log ordered |
| `Teardown.EveryRunIsOrdered` | src/state.h:127-133 | in every run no object is released while one that depends on it exists, derived from member order alone |
| `Teardown.LaterMembersAreGone` | src/state.h:152-164 | the member order makes connections and memory regions go before the protection domain |
| `Teardown.LaterConnectionMembersAreGone` | src/rdma/transport.h:93-95 | the member order of a connection makes its queue pair go before its completion queue |
| `Teardown.NothingOutlivesTheInstance` | src/state.cpp:261-292 | after the last member, every object ever created has been released exactly once |
| `Teardown.TeardownGoesOn` | src/state.h:129-133 | a destructor that is not finished can always release something or go on to the next member |
| `Teardown.TeardownEnds` | src/state.h:129-133 | from every reachable state in which the destructor runs, it can run to the end |
| `Teardown.CanServe` | src/state.cpp:261-292 | an instance with any number of connections can come to serve, each with its queue pair and completion queue |
| `Teardown.LivesAndEnds` | src/state.h:127-164 | a whole life, from opening over serving to the end of the destructor, with nothing left |
| `Teardown.RegionsComeAndGo` | src/buffer.cpp:182-287 | while it serves, a memory region can be registered and deregistered, and all is as before but for the log |
| `Teardown.ConnectionsCanBeReplaced` | src/rdma/connection-pool.cpp:135-141 | while it serves, a connection can be destroyed and created anew, and the others stay as they are |
| `Numbers.ParsesExactlyNumerals` | shared/hipobj-parse.h:24-46 | accepts exactly nonempty digit strings of the base, signed only for a signed type, whose value fits, and returns that value |
| `Numbers.DigitsMean` | shared/hipobj-parse.h:24-31 | digits count up by one in three ranges, in either case, and nothing else is a digit |
| `Numbers.PrintThenParse` | shared/hipobj-parse.h:32-46 | every value of every type parses back from its printed form, in every base |
| `TokenCodec.TokenWriter.PutInt` | src/rdma/token.cpp:65-71 | appends the little-endian bytes and leaves the rest of the buffer alone |
| `TokenCodec.TokenWriter.PutBytes` | src/rdma/token.cpp:73-77 | appends the bytes and leaves the rest of the buffer alone |
| `TokenCodec.TokenReader.GetInt` | src/rdma/token.cpp:91-102 | reads the little-endian value of the next bytes |
| `TokenCodec.TokenReader.GetBytes` | src/rdma/token.cpp:104-108 | reads the next bytes |
| `TokenCodec.LeValueOfBytes` | src/rdma/token.cpp:58-110 | reading back what was written gives the integer |
| `TokenCodec.LeBytesOfValue` | src/rdma/token.cpp:58-110 | writing back what was read gives the bytes |
| `TokenCodec.LeBytesAt` | src/rdma/token.cpp:65-71 | each byte is the integer shifted right and cut to a byte |
| `TokenCodec.Layout` | src/rdma/token.cpp:169-189 | each field's place in the 44 bytes, with no padding |
| `TokenCodec.TransportOnTheWire` | src/rdma/token.h:29-33 | DC is 00 and RC is 01 at the start of the text |
| `TokenCodec.WriteBinary` | src/rdma/token.cpp:172-181 | writing field by field gives the specified layout |
| `TokenCodec.EncodeRdmaTokenHex` | src/rdma/token.cpp:169-189 | 88 lower-case digits of the layout and a NUL |
| `TokenCodec.ReadBinary` | src/rdma/token.cpp:214-231 | reading field by field gives the specified decoding |
| `TokenCodec.DecodeRdmaTokenHex` | src/rdma/token.cpp:198-232 | the loop over digit pairs computes the specified decoding |
| `TokenCodec.ParsePair` | src/rdma/token.cpp:206-212 | two characters parse as a byte exactly when both are hex digits, of either case |
| `TokenCodec.DecodeAfterEncode` | src/rdma/token.cpp:169-232 | decoding an encoded token gives it back, for every token |
| `TokenCodec.EncodeAfterDecode` | src/rdma/token.cpp:169-232 | every accepted text re-encodes to its own lower-case form |
| `TokenCodec.DecodesExactly` | src/rdma/token.cpp:198-221 | accepts exactly 88 hex digits whose first byte is 00 or 01 |
| `TokenCodec.SameTokenIffSameLower` | src/rdma/token.cpp:198-232 | two accepted texts name the same token exactly when they differ in case alone |
| `Reply.TrimEnd` | src/rdma/token.cpp:130-133 | removes the trailing NUL, CR and LF characters |
| `Reply.ParseReply` | src/rdma/token.cpp:128-165 | the code computes the specified parse |
| `Reply.ParsesExactlyTheGrammar` | src/rdma/token.cpp:124-165 | accepts exactly ok, err, a status in 100..599, or 200: and a valid token, before a run of ignored characters |
| `Reply.StatusIsPrinted` | src/rdma/token.cpp:142-151 | the accepted three-character statuses are the printed codes 100 to 599 |
| `Reply.TrailingCharacters` | src/rdma/token.cpp:130-133 | a trailing NUL, LF or CR changes nothing, and a trailing blank makes a reply malformed |
| `Reply.PeerTokenMeansSuccess` | src/rdma/token.cpp:244-258 | a reply with a peer token is a success with status 200, and the token is the one in its text |
| `Reply.StatusMeaning` | src/rdma/token.cpp:234-258 | which replies mean success, not supported and malformed |
| `Reply.PlainSuccessHasNoToken` | src/rdma/token.cpp:135-155 | ok and 200 mean success and carry no peer token |
| `Reply.EncodedReplyParsesIff200` | src/rdma/token.cpp:305-313 | an encoded reply round-trips for code 200 and is rejected for every other code |
| `Topology.BusNumber` | src/common/rdma-topology.cpp:99-106 | the part before the last colon, or all of it |
| `Topology.CommonPrefixIsLongest` | src/common/rdma-topology.cpp:118-121 | two buses agree on a prefix exactly when it is no longer than the computed one |
| `Topology.BusDistanceIsAMetric` | src/common/rdma-topology.cpp:108-123 | symmetric, zero exactly on equal buses, and the triangle inequality |
| `Topology.BusDistanceOf` | src/common/rdma-topology.cpp:118-122 | the distance of two buses is what is left of each after their common part |
| `Topology.GetBusIdDistance` | src/common/rdma-topology.cpp:108-123 | the loop computes the prefix distance whenever the ids' sizes together fit in an int, and an unknown id is as far as can be |
| `Topology.GetClosestNicToGpu` | src/common/rdma-topology.cpp:239-267 | the first NIC at minimum distance among known bus ids, and none exactly when there is no such NIC, whenever distances fit in an int |
| `Topology.FirstClosestIsUnique` | src/common/rdma-topology.cpp:259-260 | the choice is determined |
| `Topology.PickBestGid` | src/common/rdma-topology.cpp:269-285 | the earliest candidate of the highest rank among those that qualify, or none when none does |
| `Topology.RanksByKind` | src/common/rdma-topology.cpp:41-71 | how GIDs rank, by their bytes and RoCE version, and which do not qualify |
| `Topology.HcaListIncludes` | src/common/rdma-topology.cpp:125-144 | true exactly when an entry of the comma-separated list, after its blanks, is the name |
| `Topology.StripIs` | src/common/rdma-topology.cpp:131-136 | for every name, an entry of only blanks names itself, and any other entry names exactly what follows its blanks |
| `Topology.BlanksAre` | src/common/rdma-topology.cpp:132-135 | spaces and tabs are stripped, a line feed is not, and an entry of blanks is left as it is |

## Left out

- `parseOptions`, environment variables and the choice of device in `initWith`: single-branch facts about strings and configuration.
- Loading libibverbs and HIP, sysfs enumeration, vendor attributes, version functions, error strings and stderr messages: foreign calls and formatting.
- The bodies of `sendRequest` and `recvReply`: what they answer is arbitrary, and they may start any tree of transfers on the same pool. Other calls that a callback makes, such as a registration, are steps of the machines and not of `Transfers`.
- Allocation failures inside `AbandonedCopies::release` and the buffer map: a `std::bad_alloc` there is not modelled. Exceptions during a restore are.
- `hipObjGetRdmaToken` and `parseClientNicFromTokenHex`: they use the token building and decoding that are modelled and add only formatting.
- The entry's memory region key, and the queue pair attributes set by the transitions: values passed through unchanged.
- StagingResults.Reclaim: sweeps the list one copy per step, where the code sweeps it in one lock section, so the machine has more interleavings than the code, never fewer.
- Topology.GetBusIdDistance: says nothing about ids that together have more than INT_MAX characters, where the source's int sum can overflow.
- Topology.GetClosestNicToGpu: says nothing about such ids either.
- The bytes of `StagedTransfer` move in one step each; what a late, abandoned copy does to memory is covered by the lifetime results and not by byte contents.
