# Owned io_uring requests, modelled and proved

The crate lets a submitting thread and a completing thread share memory with a
concurrent kernel without `unsafe` in the caller. A request owns its storage; pushing
it trades it for a ticket through which the storage cannot be reached; reaping a
terminal completion mints a receipt; and only the matching receipt turns the ticket
back into storage. This project models that protocol and the code around it in Dafny
and proves what it is for. `dafny verify dfyconfig.toml` checks everything.

## How it is laid out

| layer | files | what is there |
|---|---|---|
| protocol | `Protocol`, `ProtocolSteps`, `ProtocolRuns`, `Stability`, `Effects`, `Footprint` | a state machine over any number of rings, a heap of bytes, the values an application holds, and a kernel that writes single bytes through SQEs; one lemma per step; theorems over whole runs |
| queues and identities | `Queue`, `Identity`, `Completion`, `Request`, `Refinement`, `Arithmetic` | circular buffers with wrapping 32-bit cursors, `OwnedSubmitter` and `OwnedCompleter` as classes, the request kinds with the SQEs they build, `CqeFlags`; and that whole runs of the queues are runs of the protocol |
| many completions | `Multishot`, `MultishotRuns`, `Pool`, `PoolMemory`, `ZeroCopy`, `ZeroCopyRuns` | pool slots, accepted descriptors and table slots under any interleaving; the pool's memory in the protocol's heap and its completions on the protocol's ring; the two-completion zero-copy send |
| staged memory | `Bytes`, `Layout`, `MsgRegion`, `Message`, `Transfer`, `Sendmsg`, `Recvmsg`, `FilesUpdate`, `Paths`, `Openat2`, `Slots` | what is written to memory before submission, and a kernel that reaches it by decoding those bytes |

Memory is one sequence of bytes and an address is an index into it, so "the kernel
follows `msg_iov`" means decoding eight bytes that earlier code stored. Code that
writes in place is a method over `array<Byte>`, proved equal to a function on the
bytes; the theorems are about those functions.

In the protocol an application value sits under a handle, so it can be moved, used or
dropped, but not copied. The kernel knows an SQE and memory and nothing else. A record
of which request each accepted SQE came from is kept beside the state to talk about
it; no step reads that record. `reap` is a run of `ReapEvent` steps whose partial
events are dropped; `Queue` proves what that costs.

## Assumptions

- The kernel touches only what an SQE reaches, and after a completion without `MORE`
  neither touches it nor posts for it again. Completions name SQEs of their own ring.
- A completion that consumed a pool slot has the `BUFFER` flag and a non-negative
  result; one that consumed none has no such flag and any result. An accept's
  non-negative result is what it installed. A table accept stays armed only while it
  succeeds.
- The kernel fills only pool buffers it has; a buffer whose completion has `BUF_MORE`
  is still one of them.
- `OwnedSubmitter::raw` and `msg_ring` are not used to put chosen `user_data` on a ring.
- `buffer_mut` and `buffers_mut` write bytes and do not swap the owner.
- The pool given to `record` is the one the ticket's request was armed with.
- Only accepts put files into the table slots that are accounted for, and only clearing
  an index takes them out. Dropping a `claim` lease is recycling its id.
- Storage keeps its address and is aliased by nobody, as `StableBuffer` demands.

## Where the code and its documentation differ

- `SendmsgZcCompleted::result` and `ZcCompleted::result` are documented to fail when
  either CQE did. With a recorded send result they ignore the notification.
  `ZeroCopy.NotificationErrorHidden` gives the input, `ZeroCopy.FailsWhenEitherDidIff`
  the exact condition.
- `CqeFlags::BUF_MORE` says not to recycle such a buffer; `Arrival::drop` recycles it.
  `MultishotRuns.IncrementalPoolRecyclesTwice` gives the run.
- `Arrival` says a slot is out of the pool for as long as it lives. `recycle` and
  `recycle_and_commit` take any id, so a buffer can be given back that the kernel has
  (`MultishotRuns.DirectRecycleDoubles`) or that an event not yet recorded still carries
  (`PoolMemory.RecycledBeforeRecord`), and clearing a table slot by index does not ask for
  its `DirectSlot` (`MultishotRuns.ClearedWhileHeld`). Each resource stays in one place
  exactly if no arrival with `BUF_MORE` is dropped and no id is recycled out of turn
  (`MultishotRuns.OnePlaceIffProper`); the kernel has one at most once exactly while what
  comes back does not overtake whole deliveries (`MultishotRuns.NeverTwiceIff`).
- `Arrival::bytes` promises the bytes the kernel wrote. Before the event is recorded,
  `buffer_mut` can overwrite them. `PoolMemory.OverwrittenBeforeRecord` gives the input,
  `PoolMemory.DeliveredBytesIff` the exact condition.
- `bind` and `connect` are said to stage the address named at construction. They stage
  `SockAddrIn::to_bytes`, which leaves out `sin_zero`. `MsgRegion.PaddingDropped` gives
  the input, `MsgRegion.ToBytesKeepsIff` the exact condition.
- `TableEntry` says a stray `-1` cannot be mistaken for a clear. `Install` of a
  descriptor whose low 32 bits are all ones is one. `FilesUpdate.AllOnesClears` gives
  the input, `FilesUpdate.RawRoundTripIff` the exact condition for one entry and
  `FilesUpdate.AskedAsMeantIff` for a whole request.
- `with_len` is documented as clamped to the capacity; it never grows a length that an
  earlier call shortened. `Request.WithLenNeverGrows` gives the input,
  `Request.WithLenClampsIff` the exact condition. (`with_lens` on message requests does
  clamp to the capacity each time; the last call wins.)
- `msgregion.rs` argues that one check of the base address suffices because everything
  in the region has one alignment. `SockAddrIn` has a smaller one; the check suffices all
  the same, and `Layout.BaseCheckSuffices` says for exactly which sizes it does.

## Model

| member | source | states |
|---|---|---|
| `ProtocolRuns.KernelNeverStrays` | src/owned/request.rs:149-175 | after any run from the start, every address the kernel can reach from any queued or in-flight SQE, following the pointers and scanning the paths as memory then spells them, is in storage that is not freed, that no application value exposes, and that at most the request's own ticket owns |
| `ProtocolRuns.RunKeeps` | src/owned/queue.rs:63-75 | the protocol invariant holds in every state of every run |
| `ProtocolRuns.StepKeeps` | src/owned/queue.rs:63-75 | every one of the 21 kinds of step, the kernel's included, keeps the invariant |
| `ProtocolRuns.ExactlyOneStatus` | src/owned/request.rs:260-312 | an allocation is freed, leaked, or owned by exactly one value, and never two of these |
| `ProtocolRuns.StepConserves` | src/owned/request.rs:286-312 | storage becomes freed exactly when a value other than a ticket is dropped with it and leaked exactly when an unredeemed ticket is; neither happens to what already was; nothing else leaves the heap |
| `ProtocolRuns.RunsConserve` | src/owned/sendmsg.rs:347-404 | over a whole run a buffer is freed at most once, ends up freed exactly when some step freed it, leaked exactly when some step dropped its unredeemed ticket, and never both |
| `ProtocolRuns.RedeemingRunsLeakNothing` | src/owned/request.rs:286-312 | a run that drops no unredeemed ticket leaks nothing |
| `ProtocolRuns.RedeemAuthenticated` | src/owned/request.rs:430-432 | a matching receipt means the kernel posted the terminal CQE of exactly that request with that result, no other ticket and no other receipt has its key, and nothing the kernel can still reach lies in the ticket's storage |
| `ProtocolRuns.RunsRedeemAuthentically` | src/owned/request.rs:286-303 | in every reachable state a redeem either is authentic and gives back the pushed request, using up the receipt, or changes nothing |
| `ProtocolRuns.TicketsDistinct` | src/owned/identity.rs:18-21 | in every reachable state all tickets of all rings, whose ids overlap, have different (ring, id) pairs |
| `ProtocolRuns.RequestsComeBack` | src/owned/request.rs:286-303 | a prepared request pushed to an idle ring can be submitted, completed, reaped and redeemed, and returns with its own storage and the kernel's result |
| `ProtocolSteps.PushKeeps` | src/owned/queue.rs:63-75 | accepting or refusing a push keeps the invariant: the new SQE's footprint is owned by its new ticket alone, and its key is new |
| `ProtocolSteps.KernelWriteKeeps` | src/owned/miri.rs:583-635 | any byte the kernel may write keeps the invariant: every request, its own included, is still staged so that its pointers and paths lead to its own storage |
| `ProtocolSteps.AdoptKeeps` | src/owned/path.rs:126-136 | a path checked once, when it is adopted, is a path from then on |
| `ProtocolSteps.AddSpansKeeps` | src/owned/openat2.rs:195-247 | a path request built from an adopted path and other storage is good without looking at the path again |
| `ProtocolSteps.AppWriteKeeps` | src/owned/sendmsg.rs:233-235 | any byte safe code may write leaves every request, prepared or in flight, correctly staged |
| `ProtocolSteps.ShortenKeeps` | src/owned/sendmsg.rs:112-119 | re-lengthing a prepared message keeps the invariant |
| `ProtocolSteps.ReapedOnce` | src/owned/queue.rs:1127-1144 | no receipt already held comes from the completion about to be reaped |
| `ProtocolSteps.RedeemKeeps` | src/owned/request.rs:286-303 | redeeming keeps the invariant: with its receipt in hand, nothing a ticket owns is still the kernel's |
| `ProtocolSteps.RecordSentKeeps` | src/owned/sendmsg_zc.rs:307-316 | recording a send result keeps the invariant, and what is recorded is a result the kernel reported for that request |
| `ProtocolSteps.DropKeeps` | src/owned/request.rs:305-312 | dropping any value keeps the invariant |
| `Stability.InFlightStable` | src/owned/request.rs:149-175 | between any two moments at which a request is in flight, through any interleaving, no byte of its storage changes but by the kernel writing through its own SQE |
| `Stability.ReadOnlyRuns` | src/owned/request.rs:149-175 | for requests that give the kernel nothing to write there is no such write |
| `Stability.SendsWhatWasPushed` | src/owned/sendmsg.rs:244-273 | in every run, what the kernel gathers for a message at any moment from the accepted push to the terminal completion is what was staged when it was pushed |
| `Stability.PreparedGathers` | src/owned/sendmsg.rs:91-104 | in every good state a message is prepared as all of its buffers' bytes |
| `Stability.ShortenedGathers` | src/owned/sendmsg.rs:112-119 | and re-lengthed it is each buffer's asked-for prefix |
| `Stability.PathsReadAsPushed` | src/owned/openat2.rs:329-361 | whatever happens meanwhile, the kernel reads each path of a request in flight as it was when it was pushed |
| `Stability.AddPathScans` | src/owned/rename.rs:186-214 | a request that takes over a second path makes the kernel scan both, in order |
| `Stability.StillSubmitted` | src/owned/recvmsg.rs:307-338 | a receive stays as well submitted as it was until the kernel writes through it, so what is proved of its delivery holds when it comes |
| `Stability.NotOfHandle` | src/owned/request.rs:141-143 | nothing but the value itself writes what it owns |
| `Effects.PrepareGives` | src/owned/request.rs:43-90 | preparing keeps the storage, and the kernel will go to exactly the ranges asked for |
| `Effects.AdoptGives` | src/owned/path.rs:126-136 | an adopted path is scanned from its first byte and the caller can no longer write it |
| `Effects.JoinGives` | src/owned/rename.rs:186-214 | owners put together are reached together, and nothing else has moved |
| `Effects.IntoPartsGives` | src/owned/request.rs:361-381 | taken apart, a value gives the caller all of its storage to read and write |
| `Effects.DropGives` | src/owned/request.rs:305-312 | a dropped value frees exactly what it owned, a dropped ticket nothing |
| `Effects.WritesLand` | src/owned/request.rs:139-143 | a written byte is there and no other has changed, whoever wrote |
| `Effects.PoolWritesLand` | src/ring/pbuf.rs:1059-1064 | the same in a pool's buffers, at the slot and offset written |
| `Effects.DropPoolFrees` | src/ring/pbuf.rs:956-975 | a dropped pool is freed and the kernel left with none of its buffers |
| `Footprint.TouchesOwned` | src/owned/sendmsg.rs:244-273 | every address reachable from a well-staged request's SQE, through the pointers in memory or by scanning for a NUL, lies in a buffer the request owns |
| `Footprint.OkFrame` | src/owned/path.rs:62-76 | whether a request is well staged depends only on its pointer words and the bytes of its paths |
| `Footprint.WriteSparesPointers` | src/owned/recvmsg.rs:307-338 | the bytes a request lets the kernel write are none of the pointers it follows and none of the paths it scans |
| `Request.SqeReachesOwned` | src/owned/request.rs:149-175 | for every request kind, what the kernel is sent to by the SQE's opcode and fields is exactly the storage the request owns, or the buffer group it names |
| `Request.EntryMeans` | src/owned/request.rs:149-175 | the SQE, read as the kernel reads it, asks for exactly the operation that was prepared: kind, file, offset, address, length, flags, group |
| `Refinement.QueuesRefineProtocol` | src/owned/queue.rs:63-75 | whatever is called on the halves of any number of rings, each call guarded only by what its caller has, with the kernel taking and posting and memory changing in between, the protocol has a run that gives every call the same answer and ends holding the same queues, tickets with their recorded send results, and events; and every entry the kernel takes asks for the very operation of the request that was pushed |
| `Refinement.AllowedIsEnabled` | src/owned/request.rs:286-303 | what the queues, tickets and events allow, the protocol allows |
| `Refinement.OpRefines` | src/owned/queue.rs:1127-1144 | each call, push, reap or redeem, answers as the protocol's step decides and keeps the two related |
| `Request.RefusalIsIdentity` | src/owned/request.rs:260-274 | `into_pending` then `reclaim_unsubmitted` gives back an equal request, for every kind; requests that own nothing are handed back as the copy |
| `Request.RefusalsLeaveNoTrace` | src/owned/queue.rs:63-75 | after any number of refusals the request is the same and a later push builds the same SQE apart from `user_data` |
| `Request.WithLensLeast` | src/owned/request.rs:102-107 | any sequence of `with_len` calls leaves the smallest length asked for |
| `Request.WithLenClampsIff` | src/owned/request.rs:92-107 | the last call has the documented effect exactly if no earlier call asked for less |
| `Request.WithLenNeverGrows` | src/owned/request.rs:92-107 | the input on which it does not |
| `Request.NewTransfer` | src/owned/request.rs:53-90 | a transfer has the file, offset and direction it was made with, the buffer's address, and its length up to the largest `u32` |
| `Request.NewZeroCopy` | src/owned/zerocopy.rs:54-74 | a zero-copy send means exactly the file, buffer, flags and clamped length it was made with |
| `Request.Resized` | src/owned/request.rs:102-107 | setting the length of either changes nothing else it means |
| `Request.NewWait` | src/owned/epollwait.rs:98-121 | on packed and other targets, accepted exactly when one event fits and the storage is aligned for it; as many events as fit, up to the largest `u32`; a refusal says what is missing |
| `Request.PublishValue` | src/owned/staged_value.rs:95-128 | the value is written where the checks allow it, and a refused storage is untouched |
| `Request.StageSays` | src/owned/staged_value.rs:95-116 | accepted exactly for storage that is long enough and aligned; a refusal names what is missing |
| `Request.StagedReadsBack` | src/owned/staged_value.rs:95-128 | an accepted value is aligned and inside its storage, and the kernel reads it back whatever happens elsewhere |
| `Request.AddressReadsBack` | src/owned/staged_addr.rs:84-118 | the kernel reads the named family, port and address over zero padding, whatever happens elsewhere, and the very address exactly when its padding was zero |
| `Identity.Source.Next` | src/owned/identity.rs:69-71 | each draw hands out the current value and steps past it, wrapping |
| `Identity.DistinctIffNotWrapped` | src/owned/identity.rs:58-72 | the first n identities are all different exactly when n is at most the counter's range |
| `Queue.WindowGrows` | src/ring/mod.rs:252-262 | an entry written at the tail overwrites none that is still waiting |
| `Queue.FullTest` | src/ring/mod.rs:252-262 | the test for a full queue on wrapped cursors is the test on the true distance |
| `Queue.Circular.Put` | src/ring/mod.rs:252-262 | appends, whatever the cursors wrapped to |
| `Queue.Circular.Get` | src/ring/mod.rs:460-474 | takes the oldest entry, unaltered |
| `Queue.OwnedSubmitter.Push` | src/owned/queue.rs:63-75 | spends an id either way; accepts exactly when there is room, appending one entry that asks the kernel for the request's operation under the ticket's id; otherwise returns an equal request and leaves the queue as it was |
| `Queue.OwnedCompleter.ReapEvent` | src/owned/queue.rs:1127-1144 | consumes exactly the oldest completion and reports it, releasing only without `MORE` |
| `Queue.OwnedCompleter.Reap` | src/owned/queue.rs:1101-1108 | terminates, consumes exactly the leading `MORE` completions and the first terminal one, and returns its receipt, whatever the kernel posts while the call runs |
| `Queue.OwnedCompleter.WaitOne` | src/owned/queue.rs:1162-1167 | a failed wait consumes nothing; otherwise `NoCompletion` exactly when no terminal completion is queued, and the rest are gone |
| `Queue.EventAtOldest` | src/owned/queue.rs:1127-1144 | `reap_event` reports the oldest completion's id, result and flags on its ring, as the last exactly without `MORE`, and steps past it |
| `Queue.ReapReturns` | src/owned/queue.rs:1101-1108 | behind any number of `MORE` completions `reap` answers with the first terminal one's receipt, id, result and flags, and stops behind it |
| `Queue.ReapFindsNone` | src/owned/queue.rs:1101-1108 | with no terminal one it answers with nothing and has consumed everything |
| `Queue.NextTerminalIsFirst` | src/owned/queue.rs:1101-1108 | everything skipped has `MORE` and what is returned has not |
| `Queue.DrainsAllReceipts` | src/owned/queue.rs:1101-1108 | reaping to the end yields exactly the receipts `reap_event` would, in order |
| `Queue.DrainLosesNothingIff` | src/owned/queue.rs:1086-1108 | it loses no completion exactly on queues where every request finishes in one |
| `Queue.ReapAnswersAsReapEventIff` | src/owned/queue.rs:1101-1108 | one `reap` reports what one `reap_event` does and leaves the cursor where it does exactly when the oldest completion is terminal or there is none |
| `Queue.ReapIsReapEventEverywhereIff` | src/owned/queue.rs:1086-1108 | every `reap` on a queue does exactly when none of its completions has `MORE` |
| `Completion.FlagsDecode` | src/types/sqe_cqe.rs:175-221 | buffer id, `MORE`, `SOCK_NONEMPTY`, `NOTIF` and `BUF_MORE` are read back unmixed from the word the kernel packs |
| `Completion.EventCarries` | src/owned/queue.rs:1127-1144 | an event is its completion, all of it, on its ring |
| `Completion.OutcomeSays` | src/error.rs:250-258 | a raw result is an errno exactly when negative, a count exactly when not |
| `Multishot.RecordInvertsKernel` | src/owned/multishot.rs:236-248 | for receives, accepts and table accepts alike, `record` yields the very slot the kernel chose, also folded into the terminal CQE, and tells whether the request is still armed |
| `Multishot.FailureCarriesNothing` | src/owned/accept.rs:169-176 | no negative result yields a slot, socket or table entry |
| `Multishot.BareCarriesNothing` | src/owned/multishot.rs:301-306 | nor does a completion without a buffer, as at the ordinary end of a receive, and it says whether the request is still armed |
| `Multishot.RecordTells` | src/owned/multishot.rs:236-248 | recording a completion that carries a slot gives that slot with the posted length or number, and at the end the posted receipt |
| `Multishot.BareTells` | src/owned/multishot.rs:391-397 | recording one that carries nothing gives its result, and at the end a receipt whose errno or count is the posted one |
| `Multishot.ForeignHandedBack` | src/owned/accept.rs:152-155 | an event of another request or ring comes back as it was |
| `Multishot.RecordHolds` | src/owned/accept.rs:152-176 | what `record` makes of an event is held, and nothing else moves |
| `Multishot.DropLoses` | src/owned/queue.rs:1086-1096 | dropping an event loses what it carried and nothing else |
| `Multishot.StepBalances` | src/owned/multishot.rs:301-346 | every step moves resources one by one between kernel, completion, event, holder and loss |
| `Multishot.FreeBalances` | src/ring/pbuf.rs:722-736 | the kernel gets exactly what is released, recycled or cleared, in turn or not |
| `Multishot.StepKeeps` | src/owned/multishot.rs:236-248 | in the completion history a terminal completion stays its request's last |
| `MultishotRuns.Conserved` | src/owned/multishot.rs:339-346 | after any run each hand-out was undone by exactly one return or is still in a completion, an event, held or lost; each slot is with the kernel or out whole, plus one per release of a buffer the kernel had kept and one per recycling of an id that was elsewhere |
| `MultishotRuns.OnePlaceIffProper` | src/ring/pbuf.rs:1110-1124 | each slot is in exactly one place, with the kernel or out whole, if and only if no arrival that came with `BUF_MORE` was dropped and no id was recycled or cleared while it was elsewhere |
| `MultishotRuns.AtMostOnceIff` | src/owned/multishot.rs:339-346 | after a run the kernel has a buffer at most once exactly when releases and recyclings do not exceed whole deliveries |
| `MultishotRuns.NeverTwiceIff` | src/owned/multishot.rs:339-346 | the same at every moment of a run |
| `MultishotRuns.ProperIsSafe` | src/types/sqe_cqe.rs:186-195 | a caller who drops no arrival that came with `BUF_MORE` and recycles ids only in turn never gives the kernel a buffer twice |
| `MultishotRuns.DirectRecycleDoubles` | src/ring/pbuf.rs:1110-1112 | one direct recycle after which the kernel has one buffer twice |
| `MultishotRuns.ClearedWhileHeld` | src/owned/direct_accept.rs:159-187 | a run that clears a table slot while its `DirectSlot` is held |
| `MultishotRuns.IncrementalPoolRecyclesTwice` | src/owned/multishot.rs:339-346 | a run of an incremental pool after which the kernel has one buffer twice |
| `MultishotRuns.CarefulLosesNothing` | src/owned/queue.rs:1086-1108 | without `reap`, dropped events and forgotten whole arrivals nothing more is lost |
| `MultishotRuns.SettledRunsReturnAll` | src/ring/pbuf.rs:722-736 | a proper run that has recorded, released and recovered everything has given back each slot as often as it was delivered whole, and the kernel has its whole pool or table back |
| `MultishotRuns.CarefulRunsReturnAll` | src/owned/multishot.rs:339-346 | a careful one needs only to have recorded and released everything |
| `MultishotRuns.HeldAlone` | src/owned/accept.rs:152-176 | in a proper run a held descriptor or slot is held once and is nowhere else: not free, not in a completion, not in an event, not lost |
| `MultishotRuns.HeldAloneIff` | src/owned/direct_accept.rs:159-187 | in any run a held one is in one place exactly if nothing of it was given back out of turn |
| `MultishotRuns.OnlyPoolsKeep` | src/owned/direct_accept.rs:159-187 | accepts, direct or not, never have a kept resource to drop |
| `MultishotRuns.RoomToRecycle` | src/ring/pbuf.rs:722-769 | in a proper run the pool ring has room while an arrival lives, so recycling unchecked cannot overrun it |
| `MultishotRuns.DoneIsFinal` | src/owned/direct_accept.rs:213-235 | once a completion says `Done`, in every continuation no completion not yet reaped, and none ever posted, belongs to that ticket |
| `MultishotRuns.DoneTellsTheEnd` | src/owned/multishot.rs:391-397 | in every reachable state a recorded `Done` is the last completion the kernel posted for the request, and its errno or count is the posted one |
| `MultishotRuns.ReapMatchesQueue` | src/owned/queue.rs:1101-1108 | the accounting's `reap` passes exactly what the queue's does and keeps exactly the receipt it answers with |
| `MultishotRuns.FullTableEnds` | src/owned/direct_accept.rs:159-187 | with the table full, whatever is next posted for a table accept is recorded as `Done` without a slot, and the request is disarmed |
| `Pool.BufferConsumer.Recycle` | src/ring/pbuf.rs:722-730 | the id goes behind all others, and into a full ring over the oldest |
| `Pool.BufferConsumer.Commit` | src/ring/pbuf.rs:744-752 | from the sixteen bits of the tail it is shown, the kernel counts what is available |
| `Pool.BufferConsumer.RecycleAndCommit` | src/ring/pbuf.rs:733-736 | with room, the id becomes available behind all others and the kernel counts it; without, it writes over the oldest, and the kernel counts one too many |
| `Pool.DropArrival` | src/owned/multishot.rs:339-346 | dropping an arrival puts its slot back once, looking at nothing |
| `Pool.Finished.TakeLast` | src/owned/multishot.rs:375-377 | the last arrival comes out and is no longer there |
| `Pool.TakeThenDrop` | src/owned/multishot.rs:339-377 | taking it out and dropping both parts still recycles once |
| `PoolMemory.StepKeeps` | src/owned/multishot.rs:194-203 | pool, ring and requests as one machine: every step keeps the protocol's invariant, the accounting's, and that they speak of one completion history |
| `PoolMemory.BuffersInOrder` | src/ring/pbuf.rs:722-730 | buffers lie one after another in the order of their ids |
| `PoolMemory.PoolsCanBeRegistered` | src/ring/pbuf.rs:263-299 | a pool can be registered in any reachable state |
| `PoolMemory.WritersOfSlot` | src/ring/pbuf.rs:1055-1065 | a buffer's bytes are changed by the kernel filling it or by the pool's owner, and by no other step of the whole machine |
| `PoolMemory.OnlyFillHitsArrival` | src/owned/multishot.rs:272-284 | while an arrival lives only the kernel filling that very buffer can change it, and then the kernel has it |
| `PoolMemory.FillableIff` | src/ring/pbuf.rs:722-736 | the kernel may fill a buffer exactly if it has it |
| `PoolMemory.NoWriteHitsArrival` | src/owned/multishot.rs:272-284 | in every run that recycles only in turn no step, of the kernel's or the application's, changes a byte of a buffer whose arrival is live |
| `PoolMemory.RecordedIsStable` | src/owned/multishot.rs:309-317 | so its bytes are the same from `record` to the drop |
| `PoolMemory.DeliveredBytesIff` | src/owned/multishot.rs:309-317 | from the delivery on, an arrival shows what the kernel delivered exactly if every byte the owner wrote since is left as it was |
| `PoolMemory.ArrivalsStable` | src/owned/multishot.rs:309-317 | in particular if it wrote none |
| `PoolMemory.OverwrittenBeforeRecord` | src/ring/pbuf.rs:1059-1064 | a write between completion and `record` that changes what is read |
| `PoolMemory.RecycledBeforeRecord` | src/ring/pbuf.rs:1110-1112 | a recycling between completion and `record` after which the kernel may fill a live arrival |
| `ZeroCopy.HoldsUntilTerminal` | src/owned/sendmsg_zc.rs:307-316 | no stream of events without this ticket's terminal one takes anything out of the ticket |
| `ZeroCopy.ReleasedByFirstTerminal` | src/owned/sendmsg_zc.rs:349-371 | the first terminal event releases exactly what was pushed, with the last send result recorded before it |
| `ZeroCopy.ResultIsSendOutcome` | src/owned/sendmsg_zc.rs:415-424 | under both kernel schedules and any interleaving with foreign events, `result` is the send outcome exactly if it was recorded first, or there was one CQE, or both say the same |
| `ZeroCopy.SkippedNoticeLosesCount` | src/owned/queue.rs:1086-1108 | with the partial event discarded, `result` is the notification's |
| `ZeroCopy.FailsWhenEitherDidIff` | src/owned/sendmsg_zc.rs:404-424 | exactly when `result` fails as documented |
| `ZeroCopy.NotificationErrorHidden` | src/owned/sendmsg_zc.rs:404-424 | the input on which it does not |
| `ZeroCopyRuns.RecordHolds` | src/owned/sendmsg_zc.rs:307-316 | recording a matching notice leaves the ticket holding exactly its result and uses it up; a mismatch changes nothing |
| `ZeroCopyRuns.RedeemOffers` | src/owned/sendmsg_zc.rs:349-371 | redeeming brings out the storage, the recorded result and the posted one together |
| `ZeroCopyRuns.SentIsLastRecorded` | src/owned/sendmsg_zc.rs:415-424 | in every protocol run a ticket's, and then its finished value's, send result is that of the last notice recorded on it, or none; and the outcome is that one's, or without it the terminal completion's |
| `Layout.PlacementSound` | src/owned/msgregion.rs:124-177 | for any type sizes, accepted exactly for the stated reasons, with header, each descriptor and the address slot pairwise disjoint and inside |
| `Layout.PlacedAtBase` | src/owned/msgregion.rs:150-166 | the parts start where the storage does, with nothing between them |
| `Layout.RefusalSays` | src/owned/msgregion.rs:124-149 | a refusal says what is wrong and names the least length that would have done |
| `Layout.BaseCheckSuffices` | src/owned/msgregion.rs:124-166 | checking the base alone aligns the header, every descriptor and the address slot of every accepted placement exactly when the sizes and alignments are compatible |
| `Layout.SupportedTargets` | src/owned/msgregion.rs:124-177 | 64-bit and 32-bit layouts are |
| `MsgRegion.Region.WriteDescriptor` | src/owned/msgregion.rs:185-191 | memory after one descriptor is written |
| `MsgRegion.Region.PublishHeader` | src/owned/msgregion.rs:231-246 | memory after the header is written |
| `MsgRegion.Region.WriteName` | src/owned/msgregion.rs:201-211 | memory after the address is written |
| `MsgRegion.Region.Stamp` | src/owned/sendmsg.rs:146-157 | the descriptor loop, as a function on memory |
| `MsgRegion.Region.StampShows` | src/owned/sendmsg.rs:146-157 | every descriptor reads back as written, and no byte of the header, the address or anything else changed |
| `MsgRegion.Region.PublishedShows` | src/owned/msgregion.rs:201-246 | header and address read back as written, and the descriptors are as before |
| `MsgRegion.Region.ShowsElsewhere` | src/owned/msgregion.rs:267-296 | what the kernel finds in a region depends only on its store, so moving its parts into a ticket and back changes nothing |
| `MsgRegion.AddrOfBytes` | src/owned/msgregion.rs:201-211 | an address written whole into the region's slot reads back as itself |
| `MsgRegion.AddrBytesOf` | src/types/net.rs:166-173 | sixteen bytes survive being read as an address |
| `MsgRegion.ToBytesKeepsIff` | src/types/net.rs:175-184 | `to_bytes` keeps family, port and address, and the whole address exactly when its padding is zero |
| `MsgRegion.PaddingDropped` | src/types/net.rs:175-184 | an address that does not survive it |
| `Message.Build` | src/owned/sendmsg.rs:121-143 | the in-place build, as a function on memory |
| `Message.WithLens` | src/owned/recvmsg.rs:185-192 | the in-place re-lengthing, as a function on memory |
| `Message.ReadyShows` | src/owned/sendmsg.rs:112-166 | after building and any sequence of `with_lens`, the kernel finds the header and the last call's lengths, each clamped to its buffer |
| `Message.ReadyDescriptor` | src/owned/sendmsg.rs:91-119 | in memory, descriptor `i` names buffer `i` from its start, whole if the lengths were never set and otherwise as last asked, up to the buffer's end |
| `Message.ReadyHeader` | src/owned/msgregion.rs:231-246 | the header names the array, as many descriptors as buffers, the address slot if one is used, and nothing else |
| `Transfer.ScatterGather` | src/owned/miri.rs:583-596 | scattering a payload and gathering it back gives its first bytes, as many as fit, then what was there before |
| `Sendmsg.SendmsgGathers` | src/owned/sendmsg.rs:112-166 | for any buffers, target and `with_lens` history, and after anything at all outside the staging store, the kernel gathers each buffer's asked-for prefix in order and finds the named address |
| `Sendmsg.UnshortenedIsEverything` | src/owned/sendmsg.rs:91-104 | a message whose lengths were never set is all of its buffers, and `total_len` their sum |
| `Sendmsg.TotalLen` | src/owned/sendmsg.rs:196-198 | the sum of the staged lengths in a `usize`; `SendmsgGathers` says that it is the number of bytes gathered and cannot wrap |
| `Sendmsg.Observe` | src/owned/miri.rs:556-568 | the kernel's walk over the header, the array and the buffers computes what the theorem speaks of |
| `Recvmsg.RecvmsgScatters` | src/owned/recvmsg.rs:519-529 | the described prefixes hold the payload's first bytes, as many as fit and one transfer moves, all other bytes outside the store are unchanged, `received` reports the count, which fits the CQE, and `truncated` exactly when a datagram exceeded that |
| `Recvmsg.ReadyIsSubmitted` | src/owned/recvmsg.rs:164-243 | building and any `with_lens` history lead to the state the theorem starts from, address slot zeroed |
| `Recvmsg.UnshortenedRoom` | src/owned/recvmsg.rs:164-178 | a receive whose lengths were never set has room for all its buffers hold, as far as one transfer goes |
| `Recvmsg.Fill` | src/owned/miri.rs:583-596 | the kernel's loop, which re-reads each descriptor through the header while buffers are being overwritten, is the scatter |
| `Recvmsg.PeerSound` | src/owned/recvmsg.rs:539-562 | `peer` is `V4(a)` exactly when room was reserved, the receive succeeded and the sender's real address is a whole 16-byte `AF_INET` address spelling `a`; the other answers likewise |
| `FilesUpdate.RawRoundTripIff` | src/owned/filesupdate.rs:84-93 | the kernel is asked for what the entry says exactly when its descriptor is below 2^31 |
| `FilesUpdate.AllOnesClears` | src/owned/filesupdate.rs:84-93 | the input on which installing clears |
| `FilesUpdate.Publish` | src/owned/filesupdate.rs:296-305 | the in-place loop, as a function on memory |
| `FilesUpdate.ReadBack` | src/owned/filesupdate.rs:334-343 | the values in memory, element by element |
| `FilesUpdate.PublishedReads` | src/owned/filesupdate.rs:296-343 | every element reads back as its entry's value, and nothing else changed |
| `FilesUpdate.AtStages` | src/owned/filesupdate.rs:257-288 | accepted exactly for a non-empty array that fits and is aligned; every element then lies aligned inside the storage |
| `FilesUpdate.AtRefusalSays` | src/owned/filesupdate.rs:257-288 | a refusal says what is missing and names the length that would have done |
| `FilesUpdate.UpdateSays` | src/owned/filesupdate.rs:128-141 | a negative result is that errno, any other the count, complete exactly if it reaches what was asked for |
| `FilesUpdate.UpdateReportsTable` | src/owned/filesupdate.rs:128-168 | for any entries `at` accepts: stage, let the kernel work through the staged bytes, read its answer; exactly the first `installed` slots from the offset are as the bytes ask, no other changed, the next element could not be done, and `is_complete` holds exactly when every element took |
| `FilesUpdate.AskedAsMeantIff` | src/owned/filesupdate.rs:325-327 | what the bytes ask is what the entries say exactly when every descriptor is below 2^31 and there are fewer than 2^32 |
| `Paths.CopyInto` | src/owned/path.rs:89-113 | accepted exactly for a non-empty path without NUL that fits with its terminator; a rejected storage is untouched; each error in the order the code checks |
| `Paths.Adopt` | src/owned/path.rs:126-136 | the scan in place answers what the first NUL decides |
| `Paths.AdoptIffValid` | src/owned/path.rs:126-136 | `adopt` accepts exactly storage that holds a valid path, and finds its length |
| `Paths.AdoptRefusalSays` | src/owned/path.rs:126-136 | refused as empty exactly for a NUL at the start, as unterminated exactly for none at all |
| `Paths.ScanStaysInside` | src/owned/miri.rs:811-826 | the kernel's unbounded scan stops inside the storage and reads exactly `as_bytes` |
| `Paths.CopyThenAdopt` | src/owned/path.rs:89-167 | `copy_into`, `into_storage`, `adopt` gives back the same path, whatever happened elsewhere |
| `Openat2.StagedIsAccepted` | src/owned/openat2.rs:87-107 | whatever is staged, the kernel does not refuse it for its mode; the caller's flags and those the mode implies are all there and no others |
| `Openat2.RefusalSays` | src/owned/openat2.rs:195-247 | a mode with other than permission bits is refused naming exactly those, and otherwise the storage decides |
| `Openat2.PublishHow` | src/owned/openat2.rs:267-278 | the in-place write, as a function on memory |
| `Openat2.HowReadsBack` | src/owned/openat2.rs:267-278 | the kernel reads back the flags, mode and resolve bits that were staged |
| `Openat2.HowSizeIsStaged` | src/owned/openat2.rs:329-361 | the size the SQE gives is that of the structure staged |
| `Slots.RawRoundTrip` | src/owned/slot.rs:124-129 | the kernel reads back the target through the signed field; it is never 0 |
| `Slots.RawInjective` | src/owned/slot.rs:124-129 | no two targets share an encoding |
| `Slots.RawSurjective` | src/owned/slot.rs:62-75 | every other wire value is some target's, so the bound on indexes is tight |
| `Slots.SlotIndexIff` | src/owned/slot.rs:69-75 | an index is accepted exactly if its encoding is neither of the kernel's two reserved values |
| `Slots.RedeemNamesTheSlot` | src/owned/direct_socket.rs:225-242 | for both targets the slot from a successful redeem is where the kernel put the file |
| `Slots.FailureNamesNoSlot` | src/owned/direct_socket.rs:225-242 | there is no slot exactly when the result is negative |

## Left out

- The mapped rings beyond their cursors, `io_uring_enter`, CQ overflow and memory ordering: each step is atomic.
- Ring and request counters wrapping in the protocol: its ids are unbounded, and `Identity.DistinctIffNotWrapped` says how long that is exact.
- The requests in `cancel.rs`, `msgring.rs`, `futex.rs`, `fixedfdinstall.rs`, `open.rs`, `link.rs`, `rename.rs`, `pathop.rs`, `pipe.rs`, `futexwaitv.rs` and `readmultishot.rs`: further instances of machines modelled here.
- Reading `EpollEvent`s back out of finished storage: a slice as long as the count.
- Errno tables, `Display`, syscall wrappers, builders and benches.
- Big-endian and 32-bit byte layouts: staged words are little-endian and 64-bit, except in `Layout`, which covers any sizes.
- Where in an incremental pool's buffer a later completion's bytes start: deliveries with `BUF_MORE` are accounted for, their contents are not.
- The event a pool completion becomes is held twice, as a protocol value and in the pool's accounting; recording it uses up the latter.
- Files put into table slots other than by an accept: a direct open, a direct socket or a `files_update`.
- SendmsgGathers: it is about everything the header describes; the kernel sends at most `MAX_RW_COUNT` bytes of it at once.
- UpdateReportsTable: the count is not cut to the CQE's 32 bits; the kernel's tables are far smaller.
