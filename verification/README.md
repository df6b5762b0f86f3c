# Verified model of go-cedar

A Dafny 4.11 model of the hard parts of go-cedar, with proofs.
`dafny verify dfyconfig.toml` checks the whole project.

| files | what they model |
|---|---|
| `PoolItems`, `PoolProtocol`, `PoolSafety`, `PoolCapacity`, `PoolHistory`, `PoolOrder`, `PoolService`, `PoolProgress` | the work pool and its workers |
| `ProcessTree`, `ProcessReach`, `ProcessCompletion`, `ProcessShutdown`, `Processes`, `ChildLists` | the life cycle of a tree of processes |
| `Mailboxes`, `MailboxCells`, `MailboxWakeups` | the bounded drop-oldest mailbox and its notification token |
| `BufMaps` | the linear-probing hash map |
| `Digits`, `Base32`, `Base32Bits`, `Base32Buffers`, `HexText` | the base 32 and hex codecs |
| `WaitGroupChans`, `WaitGroupCallers` | the server goroutine of WaitGroupChan, and its callers |
| `Wrappers` | Option, Result, sets and lists |

**How concurrency is modelled.** The protocols are step relations over values: a
`Label` datatype, `Enabled(s, l)` and `Next(s, l)`, with one step per channel operation,
WaitGroup operation or mutex section, interleaved in any order under sequentially
consistent memory. A run is a list of labels of any length. The critical sections
themselves are also written as methods of classes that update their fields
(`Pool`, `Process`, `Mailbox`, `ChildList`, `BufMap`, `BytesValue`); each method is proved
against the very function that the step relation uses.

**The pool.** `Get` never writes `InUse`, so the table alone does not exclude two workers
from one item. The invariant counts tokens instead: the places of an id in the mailbox, in
the deliverer's batch and in the workers' hands, plus the times it fell out of a full
mailbox, add up to one if the id is Available and to zero otherwise. The history proof
shows that the log of every id, in every run, is a word of one five-state automaton, and
reads the promises about `Get`, `RetryLater` and `Complete` off that automaton.

**The process tree.** `StartChild` is kept in the steps the code takes: check the parent's
state, append to `subs`, `running.Add(1)`. Shutdown and bookkeeping are proved for every
interleaving of these. Class `Process` has one method for each step of Close, of StartChild
and of the watcher; each is proved to do to its fields what the tree's step does
(process/process.go, lines 46-70 and 184-219).

## What the proofs say about the code

- `BufMap.Remove` does not repair probe chains. It is map deletion exactly when no other
  entry's probe path crosses the freed slot; otherwise exactly the crossing entries become
  unfindable (`BufMaps.RemoveIsMapDeletionIff`, `BufMaps.RemoveCanLoseAnotherEntry`).
- `SmartMarshalToBase32` encodes correctly over its own source bytes whenever the final
  buffer holds the encoded length, but its sizing formula (`4 + 4*((n+2)/3)`, right for base
  64) is too small for base 32: reusing a 28-byte buffer for 18 bytes, or letting it allocate
  one for 21 bytes, ends in a slice-bounds panic (`Base32Buffers.FitsEveryBufferIff`,
  `Base32Buffers.FitsFreshBufferIff`).
- The state check, the append to `subs` and `running.Add` in `StartChild` are not locked
  together. A child that passes the check before its parent's Close and is appended after it
  is listed, and open, under a parent that is Done (`ProcessCompletion.LateStartBreaksCompletion`).
  "Done means children done" holds through a run, to any depth, exactly if every append comes
  while the parent can still wait, or for a child that is done already, and no wait ends while
  an open child is appended and not yet counted (`ProcessCompletion.BottomUpCompletionIff`).
  If check, append and Add were one step, it would always hold
  (`ProcessCompletion.AtomicStartsComplete`).
- `process/api.process.go:112` promises that "no children remain" once Done is signalled. As
  `running.Done()` comes before the removal from `subs`, a Done process can still list a
  child for a moment (`ProcessCompletion.DoneCanStillList`), and
  `ProcessCompletion.DoneListsOnlyLeavingIff` says when it lists nothing else.
- An item whose id overflows the 1000-slot mailbox is lost for good: it stays pending and no
  `Get` returns it again, whatever `Add` and `ForceRetry` do (`PoolSafety.LostForever`). A
  client that adds only while `NumItemsPending` is below 1000 is safe, and no larger limit is
  (`PoolCapacity.NothingLostIff`). The limit is read at the Add itself; in the code
  `NumItemsPending` and `Add` are two critical sections, so this is a promise to a single
  adding client, whose count can only have shrunk in between.
- After "called Done() too many times" or "already finished" the server of WaitGroupChan is
  gone. A later `Done` gets out through `chWait`; a later `Add` is stuck until the context
  ends or `Close` is called (`WaitGroupCallers.LateCallIsStuckIff`, `WaitGroupCallers.AddCanBeStuck`).
- Taking one message per notification loses wake-ups unless the capacity is 1, which is the
  capacity PeriodicTask uses (`MailboxWakeups.WakeupsAreNeverLostIff`).
- The removal loop of the watcher skips the element that moves into the freed place, so it
  clears every occurrence of a child exactly when no two are adjacent
  (`ChildLists.PrunedClearsIff`); with one occurrence it is always right.
- `process/api.process.go:98-101` says that OnClosing runs after all children are closed. In
  the code it runs before the wait (`process/process.go:53-61`); the model follows the code.

## Model

| member | source | states |
|---|---|---|
| PoolSafety.MutualExclusion | process/pool.go:74-142 | In every reachable state, for any number of workers, ids and retries, an id has at most one token over mailbox, batch and hands; two hands never hold one id; a held id is neither queued nor batched; a token means the entry is Available, so retried and done ids have none. |
| PoolSafety.PanicsAreUnreachable | process/pool.go:101-152 | No reachable step hits the panics of Get, of the deliverer, of setState, or the semaphore's panic on releasing a permit nobody holds. |
| PoolSafety.SemaphoreAccounting | process/pool.go:86-99 | Permits taken are exactly the callers between Acquire and Release (waiting, received, working, or leaving on the error path), and never exceed the concurrency. |
| PoolSafety.TokenConservation | process/pool.go:74-142 | Until a delivery overflows, an id is Available if and only if it has exactly one token, shutdown included. |
| PoolSafety.OverflowLosesOldest | utils/mailbox.go:34-37 | A step loses a token exactly when it delivers into a full mailbox, and then exactly the oldest queued id loses its one token while staying Available. |
| PoolSafety.LostForever | process/pool.go:78-81 | Once an id has overflowed, no later Get returns it in any run, and it stays Available for ever. |
| PoolSafety.TickIsRun | process/pool.go:196-212 | One whole tick, for any walk over the map, is a run of the model's single-item steps with the same final table. |
| PoolOrder.HandedOutInOrder | process/pool.go:114-142 | Over any run the ids that workers received, then those the deliverer has left, then the mailbox from its last cell to its first, are a subsequence of the delivered ids in delivery order, and all of them while nothing was lost. |
| PoolService.AcquireIff | process/pool.go:86-90 | In every reachable state an idle worker gets past the semaphore exactly while fewer permits are out than the concurrency. |
| PoolService.AllWorkAtOnce | process/pool_worker.go:48-70 | For any concurrency a state is reachable in which that many workers are at work, each on its own item. |
| PoolService.WorkersAreServed | process/pool.go:99-110 | Any waiting worker may take the next id, whoever received one gets its item, and whoever works may answer either way. |
| PoolService.ClientsAreServed | process/pool.go:74-84 | Add of any item and ForceRetry of any known one are open in every state, shutdown included. |
| PoolService.StopsOnlyWhenStopping | process/pool_worker.go:50-61 | Workers and deliverer may give up exactly once shutdown has begun. |
| PoolService.TickWakesIff | process/pool.go:203-210 | A tick wakes an item if and only if its RetryLater(id, when) is answered by no tick and no ForceRetry yet, and the clock is past `when`. |
| PoolService.TicksAreInThePast | process/pool.go:201-207 | No tick bears a time that the clock has not reached. |
| PoolService.ForceWakes | process/pool.go:161-178 | ForceRetry of a parked item makes it Available at once, with one token. |
| PoolService.PendingIff | process/pool.go:61-72 | In every run NumItemsPending counts an id exactly if it was added and never completed. |
| PoolProtocol.StepKeepsInv | process/pool.go:86-215 | Every step of workers, deliverer, retry loop and clients keeps token conservation, table, permit and mailbox invariants. |
| PoolProtocol.RunKeepsInv | process/pool_worker.go:48-70 | The invariant holds after every run, of any length and interleaving. |
| PoolProtocol.DeliveryTokens | utils/mailbox.go:34-37 | A delivery adds one token and takes away exactly the oldest one of a full mailbox. |
| PoolProtocol.HeldIsAvailable | process/pool.go:101-110 | An id in a hand is Available, in that hand only, and was never dropped. |
| PoolCapacity.NothingLostIff | process/pool.go:26 | A client that adds a new item only while NumItemsPending is below a limit never loses a token, in any run, if and only if the limit is at most 1000; Done items do not count. |
| PoolCapacity.ModestRunDropsNothing | process/pool.go:61-84 | From any state, such a run overflows nothing and never has more items pending than the limit. |
| PoolHistory.EveryHistoryIsALife | process/pool.go:74-185 | In every reachable state the log of every id is accepted by the life-cycle automaton, and ends in the state that table and workers show. |
| PoolHistory.GetsAreBounded | process/pool.go:154-185 | Gets of an id equal its RetryLaters plus its at most one Complete plus one if it is being worked on; so at most 1 + RetryLaters. |
| PoolHistory.NeverGotAfterComplete | process/pool.go:161-185 | After Complete(id) no Get returns the id, even after Add and ForceRetry. |
| PoolHistory.RetryWaits | process/pool.go:196-211 | Between RetryLater(id, when) and the next Get of the id lies a tick with now > when or a ForceRetry. |
| PoolHistory.GetReturnsFirstAdded | process/pool.go:78-82 | Get returns the item that was added first under its id. |
| PoolProgress.StepDecreases | process/pool.go:114-215 | Every step that moves an item, a worker or the deliverer, the steps of shutdown included, decreases the measure. |
| PoolProgress.NeverStuck | process/pool_worker.go:48-70 | With nothing lost and an item not Done, a step of the pool itself (no client's ForceRetry) is enabled, now or once the clock has moved on. |
| PoolProgress.PoolDrains | process/pool_worker.go:48-70 | With finitely many retry answers the number of useful steps of a run is bounded, however many idle ones lie between; and where nothing overflowed and the pool has no useful step left, every item is Done. |
| PoolProgress.PendingThousandDrains | process/pool.go:26 | The same with up to 1000 items pending at the start, in place of "nothing overflowed". |
| PoolProgress.PoolStops | process/pool_worker.go:48-78 | Once shutdown has begun the useful steps of a run are bounded; where neither a worker nor the deliverer can move they have all returned, every permit is back, and every Available item stands exactly once in the mailbox or the deliverer's batch, or was lost before. |
| PoolItems.Pool.constructor | process/pool.go:24-32 | A new pool has an empty table, a 1000-slot mailbox and all permits. |
| PoolItems.Pool.Add | process/pool.go:74-84 | Adds and delivers an unknown id; a known id changes nothing. |
| PoolItems.Pool.SetItemState | process/pool.go:144-152 | Rewrites state and retry time of one entry and nothing else. |
| PoolItems.Pool.RetryLater | process/pool.go:154-159 | Parks the item until `when` and gives the permit back. |
| PoolItems.Pool.Complete | process/pool.go:180-185 | Marks the item Done and gives the permit back. |
| PoolItems.Pool.ForceRetry | process/pool.go:161-178 | Requeues a parked item; any other state is left alone. |
| PoolItems.Pool.RequeueDue | process/pool.go:196-212 | One tick makes exactly the parked entries with `retryWhen` before now Available and leaves every other entry alone; their ids are delivered once each, in the order of the walk. |
| PoolItems.Pool.NumItemsPending | process/pool.go:61-72 | Counts exactly the Available and parked entries. |
| PoolItems.RequeuedAllEntries | process/pool.go:203-211 | After a tick exactly the listed entries are Available with a zero retry time, the others are unchanged. |
| Mailboxes.Mailbox.constructor | utils/mailbox.go:14-24 | A new mailbox is empty, without a token. |
| Mailboxes.Mailbox.Deliver | utils/mailbox.go:30-43 | Puts the message in front, cuts the queue to a positive capacity, sets the token. |
| Mailboxes.Mailbox.Retrieve | utils/mailbox.go:45-55 | Returns the oldest message and removes it, or None from an empty mailbox. |
| Mailboxes.Mailbox.RetrieveAll | utils/mailbox.go:57-66 | The in-place reversal returns all messages oldest first and empties the mailbox. |
| Mailboxes.Mailbox.Clear | utils/mailbox.go:68-77 | Empties the mailbox and keeps the token. |
| Mailboxes.DeliverAppends | utils/mailbox.go:34-37 | Seen oldest first, a delivery appends at the back and a full mailbox loses exactly the front; the capacity is kept. |
| Mailboxes.OldestIsFront | utils/mailbox.go:52-53 | The last cell of the newest-first queue is the front of the FIFO. |
| Mailboxes.EveryMessageHasOneFate | utils/mailbox.go:30-77 | Over any run the messages that left, followed by those queued, are exactly the delivered ones in order, so each is retrieved, dropped, cleared or queued and never two of these; retrieval order is a subsequence of delivery order; a positive capacity is never exceeded. |
| MailboxCells.FatesAreTrue | utils/mailbox.go:34-77 | Over any run, taken are exactly the cells that Retrieve and RetrieveAll returned, lost those that a delivery pushed out of a full box, wiped those that Clear found, each in order. |
| MailboxCells.DeliveredCells | utils/mailbox.go:34-42 | A delivery fills the first cell, moves the others up, pushes the last one out exactly if a positive capacity was reached, and gives notice. |
| MailboxWakeups.WakeupsAreNeverLostIff | process/periodic_task.go:27-41 | No run with one consumer leaves messages queued with neither a token nor a woken consumer, if and only if the consumer empties the mailbox per notification or the capacity is 1. |
| MailboxWakeups.RunKeepsInv | utils/mailbox.go:39-66 | The invariant behind it, for all three ways of consuming. |
| MailboxWakeups.TakeOneLosesWakeup | utils/mailbox.go:45-55 | For every capacity but 1, a run in which a one-per-notification consumer sleeps on a message. |
| ProcessShutdown.ShutdownClosesTheTree | process/process.go:46-71 | Once Close of a process has begun and nothing is started, every run is finite with a bound from the measure, and where no goroutine can move the process and all its descendants are closed and deregistered, whether or not functions run by Go return. |
| ProcessShutdown.StepDecreases | process/process.go:194-220 | Every step of closers, watchers and pending StartChilds decreases the measure over the tree. |
| ProcessShutdown.ClosedWhenQuiescent | process/process.go:59-70 | No deadlock: where nothing can move, a process whose Close has begun is closed. |
| ProcessShutdown.WatcherIsGone | process/process.go:194-220 | Where nothing can move, the watcher of a child that or whose parent has begun to close has returned, and the child is closed. |
| ProcessShutdown.ClosedChildIsDeregistered | process/process.go:223-227 | A child that closes on its own, as after a failed OnContextStarted, ends up closed and out of its parent's list. |
| ProcessCompletion.BottomUpCompletionIff | process/api.process.go:112-113 | In every state of a run, and after any Finish those states allow, Done of a process implies Done of every descendant at any depth, a child counting from its append to subs on, if and only if the run is safe: every append comes while the parent can still wait or for a child that is done, and no wait ends while an open child is appended and not yet counted. |
| ProcessCompletion.CompleteIff | process/process.go:60-69 | "Done means children done", now and after any enabled Finish, holds if and only if no process that has stopped waiting has an open child, counted or only appended. |
| ProcessCompletion.StepKeepsCompletionIff | process/process.go:60-61 | Whatever the step, it keeps processes that have stopped waiting free of open children if and only if it is safe. |
| ProcessCompletion.DoneListsOnlyLeavingIff | process/process.go:204-219 | In every state of a run the processes that have stopped waiting list only done children whose watchers are between running.Done and the removal, if and only if nothing is appended under such a process and no wait ends between an append and its running.Add. |
| ProcessCompletion.StepKeepsListsIff | process/process.go:188-193 | The same for one step. |
| ProcessCompletion.AtomicStartsComplete | process/process.go:184-193 | A run in which each admitted check is followed at once by append and Add has bottom-up completion, and lists as above, in every state. |
| ProcessCompletion.LateStartBreaksCompletion | process/process.go:184-193 | Reachable states with a Done parent and an open child in its list, once appended and not counted, once counted. |
| ProcessCompletion.DoneCanStillList | process/process.go:204-205 | A state of an ordinary run in which a Done process still lists a done child. |
| ProcessTree.StepKeepsInv | process/process.go:177-230 | Every step keeps counters, lists and watcher states consistent. |
| ProcessTree.ChildBookkeeping | process/process.go:188-219 | In every reachable state the WaitGroup counter is the number of watchers not past Done, it never goes negative, and the list of a process holds each registered child exactly once and nothing else. |
| ProcessReach.CheckAdmitsIff | process/process.go:184-186 | The check of StartChild refuses a child exactly if its parent is not open. |
| ProcessReach.StartChildNeverBlocks | process/process.go:177-193 | A StartChild under way always has its next step open, whatever its parent does meanwhile. |
| ProcessReach.ClientsMayCall | process/process.go:177-186 | A child may be started under any process, closing or not, and Close called on exactly the open ones. |
| ProcessReach.EveryShapeIsReachable | process/process.go:177-221 | Every finite forest of processes, of any depth and branching, can be started, all open and watched. |
| ProcessReach.NothingClosesUnasked | process/process.go:195-202 | In every run a process is closing or closed only if a client called Close on it or on one of its ancestors. |
| ProcessReach.PhasesInOrder | process/process.go:46-70 | No step skips or takes back a phase of Close. |
| ProcessReach.SignalReachesChildren | process/process.go:50-57 | Once chClosing is closed, before OnClosing returns, every watcher still in its select can go on. |
| ProcessReach.WatcherWaits | process/process.go:195-202 | The watcher gets out of child.Close() and past child.Done() only when the child is closed. |
| Processes.Process.ChildDone | process/process.go:204-205 | In every reachable state running.Done does not panic and takes away the child. |
| Processes.Process.RemoveSub | process/process.go:206-219 | The removal loop over the array leaves the list of the tree's step. |
| Processes.OthersStillShow | process/process.go:46-227 | A step leaves what every other process's object shows as it is. |
| ChildLists.ChildList.Append | process/process.go:190 | Appends, keeping the order of the others. |
| ChildLists.ChildList.Remove | process/process.go:207-219 | The shift-and-truncate loop computes the specification function in place and clears the freed cells. |
| ChildLists.ChildList.TakeOut | process/process.go:212-214 | One shift moves the tail over one cell and leaves every other cell alone. |
| ChildLists.PrunedRemovesOne | process/process.go:209-217 | From a list without duplicates the loop removes exactly the child and keeps the order of the others. |
| ChildLists.PrunedClearsIff | process/process.go:210-217 | On any list, every occurrence is removed if and only if no two are adjacent. |
| BufMaps.NewMapRefinesMap | bufs/map.go:16-63 | From a new map, any sequence of Gets, fewer than 2^64 Puts, and Removes that no other entry's path crosses, returns from every call and answers as a plain map keyed by byte strings, for any hash function, with collisions and uint64 wrap-around. |
| BufMaps.RunRefinesMap | bufs/map.go:23-63 | From any valid state the same, as long as the calls return. |
| BufMaps.RoomEndsProbe | bufs/map.go:52-60 | With fewer than 2^64 entries the probe ends. |
| BufMaps.ProbeStopsAtFirst | bufs/map.go:47-63 | The loop stops at the first slot, counting up from the hash modulo 2^64, that is free or holds the key. |
| BufMaps.ApplyRefines | bufs/map.go:23-45 | The same for one operation, with the map it leaves. |
| BufMaps.LookupIsAbs | bufs/map.go:24-27 | From a valid state a probe that ends finds exactly the entry of the plain map. |
| BufMaps.PutIsMapUpdate | bufs/map.go:30-35 | Writing at the slot where the probe stopped is map update and keeps the probe invariant. |
| BufMaps.DivergesIff | bufs/map.go:47-63 | The probe loop does not end if and only if all 2^64 slots are taken, none by the key. |
| BufMaps.RemoveIsMapDeletionIff | bufs/map.go:38-45 | Freeing a slot answers every key as map deletion does if and only if no other entry's path crosses the slot, and exactly then the invariant survives. |
| BufMaps.FindAfterRemove | bufs/map.go:38-45 | A surviving entry is found in its slot as before, or, exactly if its path crosses the freed slot, missed there. |
| BufMaps.EmptyNextSlotSuffices | bufs/map.go:52-60 | An empty next slot makes removal safe. |
| BufMaps.RemoveCanLoseAnotherEntry | bufs/map.go:38-45 | Two colliding keys: removing the first makes the second unfindable though it is still stored. |
| BufMaps.BufMap.FindSlot | bufs/map.go:47-63 | The probe loop with wrapping `atHash` computes the specified outcome. |
| BufMaps.BufMap.Get | bufs/map.go:24-27 | Returns the entry of the plain map, or None. |
| BufMaps.BufMap.Put | bufs/map.go:30-35 | Updates the plain map, keeps the invariant, returns the replaced entry. |
| BufMaps.BufMap.Remove | bufs/map.go:38-45 | Returns the entry and frees exactly its slot. |
| Base32.RoundTrip | bufs/encoding.go:14-18 | Decoding the encoding of any byte string gives it back. |
| Base32Bits.EncodeIsBitwise | bufs/encoding.go:14-18 | Character i of the encoding is the one that the alphabet has at the number formed by bits 5i to 5i+4 of the bytes, zero bits following the last byte. |
| Base32Bits.DecodeIsBitwise | bufs/encoding.go:96-107 | Byte i of a decoded string is the number formed by bits 8i to 8i+7 of the places of its characters in the alphabet. |
| Base32Bits.DecodeRefuses | bufs/encoding.go:96-107 | Refused are exactly strings with a character outside the alphabet, and else those with a final group of 1, 3 or 6 characters. |
| Base32.ReencodeIff | bufs/encoding.go:96-107 | A decodable string is the encoding of its value if and only if its leftover bits are zero. |
| Base32.LengthIdentity | bufs/encoding.go:86-97 | floor(5*ceil(8n/5)/8) = n, so the decode buffer is exact. |
| Base32.EncodeSplits | bufs/encoding.go:84-88 | A leading group of five bytes is encoded on its own, so encoding can run left to right. |
| Base32.SymbolInverse | bufs/encoding.go:14 | The alphabet maps 5-bit groups and characters one to one. |
| Base32Buffers.SmartMarshalToBase32 | bufs/encoding.go:65-91 | Returns exactly when the final buffer holds the encoded length, with the pure encoding of the item, in the caller's buffer if that is large enough for the sizing formula and in a fresh one otherwise. |
| Base32Buffers.EncodeInPlace | bufs/encoding.go:84-88 | Encoding left to right over the source bytes at the right end of the same buffer gives the pure encoding whenever the buffer up to the end of the source holds it. |
| Base32Buffers.GroupProgress | bufs/encoding.go:84-88 | One group written leaves every unread byte in place and extends the encoded prefix. |
| Base32Buffers.WritingStaysBehind | bufs/encoding.go:84-85 | The characters written never reach the first unread byte. |
| Base32Buffers.FitsEveryBufferIff | bufs/encoding.go:69-73 | The sizing formula suffices for every caller's buffer if and only if n <= 17 or n is 19, 20, 22 or 25; 18 bytes fail with a buffer of 28. |
| Base32Buffers.FitsFreshBufferIff | bufs/encoding.go:69-73 | For exactly which sizes an allocated buffer is large enough, and that a reused one is exactly if it holds the encoded length. |
| Base32Buffers.SizesAre | bufs/encoding.go:69-72 | The sizing formula is four bytes for every three begun and four more, and an allocated buffer is that rounded up to eight. |
| Base32Buffers.SmartDecodeFromBase32 | bufs/encoding.go:96-107 | Decodes into the caller's buffer if it is large enough and into a fresh one otherwise, with the decoder's value or error. |
| HexText.BytesValue.MarshalText | bufs/encoding.go:139-145 | Writes 0x and two lower-case digits a byte into a fresh buffer. |
| HexText.BytesValue.UnmarshalText | bufs/encoding.go:156-166 | Stores the parsed bytes, or leaves the target unchanged when the text is rejected. |
| HexText.BytesValue.UnmarshalJSON | bufs/encoding.go:148-153 | The same through a quoted string, with a separate error for anything unquoted. |
| HexText.RoundTrip | bufs/encoding.go:139-166 | Reading what was written gives the bytes back, as text and inside a JSON string. |
| HexText.TextIs | bufs/encoding.go:139-145 | The text is 0x, then for each byte its high and its low digit out of 0123456789abcdef. |
| HexText.ParseAccepts | bufs/encoding.go:156-166 | Accepted are exactly the texts with an even number of characters out of 0-9, a-f and A-F behind an optional 0x or 0X. |
| HexText.ParseReads | bufs/encoding.go:156-166 | Each byte read is sixteen times the value of its first digit plus the value of its second. |
| HexText.JsonIs | bufs/encoding.go:190-192 | A JSON value is read exactly between its quotes, and refused as a non-string exactly without them. |
| HexText.ParseIff | bufs/encoding.go:156-166 | Accepted is exactly an even number of hex digits of either case behind an optional 0x or 0X; writing the value again gives the lower-case prefixed form. |
| HexText.SameValueIff | bufs/encoding.go:205-215 | Two accepted inputs mean the same bytes if and only if they agree up to prefix and case. |
| WaitGroupChans.Serve | utils/channels.go:50-81 | In every run chWait is closed at most once, at the first event that is the context's end, the stop, or a request whose running total is not positive; each taken request gets exactly one reply, an error exactly if the total is negative or release came before; the server returns exactly at the events that end it. |
| WaitGroupChans.ReleasedByTheLastDone | utils/channels.go:90-118 | After Add(n) the n-th Done releases the waiters and none before it does. |
| WaitGroupCallers.CallsReturnUnlessOneFailed | utils/channels.go:90-118 | With any callers of Add and Done interleaved, their and the server's steps are bounded, and where none is left a call still under way is an Add, another call has panicked on an error reply, and neither the context has ended nor Close was called. |
| WaitGroupCallers.LateCallIsStuckIff | utils/channels.go:90-118 | A call in its select when the server takes no more requests is stuck if and only if it is an Add, the context has not ended and Close was not called. |
| WaitGroupCallers.AddCanBeStuck | utils/channels.go:90-104 | A reachable state in which nothing can move and an Add is stuck: after one Done too many. |
| WaitGroupCallers.OnePanicAtMost | utils/channels.go:66-80 | In every reachable state at most one call has panicked on an error reply; it is the last one the server took, and the reply is the one that the history of requests calls for. |
| WaitGroupCallers.WaitClosedIff | utils/channels.go:52-80 | While the server serves, chWait is closed if and only if an event has released. |
| WaitGroupCallers.WaitersAreReleasedIff | utils/channels.go:52-80 | Where nothing can move, chWait is closed exactly if an event has released, and always once the context has ended or Close was called. |
| WaitGroupCallers.SignalsFreeCalls | utils/channels.go:94-118 | A call in its select gets out without the server when the context ends or Close is called, and a Done, but not an Add, when chWait is closed. |
| WaitGroupCallers.ServerEndsAtItsEnd | utils/channels.go:52-80 | With any callers, no event but the last one that the server took ends it, and the server is past its loop exactly if the last one does. |
| WaitGroupCallers.CounterIsAddsMinusDones | utils/channels.go:69-78 | Until release the counter is the sum of the Adds taken minus the number of Dones taken, and positive once any was taken. |
| WaitGroupCallers.RefusedIff | utils/channels.go:90-93 | In every run a call is turned away exactly if it is an Add that comes after a call of Wait. |
| WaitGroupChans.ReleaseHappens | utils/channels.go:52-77 | As soon as any event can release, exactly one first release exists. |

## Left out

- `log`, `errors`, `testutils`, HTTP, certificates, file helpers and timers: wrappers without a property beyond single branches.
- `FileSize` text form: goes through floating point and two-decimal rounding, so it has no exact round trip.
- `CombinedContext`, `ContextFromChan`, `ChanContext`: reflection over library contexts.
- Close, StartChild and the watcher as single methods: they block and interleave, so class `Process` has one method for each of their steps, and the order of the steps is the tree's `Enabled`.
- Process trees in which a process is started as a child before its parent was initialised, re-initialised, or started twice; panicking callbacks; Close called from its own callbacks.
- Process labels, logging, `ExportContextTree` and `Err`: derived views of the state. Process numbers are indices instead of a wrapping 64-bit counter.
- OnContextInit returning an error: Process's own never does.
- Autoclose and functions run by Go: they are clients that may call Close at any time, or never.
- The pool's lock during a tick: a tick is split into one step per item, which allows more interleavings than the code; `PoolSafety.TickIsRun` covers the unsplit tick.
- Pool times are integers and the clock is monotone; items keep their ID; ForceRetry is called with known ids and RetryLater and Complete by the holder only, as the worker loop does; fairness of the semaphore library is not modelled.
- `poolWorker.Close` closing its process twice over and the order of closing pool and workers: shutdown is one flag after which workers and deliverer may stop; ticks may or may not go on.
- The base 32 and hex library code is not part of this model: encoders and decoders are written from RFC 4648. Text with a final group of 1, 3 or 6 characters, about which the RFC is silent, is an error here; newlines are not skipped; after an error nothing is claimed about the decoded prefix.
- Marshalling errors of an item in SmartMarshalToBase32 (the code panics), and `SmartMarshal`, `Zero`, `Buf`, `BufDesc`.
- The error values of hex decoding: rejected is one case; `wrapTypeError` never applies, because no parse error has its type.
- The hash of BufMap is an arbitrary pure function; nil entries are not modelled.
- A second Close of WaitGroupChan, which panics on the closed channel.
- Base32Buffers.SmartDecodeFromBase32: final groups of 1, 3 or 6 characters are errors, newlines are not skipped, and nothing is said of the buffer after an error, because RFC 4648 is silent on them and the library's decoder is not part of this model.
- WaitGroupChans.ReleasedByTheLastDone: one Add followed by its Dones; for any interleaving of callers see the first release of `Serve` and the lemmas of `WaitGroupCallers`.
