# Controller firmware: proofs about its stateful parts

A Dafny model of the parts of a building controller's firmware in which an invariant
has to survive every interleaving, every power loss or every wrap of a counter, with
proofs of what those parts promise. `dafny verify dfyconfig.toml` checks all of it.

- **Flash store** (`FlashTable`, `FlashImage`, `FlashWrite`, `FlashCollect`, `FlashRun`,
  `FlashWear`, `FlashStore`). An append-only log of id/value entries in one of two flash
  blocks. Everything is expressed as single-byte programs and block erases, so that power
  can fail between any two of them. The main results are that a write is atomic under
  power loss, that garbage collection and boot recovery keep the stored map at every
  point at which they can be cut, that any run refines a plain map as long as each write
  finds room (`FlashRun.RunRefinesMap`), and exactly when one does. The class
  `FlashStore.Store` is the code itself on two byte arrays; each of its methods is shown
  to perform exactly the steps the crash theorems are about.
- **Kernel lists** (`ListOrder`, `HeapList`). The intrusive circular list on the heap,
  and the round-robin order of its rotating index as a value.
- **Queues** (`RingQueue`, `QueueProtocol`, `QueueSafety`, `QueueOrder`, `QueueCalls`,
  `QueueDelivery`, `QueueCounterexamples`). The byte ring as a double-ended queue; tasks
  blocking on it while interrupts send and receive, as a state machine whose steps are
  the critical sections; no lost wake-up, exactly which steps keep that, and two
  concrete runs for the steps that do not; exactly when a call is served, refused, blocked
  or out of time; delivery in order over every interleaving, on the byte ring itself.
- **Recursive mutexes** (`RecursiveMutex`, `RecursiveMutexCalls`). Ownership when the
  recursion count is loaded and stored outside any critical section; a call of the holder
  gets through in every interleaving, and one that comes back with nothing had a reason.
- **Event groups** (`EventGroups`, `EventGroupLaws`, `EventGroupCalls`, `Rendezvous`).
  Wait for any or all bits, clear on exit, where every bit comes from and goes to, and the
  rendezvous of any number of tasks in any order, any number of times.
- **Co-routines** (`CoRoutineLists`, `CoRoutines`, `CoRoutineSteps`, `CoRoutineEvents`,
  `CoRoutineRuns`, `CoRoutineWakes`, `CoRoutineSleepers`, `CoRoutineTurns`,
  `CoRoutineOvertaking`, `CoRoutineMoves`, `CoRoutineScheduler`). Ready, delay, overflow,
  pending and event lists. A state machine whose steps are the moves between lists, with
  interrupts before and after each; over every run of it no co-routine is lost or readied
  twice, each wakes exactly at its time across tick wraps, those with one wake time in the
  order they went to sleep, an event readies the highest priority, the highest ready
  priority runs, and nobody waits for ever behind its equals. The class
  `CoRoutineScheduler.Scheduler` is the code with its loops; it logs its steps, and its
  state is always the one the machine reaches by them, so those theorems hold of it.
- **Arithmetic cores** (`ModbusCrc`, `Thermistor`, `RelayPwm`). The table-driven CRC
  against the shift-and-xor definition of section 6.2.2 of the MODBUS over Serial Line
  Specification and Implementation Guide V1.02, and the errors it detects; the halving
  table search against a linear scan and its interpolation against the straight line; the
  duty cycle of the relay outputs against the share of the period they stand for.

## What turned out not to hold

Each of these is proved, with the exact condition under which the code does what it
should:

- A flash write that needs a collection which leaves 511 live entries writes outside
  the block; the two checks for room do not refuse it (`FlashRun.PutStaysInside`,
  `FlashRun.RunStep`). `FlashWear.WornOut` is a run that gets there, with 257 interrupted
  writes; runs with at most 256 of them cannot (`FlashRun.FewCutsFit`).
- An id of 254 is stored under the mark of an unfinished entry and killed at once. It
  can be read back only if an interrupted write has left such an entry, which is then
  killed in its place (`FlashRun.WriteThenRead`).
- The 128th interrupt on a locked queue wraps its 8-bit lock count and the wake-ups are
  forgotten (`QueueSafety.StepExact`, `QueueCounterexamples.OverflowStrands`).
- Resetting a queue wakes one blocked sender however much room it makes
  (`QueueSafety.ResetKeeps`, `QueueCounterexamples.ResetStrands`).
- Overwriting a full semaphore counts one message more than it holds
  (`RingQueue.Queue.CopyDataToQueue`).
- The frame check passes its length as one byte, so longer Modbus frames are covered in
  part only (`ModbusCrc.OneByteRejected`, `ModbusCrc.ChangeUnnoticed`).
- Co-routines of one priority do not always take turns in the order they became ready.
  One in line is overtaken exactly when another joins while the index stands on it
  (`CoRoutineOvertaking.OvertakenExactly`), as in the run of
  `CoRoutineOvertaking.OutOfTurn`; how often is bounded (`CoRoutineTurns.BoundedBypass`).
- The thermistor search never looks at the last segment of a table and returns zero
  for raw values strictly inside it (`Thermistor.GetInputValueByRange`,
  `Thermistor.FiveIsMissed`).
- A relay at the full raw value of 1023 is still off for one tick in every period
  (`RelayPwm.DutyIsExact`, `RelayPwm.FullIsOffOnce`).

Where the code and its comments differ, the code is modelled. The comment at
`arm/FreeRTOS/croutine.c:297-301` says that an event moves the generic item of a
co-routine to the pending list; the code moves the event item, and the proofs rest on
that. The comment at `arm/FLASH/flashstore.c:357` announces an erase whose call is
commented out; see below.

## Model

| member | source | states |
|---|---|---|
| `FlashTable.HoldsUnique` | arm/FLASH/flashstore.c:168-172 | the bytes of a block determine its entries: what stepping over entries finds is the only table the bytes can hold |
| `FlashTable.ContentsIsLast` | arm/FLASH/flashstore.c:545-551 | an id has a value exactly when some entry carries it, and the value is that of the last such entry |
| `FlashTable.KillShadowed` | arm/FLASH/flashstore.c:603-610 | marking an entry as old when a later one has the same id changes no value, so any number of leftover duplicates is harmless |
| `FlashTable.LiveOnlyKeepsContents` | arm/FLASH/flashstore.c:372-377 | dropping replaced and half-programmed entries keeps the id-to-value map, and as many entries remain as were live |
| `FlashTable.AllLive` | arm/FLASH/flashstore.c:372-377 | a compressed table no shorter than the original is the original, so a tie between the blocks is harmless |
| `FlashTable.LiveBound` | arm/FLASH/flashstore.c:180-190 | at most 254 entries can be live besides duplicates, one for each id |
| `FlashTable.ProgramSize` | arm/FLASH/flashstore.c:483-491 | once only its size byte is programmed an entry is one that is skipped: the table is well formed again |
| `FlashTable.ProgramField` | arm/FLASH/flashstore.c:497-512 | programming the id or a value byte of an entry changes that field of that entry and nothing else in the table |
| `FlashImage.SoleBlock` | arm/FLASH/flashstore.c:275-290 | with one block marked in use, that block alone decides what the store means, whatever the other holds |
| `FlashWrite.WriteBytes` | arm/FLASH/flashstore.c:489-517 | after each single byte program of a write the block holds exactly the table that program should leave |
| `FlashWrite.WriteContents` | arm/FLASH/flashstore.c:483-517 | the id byte is the commit point: the old map before it, the new map from it on, and at most one duplicate between it and the kill |
| `FlashWrite.WriteCrashAtomic` | arm/FLASH/flashstore.c:453-522 | power lost after any number of the byte programs of a write: the next boot finds the old map or the new one, decided by the fourth program alone |
| `FlashWrite.WriteCompletes` | arm/FLASH/flashstore.c:453-522 | a completed write leaves the new map and a write pointer on blank flash |
| `FlashWrite.WriteLegal` | arm/FLASH/flashstore.c:483-517 | no byte of a write is programmed unless it is erased or becomes zero |
| `FlashCollect.CopyHolds` | arm/FLASH/flashstore.c:364-412 | the collector copies exactly the live entries in their order, never programming a byte that is not erased |
| `FlashCollect.GcCrashSafe` | arm/FLASH/flashstore.c:344-442 | after any number of steps of a collection recovery finds the same id-to-value map: in the old table until the copy is marked, and in the compressed one from then on |
| `FlashCollect.GcBothMarked` | arm/FLASH/flashstore.c:251-273 | a collection cut between its two marks, with both blocks in use, always boots into the compressed table |
| `FlashCollect.GcCompletes` | arm/FLASH/flashstore.c:414-441 | a completed collection leaves the compressed table in the other block, alone in use, with the pointer at its end |
| `FlashCollect.GcLegal` | arm/FLASH/flashstore.c:364-436 | the collector never programs a byte that is not erased, except to zero |
| `FlashCollect.BootCrashSafe` | arm/FLASH/flashstore.c:226-304 | recovery keeps the map even when cut short itself, for none, one or both blocks marked in use, and completed it leaves a store ready for use |
| `FlashCollect.ReadKeeps` | arm/FLASH/flashstore.c:603-627 | the kills a read makes while it scans lose no value, add no live entry and leave the newest match alone |
| `FlashCollect.ReadCut` | arm/FLASH/flashstore.c:611-627 | a read cut short is a complete read of a shorter table |
| `FlashCollect.ReadCrashSafe` | arm/FLASH/flashstore.c:591-640 | a read, complete or cut short anywhere, keeps the map, and does not touch the entry it reports |
| `FlashRun.PutCrashAtomic` | arm/FLASH/flashstore.c:749-783 | a write with the collection it may need, cut after any step, leaves the old map or the new one |
| `FlashRun.PutCompletes` | arm/FLASH/flashstore.c:749-783 | completed, it leaves the new map, a store ready for the next write and no new duplicate |
| `FlashRun.PutLegal` | arm/FLASH/flashstore.c:749-783 | neither part programs a byte that needs an erase |
| `FlashRun.PutStaysInside` | arm/FLASH/flashstore.c:180-190 | a write stays inside its block exactly when the table is not full or at most 510 entries are live; the checks for room never refuse the remaining case |
| `FlashRun.WriteThenRead` | arm/FLASH/flashstore.c:465-466 | from any table, reading an id just written reports the value written, unless the id is 254 and no interrupted write has left an unfinished entry: exactly then it does not |
| `FlashRun.ReadReports` | arm/FLASH/flashstore.c:629-639 | a read reports the stored value, or that there is none, for ids 0 to 253 |
| `FlashRun.StepSafe` | arm/FLASH/flashstore.c:209-783 | boot, read and write (one that finds room), each complete or cut after any step, keep a recoverable image and act on the id-to-value map as an atomic store would; only a cut write can add a duplicate |
| `FlashRun.RunStep` | arm/FLASH/flashstore.c:180-190 | an operation in a recoverable state is safe (acts on the map, reads it right, is not refused, programs only its device and only erased bytes) if and only if it is not a write to a full block with 511 live entries |
| `FlashRun.RunRecoverable` | arm/FLASH/flashstore.c:209-783 | from a blank device every run whose writes find room, cut by power loss anywhere and any number of times, ends recoverable, with no more duplicates than writes were cut |
| `FlashRun.RunRefinesMap` | arm/FLASH/flashstore.c:209-783 | along every such run each operation acts on an abstract map, reads report what it holds, no write is refused and no flash byte is reprogrammed without an erase |
| `FlashRun.FirstUnsafe` | arm/FLASH/flashstore.c:180-190 | after any such run the next operation is safe exactly when it finds room |
| `FlashRun.SpaceBound` | arm/FLASH/flashstore.c:180-190 | after any such run at most 254 entries are live beyond the number of writes cut |
| `FlashRun.FewCutsFit` | arm/FLASH/flashstore.c:180-190 | with at most 256 writes cut in the life of the device every write finds room |
| `FlashRun.UncutSpace` | arm/FLASH/flashstore.c:344-442 | with no write cut there is never more than one live entry per id, and a collected table takes at most 1 + 4 * 254 bytes |
| `FlashWear.WornOut` | arm/FLASH/flashstore.c:180-190 | a concrete run in which 257 writes are cut: all of it is safe, it ends with 511 live entries, and every next write programs flash behind the end of its block |
| `FlashStore.Store.ProgramByte` | arm/FLASH/flashstore.c:491-493 | one byte of one block changes; the caller must show it is erased or becomes zero |
| `FlashStore.Store.SetBlock` | arm/FLASH/flashstore.c:209-328 | boots from any recoverable image and any RAM: chooses the block, performs just the recovery steps, finds the top of the table, keeps the map |
| `FlashStore.Store.ChooseBlock` | arm/FLASH/flashstore.c:226-304 | of two blocks in use the one with the smaller table is kept, the second when equal; performs exactly the recovery steps |
| `FlashStore.Store.FindTop` | arm/FLASH/flashstore.c:235-247 | stepping over entries ends just behind the last one |
| `FlashStore.Store.FindOld` | arm/FLASH/flashstore.c:473-479 | finds the first entry with the id, or reports none |
| `FlashStore.Store.WriteNoRecovery` | arm/FLASH/flashstore.c:453-522 | performs exactly the byte programs the crash theorems are about, and leaves the new map |
| `FlashStore.Store.WriteInt` | arm/FLASH/flashstore.c:749-783 | the map gains the value; the steps performed are those the crash theorems are about |
| `FlashStore.Store.CollectGarbage` | arm/FLASH/flashstore.c:344-442 | performs exactly the collector steps, keeps the map and leaves only live entries |
| `FlashStore.Store.ReadInt` | arm/FLASH/flashstore.c:591-640 | reports the last entry with the id, performs exactly the kills of older ones and keeps the map |
| `FlashStore.Store.Append` | arm/FLASH/flashstore.c:489-517 | programs size, value, id and the kill of the old entry, in that order and nothing else |
| `FlashStore.Store.ScanLast` | arm/FLASH/flashstore.c:611-627 | the scan ends on the last match and has killed exactly the earlier ones |
| `FlashStore.Store.CopyLive` | arm/FLASH/flashstore.c:364-412 | copies the live entries one by one and nothing else, and ends behind the copy |
| `FlashStore.Store.HandOver` | arm/FLASH/flashstore.c:414-439 | the copy is marked in use before the old block is marked invalid |
| `FlashStore.Store.MakeRoom` | arm/FLASH/flashstore.c:760-773 | collects exactly when the table is full, keeps the map and leaves room |
| `ListOrder.VisitsPrefix` | arm/FreeRTOS/list.c:126-136 | n steps of the rotating index visit the first n items of the visiting order and rotate it by n |
| `ListOrder.RoundRobin` | arm/FreeRTOS/include/list.h:302-329 | over as many steps as there are items each is visited exactly once, and the next round has the same order |
| `ListOrder.InsertEndOrder` | arm/FreeRTOS/list.c:116-142 | an item inserted at the end is visited after every other item, except the one the index stands on |
| `ListOrder.RemoveOrder` | arm/FreeRTOS/list.c:212-238 | removing any item, even the one the index stands on, leaves the visiting order of the others unchanged |
| `ListOrder.InsertThenRemove` | arm/FreeRTOS/list.c:145-238 | removing what was just inserted restores the list and its index |
| `ListOrder.InsertEndThenRemove` | arm/FreeRTOS/list.c:116-238 | the same for insertion at the end |
| `ListOrder.Position` | arm/FreeRTOS/list.c:164-197 | the place chosen is before the first larger value, and the very end for the largest value of all |
| `ListOrder.SortedInsert` | arm/FreeRTOS/list.c:145-209 | insertion keeps a sorted list sorted and puts the newcomer behind all equal values |
| `HeapList.List.constructor` | arm/FreeRTOS/list.c:79-101 | an empty circle: the end marker linked to itself, the index on it |
| `HeapList.Item.constructor` | arm/FreeRTOS/list.c:104-113 | a new item is in no list |
| `HeapList.List.PutEnd` | arm/FreeRTOS/list.c:116-142 | next and previous links stay inverse around the circle, the count and the container agree, and the item is inserted just before the index |
| `HeapList.List.FindPlace` | arm/FreeRTOS/list.c:164-197 | the search ends for every value, including the largest, at the sorted place |
| `HeapList.List.Put` | arm/FreeRTOS/list.c:145-209 | the circle stays well formed and, if sorted, sorted, with the item behind all equal values |
| `HeapList.List.Take` | arm/FreeRTOS/list.c:212-238 | the circle stays well formed without the item, an index on it steps back, and the number left is returned |
| `HeapList.List.Next` | arm/FreeRTOS/include/list.h:318-329 | the index moves to the first item of the visiting order, skipping the end marker |
| `HeapList.List.LinkBeforeIndex` | arm/FreeRTOS/list.c:129-136 | four link updates splice the item into the circle before the index |
| `HeapList.List.LinkAfter` | arm/FreeRTOS/list.c:199-202 | four link updates splice it in after a given item |
| `HeapList.List.Unlink` | arm/FreeRTOS/list.c:218-219 | two link updates take it out of the circle |
| `RingQueue.WrapIsModulo` | arm/FreeRTOS/queue.c:1717-1742 | moving a pointer on with a comparison at the end is arithmetic modulo the queue length |
| `RingQueue.AppendAt` | arm/FreeRTOS/queue.c:1717-1729 | writing the slot at the write pointer appends to the items after the read pointer |
| `RingQueue.PrependAt` | arm/FreeRTOS/queue.c:1730-1742 | writing the slot at the read pointer and stepping it back puts an item in front |
| `RingQueue.StoreSlot` | arm/FreeRTOS/queue.c:1719-1732 | copying one item into its bytes changes one slot and no other |
| `RingQueue.Queue.constructor` | arm/FreeRTOS/queue.c:432-472 | a new queue of any length and item size is empty |
| `RingQueue.Queue.Reset` | arm/FreeRTOS/queue.c:285-292 | a reset queue is empty and its pointers are consistent |
| `RingQueue.Queue.CopyDataToQueue` | arm/FreeRTOS/queue.c:1697-1773 | back appends, front prepends, overwriting replaces, for any item size; the count stays within the length exactly unless a full semaphore is overwritten, which leaves it one above |
| `RingQueue.Queue.CopyDataFromQueue` | arm/FreeRTOS/queue.c:1776-1791 | the read pointer moves to the next slot, whose item is copied out |
| `RingQueue.Queue.Send` | arm/FreeRTOS/queue.c:750-753 | accepted if and only if there is room or the item overwrites; the items change as a double-ended queue, unless a full semaphore is overwritten, which leaves the count one above |
| `RingQueue.Queue.Receive` | arm/FreeRTOS/queue.c:1264-1311 | delivers the oldest item and removes it, or on a peek leaves everything as it was |
| `RingQueue.Queue.ServeAll` | arm/FreeRTOS/queue.c:1697-1791 | any run of sends to the back, receives and peeks on the byte array: the items received, then those still in it, are those in it at first, then those accepted |
| `QueueDelivery.CountsItems` | arm/FreeRTOS/queue.c:723-1428 | in every step of tasks and interrupts, overwriting and resets included, the message count is the number of items in the storage |
| `QueueDelivery.CompletedMeans` | arm/FreeRTOS/queue.c:1697-1791 | what a completed call does to the items: a send puts its item at the end it names or in the place of the only one, a receive takes the first, a peek none |
| `QueueDelivery.DeliveredInOrder` | arm/FreeRTOS/queue.c:723-1521 | in every interleaving of tasks and interrupts (no resets, no overwriting, no sends to the front) nothing is lost, duplicated or reordered |
| `QueueDelivery.Execute` | arm/FreeRTOS/queue.c:723-1521 | the calls of any interleaving made on the byte array, at either end, overwriting and resets included: it holds the items of the run, as many as the protocol counts, and without those three they come out in order |
| `QueueSafety.MoveKeeps` | arm/FreeRTOS/queue.c:860-916 | suspending the scheduler, locking, looking at the clock, testing again and resuming keep the invariant |
| `QueueSafety.WakeReceiversKeep` | arm/FreeRTOS/queue.c:1806-1875 | the first unlocking loop takes one receiver off the head of its list for each counted send and no more, or all there are; each of them counts as woken |
| `QueueSafety.WakeSendersKeep` | arm/FreeRTOS/queue.c:1880-1906 | the second does the same for senders |
| `QueueSafety.AttemptKeeps` | arm/FreeRTOS/queue.c:744-858 | the critical section at the top of a call, successful or not, keeps both halves of the no-lost-wake-up invariant |
| `QueueSafety.PlaceKeeps` | arm/FreeRTOS/queue.c:878-882 | joining an event list keeps it: everything that arrived since the queue was locked is in the lock count |
| `QueueSafety.UnlockKeeps` | arm/FreeRTOS/queue.c:1794-1911 | each of the two critical sections of unlocking keeps it |
| `QueueSafety.InterruptKeeps` | arm/FreeRTOS/queue.c:964-1058 | sends and receives from interrupts keep it, with the queue locked or not, unless a lock count overflows |
| `QueueSafety.TimeoutKeeps` | arm/FreeRTOS/queue.c:874-916 | a blocked task that times out costs nobody else a wake-up |
| `QueueSafety.ResetKeeps` | arm/FreeRTOS/queue.c:279-329 | a reset keeps the receivers' half, and the senders' half exactly when at most one sender is blocked or the wake-ups under way cover the room made |
| `QueueSafety.StepKeeps` | arm/FreeRTOS/queue.c:723-1911 | every step without such an overflow keeps the receivers' half, and the senders' half unless it is a harmful reset |
| `QueueSafety.StepExact` | arm/FreeRTOS/queue.c:723-1521 | exactly which steps keep the invariant: all but an interrupt that takes an 8-bit lock count past 127 and a reset that wakes too few senders |
| `QueueSafety.RunSafe` | arm/FreeRTOS/queue.c:723-1911 | in every reachable state without such an overflow: while a receiver is blocked, messages <= receivers woken and not yet run + sends counted while locked; and symmetrically for senders |
| `QueueSafety.NoLostWakeup` | arm/FreeRTOS/queue.c:723-1911 | with the queue unlocked and no wake-up pending, blocked receivers mean an empty queue and blocked senders a full one |
| `QueueOrder.PlacedInOrder` | arm/FreeRTOS/tasks.c:2820-2834 | a task joins an event list behind all of its own or a higher priority and before all others |
| `QueueOrder.RunOrdered` | arm/FreeRTOS/tasks.c:2827-2831 | in every run both event lists stay in priority order |
| `QueueOrder.HighestPriorityWoken` | arm/FreeRTOS/tasks.c:2902-2914 | whoever an event takes off a list has a priority at least that of everyone left on it |
| `QueueOrder.UnlockSends` | arm/FreeRTOS/queue.c:1802-1877 | the loop with its break performs exactly the unlocking step of the protocol |
| `QueueOrder.UnlockReceives` | arm/FreeRTOS/queue.c:1879-1910 | the same for the second loop |
| `QueueCalls.AttemptEnds` | arm/FreeRTOS/queue.c:744-858 | an attempt ends the call if and only if there is room (or a message), the item overwrites, or the call may not block; unserved it changes nothing but its own place |
| `QueueCalls.AttemptServes` | arm/FreeRTOS/queue.c:750-839 | a served call moves one message and wakes the first task, and only the first, of those waiting for what it leaves behind |
| `QueueCalls.InterruptOutcome` | arm/FreeRTOS/queue.c:964-1058 | an interrupt is served under the same conditions; on an unlocked queue it wakes the first waiting task, on a locked one it is counted in eight bits instead |
| `QueueCalls.ResetOutcome` | arm/FreeRTOS/queue.c:279-329 | a reset empties and unlocks the queue and wakes the first blocked sender alone |
| `QueueCalls.TimeoutOutcome` | arm/FreeRTOS/queue.c:874-916 | a timeout takes its task off the list it waits on and leaves every other in its place |
| `QueueCalls.CallEnds` | arm/FreeRTOS/queue.c:723-916 | exactly when a call ends: served, refused when it may not block, or out of time, a receiver only if there is still nothing at its last look |
| `QueueCalls.UnservedEnds` | arm/FreeRTOS/queue.c:843-852 | a call that ends unserved leaves messages, event lists and lock counts as they are |
| `QueueCalls.GoesToWait` | arm/FreeRTOS/queue.c:876-882 | a task goes to join an event list exactly when the queue is full (empty) for it at that very step |
| `QueueCalls.NeverBlocks` | arm/FreeRTOS/queue.c:843-852 | in every run a task whose calls all have no block time is never waiting, on no event list, and never has the scheduler suspended |
| `QueueCalls.ServedAtOnce` | arm/FreeRTOS/queue.c:744-841 | a call by itself that finds room (or a message) returns at once |
| `QueueCalls.RefusedAtOnce` | arm/FreeRTOS/queue.c:843-852 | one that does not and has no block time returns at once with nothing changed |
| `QueueCalls.Blocks` | arm/FreeRTOS/queue.c:860-898 | one that does not and has time ends up waiting, in its place by priority on the event list, with the queue unlocked and the scheduler running |
| `QueueCalls.Expires` | arm/FreeRTOS/queue.c:907-916 | one whose time is over when it looks at the clock returns with nothing changed |
| `QueueCalls.HelpedInTime` | arm/FreeRTOS/queue.c:900-906 | an interrupt that makes room, or brings a message, before the caller looks again keeps it from waiting: it tries again and is served |
| `QueueCounterexamples.OverflowStrands` | arm/FreeRTOS/queue.c:1053-1055 | a concrete run: 128 interrupts while the queue is locked wrap the count, and a receiver stays blocked beside 128 messages |
| `QueueCounterexamples.ResetStrands` | arm/FreeRTOS/queue.c:294-305 | a concrete run: a reset with two senders blocked leaves one of them blocked beside a free slot |
| `RecursiveMutex.StepExact` | arm/FreeRTOS/queue.c:572-662 | every interleaved load, store and critical section keeps single ownership, except a store that wraps the 32-bit count: exactly those steps keep it |
| `RecursiveMutex.OnlyHolderCounts` | arm/FreeRTOS/queue.c:587-592 | only the holder ever changes the recursion count, although it does so outside any critical section |
| `RecursiveMutex.ReleasedOnLastGive` | arm/FreeRTOS/queue.c:594-600 | the mutex becomes free on exactly the give that brings the holder's gives level with its takes, and never passes straight to another task |
| `RecursiveMutex.OneOwner` | arm/FreeRTOS/queue.c:579-592 | a task that has taken more than it gave shuts every other task out |
| `RecursiveMutex.RunOwned` | arm/FreeRTOS/queue.c:476-662 | in every run the mutex is free (one message, no holder, count 0) or has exactly one holder |
| `RecursiveMutex.RunCounts` | arm/FreeRTOS/queue.c:572-662 | between calls the count is the number of takes less the number of gives of the holder |
| `RecursiveMutexCalls.TakesFree` | arm/FreeRTOS/queue.c:622-662 | a take of a free mutex, by its own instructions alone, returns with the mutex held one deep |
| `RecursiveMutexCalls.TakesOwn` | arm/FreeRTOS/queue.c:634-638 | a take of a mutex already held, nested less deep than the count can tell, returns one deeper |
| `RecursiveMutexCalls.GivesOwn` | arm/FreeRTOS/queue.c:572-616 | a give by the holder returns one less deep, with the mutex free if and only if the depth was one |
| `RecursiveMutexCalls.ComesBackWithNothing` | arm/FreeRTOS/queue.c:607-655 | a call comes back without effect exactly when a take gives up waiting while another task holds the mutex, or a give is made by a task that does not hold it |
| `RecursiveMutexCalls.WaitEnds` | arm/FreeRTOS/queue.c:1264-1285 | a waiting take gets the mutex at its next instruction if and only if the mutex is free |
| `RecursiveMutexCalls.HolderGetsThrough` | arm/FreeRTOS/queue.c:572-662 | in every interleaving a call of the holder has succeeded after at most three (take) or five (give) instructions of its own, whatever others do in between |
| `EventGroups.ItemValueReadsBack` | arm/FreeRTOS/event_groups.c:89-102 | the mask and the control bits packed into a list item read back, and no waiting item looks unblocked |
| `EventGroups.ClearedIsUnion` | arm/FreeRTOS/event_groups.c:585-593 | the bits a set operation clears are the union of the bits of the clear-on-exit tasks it releases |
| `EventGroups.KeptExactly` | arm/FreeRTOS/event_groups.c:566-607 | exactly the waiters not satisfied by old|set stay, each as often as before |
| `EventGroups.FreedExactly` | arm/FreeRTOS/event_groups.c:595-600 | exactly the satisfied ones are released, each with the bits that satisfied it |
| `EventGroups.OrderIrrelevant` | arm/FreeRTOS/event_groups.c:556-613 | bits left, waiters kept and tasks released, with their values and as often, do not depend on the order of the list |
| `EventGroups.StepQuiet` | arm/FreeRTOS/event_groups.c:208-508 | no call leaves a waiter blocked whose condition is met |
| `EventGroups.RunQuiet` | arm/FreeRTOS/event_groups.c:208-616 | in every reachable state no task on the list has its wait condition met by the current bits |
| `EventGroupLaws.MetMeans` | arm/FreeRTOS/event_groups.c:687-716 | the wait condition holds if and only if every bit of the mask is set, or any of them is |
| `EventGroupLaws.WaitObeys` | arm/FreeRTOS/event_groups.c:336-407 | a satisfied wait takes just its own bits if it clears on exit and changes nothing otherwise; an unsatisfied one changes no bits and adds, exactly if it may block, one item that reads back its arguments |
| `EventGroupLaws.ReturnObeys` | arm/FreeRTOS/event_groups.c:428-450 | a task back from a wait that timed out takes just its own bits, exactly if it clears and its condition has come to be met |
| `EventGroupLaws.ClearObeys` | arm/FreeRTOS/event_groups.c:472-496 | clearing takes just the bits given and leaves every other bit and all waiting tasks |
| `EventGroupLaws.SetObeys` | arm/FreeRTOS/event_groups.c:530-622 | setting releases exactly the tasks satisfied by old and new bits together, each to return those bits; the bits left are those without the masks of the released that clear on exit |
| `EventGroupLaws.SyncObeys` | arm/FreeRTOS/event_groups.c:224-270 | a rendezvous sets its bits as any task would, then takes just its mask or joins the list to wait for all of it |
| `EventGroupLaws.TimeoutObeys` | arm/FreeRTOS/event_groups.c:428-433 | a timeout takes all and only the items of its task off the list, unchanged |
| `EventGroupLaws.WaitsUntil` | arm/FreeRTOS/event_groups.c:556-608 | exactly which calls take a waiting task off the list: those that set bits which satisfy it, and its own timeout |
| `EventGroupLaws.BitExact` | arm/FreeRTOS/event_groups.c:208-622 | every bit after every call: it was set or the call sets it, and neither the call nor a task it releases takes it |
| `EventGroupLaws.TakenInBetween` | arm/FreeRTOS/event_groups.c:208-622 | in every run a bit that has gone was taken in between by a call, or a released task, that names it |
| `EventGroupLaws.SetInBetween` | arm/FreeRTOS/event_groups.c:208-622 | in every run a bit that has come was set in between by a call that names it |
| `EventGroupCalls.EventGroup.Matches` | arm/FreeRTOS/event_groups.c:563-583 | the two branches on the control bits decide the wait condition of the item |
| `EventGroupCalls.EventGroup.Visit` | arm/FreeRTOS/event_groups.c:556-608 | one turn of the walk releases the item and unlinks it, or moves past it |
| `EventGroupCalls.EventGroup.SetBits` | arm/FreeRTOS/event_groups.c:530-622 | the walk that unlinks items as it goes does to the group what filtering the whole list at once does: it releases just the satisfied and takes just the bits of those that clear |
| `EventGroupCalls.EventGroup.WaitBits` | arm/FreeRTOS/event_groups.c:324-407 | blocks exactly when the condition is not met and waiting is allowed; a satisfied wait that clears leaves every bit outside its mask, and the value returned is that before any clearing |
| `EventGroupCalls.EventGroup.Sync` | arm/FreeRTOS/event_groups.c:208-270 | sets, then either completes the rendezvous and clears the mask or joins the list waiting for all of it |
| `EventGroupCalls.EventGroup.Return` | arm/FreeRTOS/event_groups.c:428-465 | a released task returns its bits without the control bits; one that timed out looks once more |
| `EventGroupCalls.EventGroup.ClearBits` | arm/FreeRTOS/event_groups.c:472-496 | clears the bits given and no other, and returns them as they were |
| `Rendezvous.NoneReturnsEarly` | arm/FreeRTOS/event_groups.c:224-262 | for any number of tasks with bits of their own and any order of arrival, all before the last block and none is released |
| `Rendezvous.AllReturnTogether` | arm/FreeRTOS/event_groups.c:208-321 | when the last arrives all return the same bits, containing the whole mask and no control bits, and bits and waiting list are left as they were found, whoever was released before |
| `Rendezvous.AllMeetingsMeet` | arm/FreeRTOS/event_groups.c:208-321 | any number of meetings in a row on one group, each with its own tasks, order and mask, all go like that |
| `CoRoutineLists.DetachKeeps` | arm/FreeRTOS/list.c:212-238 | removing an item from the list it says it is in keeps every item in at most one list, and touches no other list |
| `CoRoutineLists.AttachKeeps` | arm/FreeRTOS/list.c:116-209 | inserting an item that is in no list keeps that too |
| `CoRoutines.OnePlace` | arm/FreeRTOS/croutine.c:109-116 | every generic and every event item is in just the list it names, once |
| `CoRoutines.InterruptKeeps` | arm/FreeRTOS/croutine.c:370-392 | an event moves the event item at the head of the list to the end of the pending list; all other event items, every generic item and all times are untouched |
| `CoRoutines.UndelayKeeps` | arm/FreeRTOS/croutine.c:285-303 | leaving a delay list takes the event item out of the event or the pending list with it, keeping the invariant |
| `CoRoutines.MakeReadyKeeps` | arm/FreeRTOS/croutine.c:109-116 | readying puts the co-routine at the end of the list of its priority and keeps the top priority a bound |
| `CoRoutines.EmptyAtSwap` | arm/FreeRTOS/croutine.c:272-281 | the current delay list is empty whenever the tick count wraps and the lists are swapped |
| `CoRoutines.TickOverKeeps` | arm/FreeRTOS/croutine.c:267-281 | a tick with its swap keeps every wake time in the list for its lap |
| `CoRoutineRuns.StepOk` | arm/FreeRTOS/croutine.c:239-392 | every step of the scheduler, every call of a co-routine and every interrupt between two critical sections keeps the invariant: each co-routine in one place, times in the list for their lap, event lists in priority order; and moves nobody but its subject |
| `CoRoutineRuns.RunOk` | arm/FreeRTOS/croutine.c:144-392 | so in every reachable state |
| `CoRoutineWakes.WakesOnTime` | arm/FreeRTOS/croutine.c:262-317 | in every run, a co-routine delayed until w with no event of its own happening, on an event list or not, is delayed at every state before w and ready when the timeouts of tick w have just been dealt with, across any number of wraps |
| `CoRoutineWakes.DelayIsExact` | arm/FreeRTOS/croutine.c:201-317 | the same from the call: a delay of d asked for at some time ends exactly d ticks later |
| `CoRoutineWakes.NeverLate` | arm/FreeRTOS/croutine.c:239-317 | whatever events happen, a delayed co-routine has been readied by its wake time |
| `CoRoutineWakes.EventServed` | arm/FreeRTOS/croutine.c:239-259 | a co-routine whose event has happened has been readied by the time the scheduler next goes on to the timeouts |
| `CoRoutineWakes.EventReadiesHighest` | arm/FreeRTOS/croutine.c:370-392 | in every run an event readies a co-routine of the highest priority among those waiting for it |
| `CoRoutineWakes.RunsHighest` | arm/FreeRTOS/croutine.c:328-341 | in every run the choice is the next in turn among the ready of the highest priority, and nothing is chosen only when nothing is ready |
| `CoRoutineSleepers.DelayedBehind` | arm/FreeRTOS/croutine.c:201-228 | a co-routine that goes to sleep stands in its delay list behind all that wake no later and before the rest |
| `CoRoutineSleepers.KeepsBehind` | arm/FreeRTOS/croutine.c:262-317 | in every run, with no event of its own, a sleeper is not taken off its delay list before the one ahead of it with the same wake time has been readied |
| `CoRoutineSleepers.SleepersWakeInOrder` | arm/FreeRTOS/croutine.c:201-317 | in every run, of two co-routines with the same wake time the one that went to sleep first is ready first, unless an event readies the other |
| `CoRoutineTurns.BoundedBypass` | arm/FreeRTOS/croutine.c:339-341 | in every run, until a ready co-routine is chosen others of its priority get at most twice as many turns as there are co-routines, and no more than stand between the index and it when the index is before it |
| `CoRoutineTurns.NewcomerAhead` | arm/FreeRTOS/croutine.c:109-116 | joining a list puts a newcomer ahead of a member in the visiting order exactly when the index stands on that member |
| `CoRoutineOvertaking.OvertakenExactly` | arm/FreeRTOS/croutine.c:239-347 | in any state of a run, a step other than its turn puts a ready co-routine back in its line exactly when another joins that line while the index stands on it |
| `CoRoutineOvertaking.NewcomerOvertakes` | arm/FreeRTOS/croutine.c:201-236 | when the running co-routine, on which the index stands, delays itself, the next newcomer of its priority goes ahead of the one before it in the list, which was in line before the newcomer existed |
| `CoRoutineOvertaking.OutOfTurn` | arm/FreeRTOS/croutine.c:339-341 | a concrete run: co-routine 0 is in line before 2 is created and all the while after, yet 2 is chosen first |
| `CoRoutines.DelayKeeps` | arm/FreeRTOS/croutine.c:201-236 | the wake time is exactly d ticks ahead, in the list for this lap or the next; nothing already due is left behind if and only if d > 0 |
| `CoRoutines.ZeroDelayStrays` | arm/FreeRTOS/croutine.c:208-228 | a delay of no ticks at the last tick of a lap would end in the list for the next lap with its wake time past |
| `CoRoutineEvents.HighestIsReadied` | arm/FreeRTOS/croutine.c:375-379 | with its list in priority order an event readies a co-routine whose priority is at least that of every other one waiting for it |
| `CoRoutineEvents.AttachRanked` | arm/FreeRTOS/croutine.c:230-235 | event lists stay in priority order when a co-routine joins one, or any other list |
| `CoRoutineEvents.DetachRanked` | arm/FreeRTOS/croutine.c:291-303 | and when one leaves any list |
| `CoRoutineSteps.TopIsHighest` | arm/FreeRTOS/croutine.c:328-337 | whoever is in the ready list at the top priority has the highest priority of all the ready |
| `CoRoutineSteps.HeadAhead` | arm/FreeRTOS/croutine.c:283-293 | a head not yet due means nobody in the delay list is |
| `CoRoutineMoves.MovedRun` | arm/FreeRTOS/croutine.c:239-392 | over any stretch of scheduling, with interrupts: the ready stay ready, a delayed co-routine keeps its time and its event or is readied, and that only because its time has come or its event has happened |
| `CoRoutineScheduler.Scheduler.constructor` | arm/FreeRTOS/croutine.c:350-368 | empty lists are the start of a run |
| `CoRoutineScheduler.Scheduler.RemoveFromEventList` | arm/FreeRTOS/croutine.c:370-392 | the head of the event list goes to the end of the pending list; nothing else changes |
| `CoRoutineScheduler.Scheduler.Interrupts` | arm/FreeRTOS/croutine.c:370-392 | any number of those: each event item stays where it is or moves from its event list to the pending list because its event happened |
| `CoRoutineScheduler.Scheduler.ReleasePending` | arm/FreeRTOS/croutine.c:248-257 | one co-routine with its event pending is readied, with interrupts between its three moves; others are left alone |
| `CoRoutineScheduler.Scheduler.ReleaseDue` | arm/FreeRTOS/croutine.c:291-311 | the head of the delay list, due, is readied, with interrupts between leaving its lists and joining the ready list |
| `CoRoutineScheduler.Scheduler.Create` | arm/FreeRTOS/croutine.c:144-198 | a new co-routine starts in the ready list of its priority, capped at the highest; places, times and priorities of the others stay |
| `CoRoutineScheduler.Scheduler.CheckPendingReadyList` | arm/FreeRTOS/croutine.c:239-259 | ends with nothing pending; readies exactly those whose event was pending or happened meanwhile, no time having passed |
| `CoRoutineScheduler.Scheduler.TickOnce` | arm/FreeRTOS/croutine.c:267-313 | one tick later: of the delayed exactly those due are ready, the others keep their time and, unless it happened, their event |
| `CoRoutineScheduler.Scheduler.CheckDelayedList` | arm/FreeRTOS/croutine.c:262-317 | the same over any number of passed ticks, wrapping or not |
| `CoRoutineScheduler.Scheduler.Choose` | arm/FreeRTOS/croutine.c:328-341 | picks the next in turn among the ready of the highest priority, or reports that none is ready; moves nobody |
| `CoRoutineScheduler.Scheduler.Schedule` | arm/FreeRTOS/croutine.c:320-347 | a whole pass, interrupts included: whose event was pending or whose time has come is ready, everyone else readied had an event happen, all others keep place, time, event and priority; and the choice is the next in turn among the ready of the highest priority |
| `CoRoutineScheduler.Scheduler.AddToDelayedList` | arm/FreeRTOS/croutine.c:201-236 | the running co-routine is delayed until exactly d ticks from now, and waits for the event if one is given; places, times, events and priorities of the others stay |
| `ModbusCrc.TablesCorrect` | common/modbus.c:423-460 | the two tables together hold, for every byte, what eight shift-and-xor steps with 0xA001 make of it |
| `ModbusCrc.TableStep` | common/modbus.c:490-492 | one table look-up does the work of those eight steps on the whole register |
| `ModbusCrc.Crc16` | common/modbus.c:481-495 | for every message of up to 255 bytes the result is the bitwise CRC with initial value 0xFFFF, in the transmitted byte order |
| `ModbusCrc.MainCrc.constructor` | common/modbus.c:464-468 | the running CRC starts as the CRC of nothing |
| `ModbusCrc.MainCrc.Byte` | common/modbus.c:471-477 | after every byte the running CRC is that of all bytes so far |
| `ModbusCrc.DifferenceLasts` | common/modbus.c:488-493 | two different registers stay different whatever bytes follow |
| `ModbusCrc.StepDifference` | common/modbus.c:490-492 | the CRC is linear: differences of messages run through it by themselves |
| `ModbusCrc.OneByteDetected` | common/modbus.c:481-495 | messages that differ in one byte never share a CRC |
| `ModbusCrc.TwoBytesDetected` | common/modbus.c:481-495 | equal-length messages that differ within two adjacent bytes never share a CRC |
| `ModbusCrc.BurstDetected` | common/modbus.c:481-495 | nor do messages that differ in a burst of at most 16 consecutive bits |
| `ModbusCrc.CheckFrame` | common/modbus.c:2424-2432 | the final comparison; up to 257 bytes it accepts exactly the frames over which the CRC ends at zero |
| `ModbusCrc.AcceptIffClear` | common/modbus.c:2424-2428 | a frame of at most 257 bytes passes if and only if the CRC of all of it, CRC bytes included, is zero |
| `ModbusCrc.BurstRejected` | common/modbus.c:2424-2432 | a burst of at most 16 bits anywhere in an accepted frame of at most 257 bytes gets it rejected |
| `ModbusCrc.TwoBytesRejected` | common/modbus.c:2424-2432 | so does any change within two adjacent bytes |
| `ModbusCrc.OneByteRejected` | common/modbus.c:2424 | the length is passed as one byte: changing a byte of an accepted frame goes unnoticed exactly when it lies beyond the (size - 2) mod 256 covered bytes and before the last two |
| `ModbusCrc.ChangeUnnoticed` | common/modbus.c:2424 | a frame that shows it: 258 bytes of 0xFF are accepted, whatever the first is changed to |
| `ModbusCrc.OddErrorDetected` | common/modbus.c:481-495 | messages of one length that differ in an odd number of bits, however far apart, never share a CRC |
| `ModbusCrc.OddErrorRejected` | common/modbus.c:2424-2432 | an accepted frame of at most 257 bytes is rejected when any odd number of its bits change |
| `Thermistor.TiesAgree` | IO_control/inputs.c:130-140 | two segments that share a raw value interpolate it alike |
| `Thermistor.ReadingWithin` | IO_control/inputs.c:134-142 | the reading stays between the limits of the range |
| `Thermistor.ReadingFalls` | IO_control/inputs.c:107-162 | the larger the raw value the lower (or equal) the reading |
| `Thermistor.ReadingNearLine` | IO_control/inputs.c:134-142 | in each segment the reading is the straight line through its two knots, less than the rounding of the two divisions below it and never above it |
| `Thermistor.RangesFit` | IO_control/inputs.c:19-69 | all five tables strictly decrease, and sixteen steps of tab_int span the limits of all ten ranges |
| `Thermistor.Search` | IO_control/inputs.c:107-162 | for every strictly decreasing table the halving search ends with the reading a linear scan gives, on the straight line between the knots but for rounding, or with zero strictly inside the last segment |
| `Thermistor.GetInputValueByRange` | IO_control/inputs.c:107-162 | exactly when raw is not strictly inside the last segment the result, taken as signed, is the reading: the limits outside the knots, the straight line between them but for rounding; there the code returns zero |
| `Thermistor.FiveIsMissed` | IO_control/inputs.c:107-162 | a value that shows it: raw 5 in the first range reads at least 138 degrees and is returned as zero |
| `RelayPwm.InRangeAfterOneTick` | common/Output.c:1780-1785 | one tick after any change of period the counter is in range again |
| `RelayPwm.DutyIsExact` | common/Output.c:1780-1794 | with the value held, the number n of ticks on which the loop has the relay on, in every window of P + 1 consecutive ticks, satisfies n * 1023 <= P * raw < (n + 1) * 1023 (or n is all of them), from any counter value and after any earlier period |
| `RelayPwm.DutyGrows` | common/Output.c:1787 | a larger raw value never has the relay on for fewer ticks of a period |
| `RelayPwm.OnlyZeroSwitchesOn` | common/Output.c:1780-1794 | the relay comes on only as the count restarts at zero: the ticks with it on come first in a period, without a gap |
| `RelayPwm.FullIsOffOnce` | common/Output.c:1780-1794 | the full raw value has the relay on for P of every P + 1 ticks |
| `RelayPwm.RefreshedCounts` | common/Output.c:1780-1794 | tick by tick the loop switches an analog output on exactly when the counted ticks say so |
| `RelayPwm.CountFits` | common/Output.c:1287-1288 | neither the 16-bit counter nor the 32-bit product can overflow |
| `RelayPwm.Relays.Refresh` | common/Output.c:1768-1796 | the loop over ten outputs moves each analog count on by one in its period and has the relay on while (count + 1) * 1023 <= P * raw, has each digital one on in the upper half of 0 to 1023, and lets no output touch another |

## Left out

- `FlashCollect.GcCrashSafe`: takes the erase at `arm/FLASH/flashstore.c:357-361` as
  performed and as one step, because without it the copy would land on used flash.
- `FlashImage.SoleBlock`: absolute addresses, block numbers and their shifts (which
  disagree between the functions) are abstracted to two block arrays.
- `FlashStore.Store.ProgramByte`: programming one byte is atomic and does not fail, so
  the retry loops run once and the error returns are not modelled.
- `FlashStore.Store.WriteInt`: requires at most 510 live entries, because what lies behind
  the end of a block is not modelled; `FlashRun.PutStaysInside` and `FlashRun.RunStep` prove
  that the bound is exact for a full block, and `FlashWear.WornOut` that it can be exceeded.
- `FlashStore.Store.ReadInt`: `flash_read_char` differs from it only in the byte it
  returns and is not modelled separately.
- `QueueSafety.RunSafe`: timeouts are nondeterministic; tick counts, the ready lists and
  task switching of `arm/FreeRTOS/tasks.c` are not modelled, and neither is liveness.
- `QueueDelivery.CountsItems`: overwriting counts as for a queue with data; what it does to
  a full semaphore is proved of `RingQueue.Queue.Send` alone.
- `QueueDelivery.DeliveredInOrder`: resets, overwriting and sends to the front do not keep
  the order; `QueueDelivery.Execute` covers what they do to the items.
- `QueueOrder.RunOrdered`: the priority of a blocked task does not change; priority
  inheritance is not modelled.
- Queue sets, the queue registry, tracing, static against dynamic allocation and deletion.
- `RecursiveMutex.RunOwned`: a task waiting for the mutex retries; the event lists behind
  the wait are those of the queue protocol.
- `EventGroupCalls.EventGroup.SetBits`: returns the bits as the call leaves them; the
  source reads them again after the scheduler has been resumed.
- Setting and clearing event bits from interrupts, which the kernel hands to a task, and
  deleting an event group.
- `CoRoutineScheduler.Scheduler.Interrupts`: an interrupt is a removal from an event list;
  the queue data such an interrupt moves is that of `RingQueue`.
- `CoRoutineScheduler.Scheduler.RemoveFromEventList`: leaves out the returned hint whether
  the co-routine readied outranks the running one.
- `CoRoutineScheduler.Scheduler.AddToDelayedList`: excludes a delay of no ticks, as the
  macros that call it do; `CoRoutines.ZeroDelayStrays` shows what it would do.
- `ModbusCrc.CheckFrame`: models the last comparison of checkData; the earlier tests of
  the function code and the six-byte online check are not part of this model.
- `Thermistor.GetInputValueByRange`: a range outside 1 to 10 indexes beyond the tables
  and is excluded.
- `RelayPwm.Relays.Refresh`: the relay word is an array of bits; writing it to the pins,
  and the other board variants of the same loop, are left out.
- The register dispatch, drivers, user interface and network services of the firmware.
