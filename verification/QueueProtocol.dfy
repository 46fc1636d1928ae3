/** Tasks blocking on a FreeRTOS queue while interrupts keep using it
    (arm/FreeRTOS/queue.c, with the event-list part of tasks.c): the protocol as a state
    machine whose steps are the critical sections of the source. */
module QueueProtocol {

  // --- int8_t lock counts ---

  const UNLOCKED := -1

  /** `(int8_t) (c + 1)` */
  function Inc8(c: int): int {
    if c == 127 then -128 else c + 1
  }

  function Pending(c: int): nat {
    if c > 0 then c else 0
  }

  // --- tasks ---

  datatype Kind = Sender | Receiver

  datatype Call = Send(overwrite: bool) | Receive(peek: bool) {
    function Kind(): Kind { if Send? then Sender else Receiver }
  }

  /** What a task does once it has let go of the queue. */
  datatype Then = Block | Retry | Expired

  datatype Pc =
    | Idle          // not in a queue call
    | Try           // about to enter the critical section at the top of the loop
    | Failed        // found the queue full or empty; about to suspend the scheduler
    | Suspended     // about to lock the queue
    | Locked        // about to look at the clock
    | Unexpired     // about to test the queue again
    | Placing       // found it still full or empty; about to join the event list
    | UnlockTx(a: Then)
    | UnlockRx(a: Then)
    | Resume(a: Then)
    | LastLook      // a receiver out of time looks at the queue once more
    | Waiting       // blocked, until another step takes it off the event list

  /** `woken`: taken off an event list by an event and not yet back in the critical
      section at the top of its loop. */
  datatype Task = Task(call: Call, pc: Pc, woken: bool, priority: nat)

  /** `owner` has suspended the scheduler; -1 when it runs. */
  datatype State = State(
    length: nat, n: nat, tx: int, rx: int,
    toSend: seq<nat>, toReceive: seq<nat>,
    tasks: seq<Task>, owner: int)

  predicate HasSchedulerSuspended(pc: Pc) {
    match pc
    case Suspended | Locked | Unexpired | Placing => true
    case UnlockTx(_) | UnlockRx(_) | Resume(_) => true
    case _ => false
  }

  // --- event lists ---

  /** Where vListInsert puts a task: behind all of its own or a higher priority. */
  function Rank(tasks: seq<Task>, list: seq<nat>, t: nat): (p: nat)
    ensures p <= |list|
  {
    if list == [] || Priority(tasks, list[0]) < Priority(tasks, t) then 0 else 1 + Rank(tasks, list[1..], t)
  }

  function PlaceByPriority(tasks: seq<Task>, list: seq<nat>, t: nat): seq<nat> {
    var p := Rank(tasks, list, t);
    list[..p] + [t] + list[p..]
  }

  function Priority(tasks: seq<Task>, t: nat): nat {
    if t < |tasks| then tasks[t].priority else 0
  }

  function MarkWoken(tasks: seq<Task>, t: nat): seq<Task> {
    if t < |tasks| then tasks[t := tasks[t].(woken := true)] else tasks
  }

  /** xTaskRemoveFromEventList on the receivers, if there are any. */
  function WakeReceiver(s: State): State {
    if s.toReceive == [] then s
    else s.(toReceive := s.toReceive[1..], tasks := MarkWoken(s.tasks, s.toReceive[0]))
  }

  function WakeSender(s: State): State {
    if s.toSend == [] then s
    else s.(toSend := s.toSend[1..], tasks := MarkWoken(s.tasks, s.toSend[0]))
  }

  /** The first loop of prvUnlockQueue: one receiver for every count. */
  function WakeReceivers(s: State, count: int): State
    decreases |s.toReceive|
  {
    if count > 0 && s.toReceive != [] then WakeReceivers(WakeReceiver(s), count - 1) else s
  }

  function WakeSenders(s: State, count: int): State
    decreases |s.toSend|
  {
    if count > 0 && s.toSend != [] then WakeSenders(WakeSender(s), count - 1) else s
  }

  // --- steps ---

  datatype Event =
    | Begin(t: nat, call: Call)
    | Attempt(t: nat, mayBlock: bool)
    | SuspendAll(t: nat)
    | Lock(t: nat)
    | Clock(t: nat, expired: bool)
    | Test(t: nat)
    | Place(t: nat)
    | Unlock(t: nat)            // one of the two critical sections of prvUnlockQueue
    | ResumeAll(t: nat)
    | Look(t: nat)
    | Dispatch(t: nat)          // a task no longer on an event list runs on
    | Timeout(t: nat)
    | Reset
    | IsrSend(overwrite: bool)  // also xQueueGiveFromISR
    | IsrReceive

  function At(s: State, t: nat, pc: Pc): State {
    if t < |s.tasks| then s.(tasks := s.tasks[t := s.tasks[t].(pc := pc)]) else s
  }

  /** Tasks other than the one that suspended the scheduler do not run. */
  predicate Runs(s: State, t: nat) {
    t < |s.tasks| && (s.owner == -1 || s.owner == t)
  }

  predicate HasRoom(s: State, call: Call) {
    match call
    case Send(overwrite) => s.n < s.length || overwrite
    case Receive(_) => s.n > 0
  }

  /** Number of messages after prvCopyDataToQueue. */
  function Added(n: nat, overwrite: bool): nat {
    if overwrite && n > 0 then n else n + 1
  }

  /** The critical section at the top of xQueueGenericSend and xQueueGenericReceive. */
  function Attempted(s: State, t: nat, mayBlock: bool): State
    requires t < |s.tasks|
  {
    var task := s.tasks[t];
    var rest := s.(tasks := s.tasks[t := task.(woken := false, pc := if HasRoom(s, task.call)
          || !mayBlock then Idle else Failed)]);
    if !HasRoom(s, task.call) then rest
    else match task.call
      case Send(overwrite) => WakeReceiver(rest.(n := Added(s.n, overwrite)))
      case Receive(peek) => if peek then WakeReceiver(rest) else WakeSender(rest.(n := s.n - 1))
  }

  function Placed(s: State, t: nat): State
    requires t < |s.tasks|
  {
    var s' := At(s, t, UnlockTx(Block));
    if s.tasks[t].call.Send? then s'.(toSend := PlaceByPriority(s.tasks, s.toSend, t))
    else s'.(toReceive := PlaceByPriority(s.tasks, s.toReceive, t))
  }

  function Unlocked(s: State, t: nat): State
    requires t < |s.tasks|
  {
    match s.tasks[t].pc
    case UnlockTx(a) => WakeReceivers(At(s, t, UnlockRx(a)), s.tx).(tx := UNLOCKED)
    case UnlockRx(a) => WakeSenders(At(s, t, Resume(a)), s.rx).(rx := UNLOCKED)
    case _ => s
  }

  function Resumed(s: State, t: nat): State
    requires t < |s.tasks|
  {
    match s.tasks[t].pc
    case Resume(a) =>
      At(s.(owner := -1), t, match a
                             case Block => Waiting
                             case Retry => Try
                             case Expired => if s.tasks[t].call.Send? then Idle else LastLook)
    case _ => s
  }

  function Drop(list: seq<nat>, t: nat): seq<nat> {
    if list == [] then [] else if list[0] == t then list[1..] else [list[0]] + Drop(list[1..], t)
  }

  function Interrupted(s: State, e: Event): State {
    match e
    case IsrSend(overwrite) =>
      if !(s.n < s.length || overwrite) then s
      else var s' := s.(n := Added(s.n, overwrite));
        if s.tx == UNLOCKED then WakeReceiver(s') else s'.(tx := Inc8(s.tx))
    case IsrReceive =>
      if s.n == 0 then s
      else var s' := s.(n := s.n - 1);
        if s.rx == UNLOCKED then WakeSender(s') else s'.(rx := Inc8(s.rx))
    case _ => s
  }

  /** xQueueGenericReset on a queue in use. */
  function WasReset(s: State): State {
    WakeSender(s.(n := 0, tx := UNLOCKED, rx := UNLOCKED))
  }

  predicate Enabled(s: State, e: Event) {
    match e
    case Begin(t, _) => Runs(s, t) && s.tasks[t].pc == Idle
    case Attempt(t, _) => Runs(s, t) && s.tasks[t].pc == Try && MayCall(s, s.tasks[t].call)
    case SuspendAll(t) => Runs(s, t) && s.tasks[t].pc == Failed
    case Lock(t) => Runs(s, t) && s.tasks[t].pc == Suspended
    case Clock(t, _) => Runs(s, t) && s.tasks[t].pc == Locked
    case Test(t) => Runs(s, t) && s.tasks[t].pc == Unexpired
    case Place(t) => Runs(s, t) && s.tasks[t].pc == Placing
    case Unlock(t) => Runs(s, t) && (s.tasks[t].pc.UnlockTx? || s.tasks[t].pc.UnlockRx?)
    case ResumeAll(t) => Runs(s, t) && s.tasks[t].pc.Resume?
    case Look(t) => Runs(s, t) && s.tasks[t].pc == LastLook
    case Dispatch(t) => Runs(s, t) && s.tasks[t].pc == Waiting && t !in s.toSend && t !in s.toReceive
    case Timeout(t) => t < |s.tasks| && s.owner == -1 && s.tasks[t].pc == Waiting
    case Reset => s.owner == -1
    case IsrSend(overwrite) => MayCall(s, Send(overwrite))
    case IsrReceive => true
  }

  /** Only a queue of length one may be overwritten: asserted on entry. */
  predicate MayCall(s: State, call: Call) {
    call.Send? && call.overwrite ==> s.length == 1
  }

  /** A step that is not enabled leaves the state as it is. */
  function Next(s: State, e: Event): State {
    if !Enabled(s, e) then s
    else match e
      case Begin(t, call) => At(s.(tasks := s.tasks[t := s.tasks[t].(call := call)]), t, Try)
      case Attempt(t, mayBlock) => Attempted(s, t, mayBlock)
      case SuspendAll(t) => At(s, t, Suspended).(owner := t)
      case Lock(t) => At(s, t, Locked).(tx := if s.tx == UNLOCKED then 0
            else s.tx, rx := if s.rx == UNLOCKED then 0 else s.rx)
      case Clock(t, expired) => At(s, t, if expired then UnlockTx(Expired) else Unexpired)
      case Test(t) => At(s, t, if Full(s, s.tasks[t].call) then Placing else UnlockTx(Retry))
      case Place(t) => Placed(s, t)
      case Unlock(t) => Unlocked(s, t)
      case ResumeAll(t) => Resumed(s, t)
      case Look(t) => At(s, t, if s.n == 0 then Idle else Try)
      case Dispatch(t) => At(s, t, Try)
      case Timeout(t) => s.(toSend := Drop(s.toSend, t), toReceive := Drop(s.toReceive, t))
      case Reset => WasReset(s)
      case IsrSend(_) | IsrReceive => Interrupted(s, e)
  }

  /** prvIsQueueFull for a sender, prvIsQueueEmpty for a receiver. */
  predicate Full(s: State, call: Call) {
    match call
    case Send(_) => s.n == s.length
    case Receive(_) => s.n == 0
  }

  /** The state after the first k events of a run. */
  function After(s: State, events: seq<Event>, k: nat): State
    requires k <= |events|
  {
    if k == 0 then s else Next(After(s, events, k - 1), events[k - 1])
  }
}
