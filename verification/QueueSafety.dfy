/** No lost wake-up on a FreeRTOS queue: what every step of the protocol keeps. */
module QueueSafety {
  import opened Common
  import opened QueueProtocol

  // --- the invariant ---

  /** The task has joined an event list in this call. */
  predicate HasJoined(pc: Pc) {
    match pc
    case UnlockTx(a) => a == Block
    case UnlockRx(a) => a == Block
    case Resume(a) => a == Block
    case Waiting => true
    case _ => false
  }

  predicate TaskOk(task: Task, owns: bool) {
    && (HasSchedulerSuspended(task.pc) <==> owns)
    && (task.woken ==> HasJoined(task.pc) || task.pc == Try)
  }

  predicate TasksOk(tasks: seq<Task>, owner: int) {
    forall t :: 0 <= t < |tasks| ==> TaskOk(tasks[t], owner == t)
  }

  predicate Listed(tasks: seq<Task>, t: nat, kind: Kind) {
    t < |tasks| && HasJoined(tasks[t].pc) && !tasks[t].woken && tasks[t].call.Kind() == kind
  }

  predicate ListOk(tasks: seq<Task>, list: seq<nat>, kind: Kind) {
    Distinct(list) && forall i :: 0 <= i < |list| ==> Listed(tasks, list[i], kind)
  }

  /** How the lock counts go with the place the owner of the scheduler has reached.
      A task about to join an event list knows that everything that has arrived (or
      left) since the queue was locked is in the lock count. */
  predicate LockOk(s: State) {
    if s.owner == -1 then s.tx == UNLOCKED && s.rx == UNLOCKED
    else 0 <= s.owner < |s.tasks| && LockedFor(s, s.tasks[s.owner].pc, s.tasks[s.owner].call)
  }

  predicate LockedFor(s: State, pc: Pc, call: Call) {
    match pc
    case Locked | Unexpired => s.tx >= 0 && s.rx >= 0
    case Placing => s.tx >= 0 && s.rx >= 0 && (if call.Send? then s.length - s.n <= s.rx else s.n <= s.tx)
    case UnlockTx(_) => s.tx >= 0 && s.rx >= 0
    case UnlockRx(_) => s.tx == UNLOCKED && s.rx >= 0
    case _ => s.tx == UNLOCKED && s.rx == UNLOCKED
  }

  predicate ListsOk(s: State) {
    && TasksOk(s.tasks, s.owner)
    && ListOk(s.tasks, s.toSend, Sender)
    && ListOk(s.tasks, s.toReceive, Receiver)
  }

  predicate Shape(s: State) {
    0 < s.length && s.n <= s.length && ListsOk(s) && LockOk(s)
  }

  /** Tasks of a kind woken but not yet back in the critical section. */
  function Woken(tasks: seq<Task>, kind: Kind): nat {
    if tasks == [] then 0
    else Woken(tasks[..|tasks| - 1], kind) + (if IsWoken(tasks[|tasks| - 1], kind) then 1 else 0)
  }

  predicate IsWoken(task: Task, kind: Kind) {
    task.woken && task.call.Kind() == kind
  }

  /** While a receiver is blocked, every message has a wake-up on its way. */
  predicate ReceiversSafe(s: State) {
    s.toReceive != [] ==> s.n <= Woken(s.tasks, Receiver) + Pending(s.tx)
  }

  /** While a sender is blocked, every free slot has a wake-up on its way. */
  predicate SendersSafe(s: State) {
    s.toSend != [] ==> s.length - s.n <= Woken(s.tasks, Sender) + Pending(s.rx)
  }

  // --- counting ---

  lemma {:induction false} WokenUpdate(tasks: seq<Task>, t: nat, x: Task, kind: Kind)
    requires t < |tasks|
    ensures Woken(tasks[t := x], kind) == Woken(tasks, kind)
              - (if IsWoken(tasks[t], kind) then 1 else 0) + (if IsWoken(x, kind) then 1 else 0)
  {
    var n := |tasks| - 1;
    if t == n {
      assert tasks[t := x][..n] == tasks[..n];
    } else {
      assert tasks[t := x][..n] == tasks[..n][t := x];
      WokenUpdate(tasks[..n], t, x, kind);
    }
  }

  // --- changing one task ---

  lemma OtherListKept(tasks: seq<Task>, list: seq<nat>, kind: Kind, t: nat, x: Task)
    requires ListOk(tasks, list, kind) && t < |tasks|
    requires t in list ==> Listed(tasks[t := x], t, kind)
    ensures ListOk(tasks[t := x], list, kind)
  {
    forall i | 0 <= i < |list| ensures Listed(tasks[t := x], list[i], kind) {
      assert Listed(tasks, list[i], kind);
    }
  }

  lemma NotListed(tasks: seq<Task>, list: seq<nat>, kind: Kind, t: nat)
    requires ListOk(tasks, list, kind)
    ensures t in list ==> Listed(tasks, t, kind)
  {
  }

  predicate SamePlaces(a: seq<Task>, b: seq<Task>) {
    |a| == |b| && forall t :: 0 <= t < |a| ==> a[t].pc == b[t].pc && a[t].call == b[t].call
  }

  // --- waking ---

  /** Taking the head off a list and marking it. */
  lemma WakeHead(tasks: seq<Task>, list: seq<nat>, kind: Kind, other: seq<nat>, kind': Kind, owner: int)
    requires ListOk(tasks, list, kind) && list != [] && ListOk(tasks, other, kind') && kind != kind'
    requires TasksOk(tasks, owner)
    ensures var tasks' := MarkWoken(tasks, list[0]);
            && ListOk(tasks', list[1..], kind) && ListOk(tasks', other, kind')
            && TasksOk(tasks', owner) && SamePlaces(tasks, tasks')
            && Woken(tasks', kind) == Woken(tasks, kind) + 1 && Woken(tasks', kind') == Woken(tasks, kind')
  {
    hide Woken;
    var h := list[0];
    var x := tasks[h].(woken := true);
    assert Listed(tasks, h, kind);
    WokenUpdate(tasks, h, x, kind);
    WokenUpdate(tasks, h, x, kind');
    assert TaskOk(tasks[h], owner == h);
    var tail := list[1..];
    forall i | 0 <= i < |tail| ensures Listed(tasks[h := x], tail[i], kind) {
      assert Listed(tasks, list[i + 1], kind);
    }
    NotListed(tasks, other, kind', h);
    OtherListKept(tasks, other, kind', h, x);
  }

  lemma WakeReceiverKeeps(s: State)
    requires ListsOk(s)
    ensures var s' := WakeReceiver(s);
            && ListsOk(s') && SamePlaces(s.tasks, s'.tasks) && s'.toSend == s.toSend
            && Woken(s'.tasks, Receiver) == Woken(s.tasks, Receiver) + (if s.toReceive == [] then 0 else 1)
            && Woken(s'.tasks, Sender) == Woken(s.tasks, Sender)
  {
    hide Woken, ListOk, TasksOk;
    if s.toReceive != [] { WakeHead(s.tasks, s.toReceive, Receiver, s.toSend, Sender, s.owner); }
  }

  lemma WakeSenderKeeps(s: State)
    requires ListsOk(s)
    ensures var s' := WakeSender(s);
            && ListsOk(s') && SamePlaces(s.tasks, s'.tasks) && s'.toReceive == s.toReceive
            && Woken(s'.tasks, Sender) == Woken(s.tasks, Sender) + (if s.toSend == [] then 0 else 1)
            && Woken(s'.tasks, Receiver) == Woken(s.tasks, Receiver)
  {
    hide Woken, ListOk, TasksOk;
    if s.toSend != [] { WakeHead(s.tasks, s.toSend, Sender, s.toReceive, Receiver, s.owner); }
  }

  /** What is left of a list once so many have been taken off its head. */
  predicate HandedOut(list: seq<nat>, list': seq<nat>, count: int) {
    list' == if Pending(count) < |list| then list[Pending(count)..] else []
  }

  /** The unlocking loop hands out every count, from the head, or runs out of blocked receivers. */
  lemma {:induction false} WakeReceiversKeep(s: State, count: int)
    requires ListsOk(s)
    ensures var s' := WakeReceivers(s, count);
            && s' == s.(toReceive := s'.toReceive, tasks := s'.tasks) && HandedOut(s.toReceive, s'.toReceive, count)
            && ListsOk(s') && SamePlaces(s.tasks, s'.tasks)
            && Woken(s'.tasks, Receiver) == Woken(s.tasks, Receiver) + |s.toReceive| - |s'.toReceive|
            && Woken(s'.tasks, Sender) == Woken(s.tasks, Sender)
    decreases |s.toReceive|
  {
    hide Woken, ListsOk;
    if count > 0 && s.toReceive != [] {
      WakeReceiverKeeps(s);
      WakeReceiversKeep(WakeReceiver(s), count - 1);
    }
  }

  lemma {:induction false} WakeSendersKeep(s: State, count: int)
    requires ListsOk(s)
    ensures var s' := WakeSenders(s, count);
            && s' == s.(toSend := s'.toSend, tasks := s'.tasks) && HandedOut(s.toSend, s'.toSend, count)
            && ListsOk(s') && SamePlaces(s.tasks, s'.tasks)
            && Woken(s'.tasks, Sender) == Woken(s.tasks, Sender) + |s.toSend| - |s'.toSend|
            && Woken(s'.tasks, Receiver) == Woken(s.tasks, Receiver)
    decreases |s.toSend|
  {
    hide Woken, ListsOk;
    if count > 0 && s.toSend != [] {
      WakeSenderKeeps(s);
      WakeSendersKeep(WakeSender(s), count - 1);
    }
  }

  // --- one task moving on ---

  /** A task on an event list stays there, or it was on none. */
  predicate KeepsPlace(s: State, t: nat, x: Task)
    requires t < |s.tasks|
  {
    || (t !in s.toSend && t !in s.toReceive)
    || (HasJoined(x.pc) && x.woken == s.tasks[t].woken && x.call == s.tasks[t].call)
  }

  lemma OffLists(s: State, t: nat)
    requires ListsOk(s) && t < |s.tasks| && !HasJoined(s.tasks[t].pc)
    ensures t !in s.toSend && t !in s.toReceive
  {
    NotListed(s.tasks, s.toSend, Sender, t);
    NotListed(s.tasks, s.toReceive, Receiver, t);
  }

  lemma MoveTask(s: State, t: nat, x: Task, owner: int)
    requires ListsOk(s) && t < |s.tasks| && KeepsPlace(s, t, x)
    requires TaskOk(x, owner == t) && (owner == s.owner || ((owner == -1 || owner == t) && (s.owner == -1
          || s.owner == t)))
    ensures ListsOk(s.(tasks := s.tasks[t := x], owner := owner))
  {
    hide Woken;
    var tasks' := s.tasks[t := x];
    forall u | 0 <= u < |tasks'| ensures TaskOk(tasks'[u], owner == u) {
      assert TaskOk(s.tasks[u], s.owner == u);
    }
    NotListed(s.tasks, s.toSend, Sender, t);
    NotListed(s.tasks, s.toReceive, Receiver, t);
    OtherListKept(s.tasks, s.toSend, Sender, t, x);
    OtherListKept(s.tasks, s.toReceive, Receiver, t, x);
  }

  /** A move that wakes nobody and touches neither the messages nor the mark. */
  lemma QuietMove(s: State, t: nat, x: Task)
    requires t < |s.tasks| && x.woken == s.tasks[t].woken && (x.woken ==> x.call == s.tasks[t].call)
    ensures Woken(s.tasks[t := x], Receiver) == Woken(s.tasks, Receiver)
    ensures Woken(s.tasks[t := x], Sender) == Woken(s.tasks, Sender)
  {
    WokenUpdate(s.tasks, t, x, Receiver);
    WokenUpdate(s.tasks, t, x, Sender);
  }

  // --- the steps ---

  predicate Keeps(s: State, s': State) {
    && Shape(s')
    && (ReceiversSafe(s) ==> ReceiversSafe(s'))
    && (SendersSafe(s) ==> SendersSafe(s'))
  }

  /** A task moves on, possibly taking or releasing the scheduler, and no message,
      list or pending count changes. */
  lemma QuietStep(s: State, t: nat, x: Task, s': State)
    requires Shape(s) && t < |s.tasks| && KeepsPlace(s, t, x) && TaskOk(x, s'.owner == t)
    requires x.woken == s.tasks[t].woken && (x.woken ==> x.call == s.tasks[t].call)
    requires s'.owner == s.owner || ((s'.owner == -1 || s'.owner == t) && (s.owner == -1 || s.owner == t))
    requires s' == s.(tasks := s.tasks[t := x], owner := s'.owner, tx := s'.tx, rx := s'.rx)
    requires Pending(s'.tx) == Pending(s.tx) && Pending(s'.rx) == Pending(s.rx) && LockOk(s')
    ensures Keeps(s, s')
  {
    hide Woken, LockOk;
    MoveTask(s, t, x, s'.owner);
    QuietMove(s, t, x);
  }

  lemma OwnerIs(s: State, t: nat)
    requires Shape(s) && t < |s.tasks|
    ensures HasSchedulerSuspended(s.tasks[t].pc) <==> s.owner == t
  {
    assert TaskOk(s.tasks[t], s.owner == t);
  }

  lemma AsleepUnless(s: State, t: nat)
    requires Shape(s) && t < |s.tasks|
    ensures s.tasks[t].woken ==> HasJoined(s.tasks[t].pc) || s.tasks[t].pc == Try
  {
    assert TaskOk(s.tasks[t], s.owner == t);
  }

  /** Steps in which a task just goes from one place to the next. */
  predicate IsMove(e: Event) {
    match e
    case Begin(_, _) | SuspendAll(_) | Lock(_) | Clock(_, _) | Test(_) | ResumeAll(_) | Look(_) | Dispatch(_) => true
    case _ => false
  }

  function Mover(e: Event): nat
    requires IsMove(e)
  {
    match e
    case Begin(t, _) => t
    case SuspendAll(t) => t
    case Lock(t) => t
    case Clock(t, _) => t
    case Test(t) => t
    case ResumeAll(t) => t
    case Look(t) => t
    case Dispatch(t) => t
  }

  lemma MoveKeeps(s: State, e: Event)
    requires Shape(s) && IsMove(e) && Enabled(s, e)
    ensures Keeps(s, Next(s, e))
  {
    hide Woken, ListsOk, Keeps;
    var t := Mover(e);
    var s' := Next(s, e);
    OwnerIs(s, t);
    AsleepUnless(s, t);
    if !HasJoined(s.tasks[t].pc) { OffLists(s, t); }
    QuietStep(s, t, s'.tasks[t], s');
  }

  // Attempt: the caller leaves the woken, and perhaps wakes another.

  lemma Leave(s: State, t: nat, pc: Pc)
    requires Shape(s) && t < |s.tasks| && s.owner == -1 && s.tasks[t].pc == Try && (pc == Idle || pc == Failed)
    ensures var s' := s.(tasks := s.tasks[t := s.tasks[t].(woken := false, pc := pc)]);
            && ListsOk(s')
            && Woken(s'.tasks, Receiver) == Woken(s.tasks, Receiver) - (if IsWoken(s.tasks[t], Receiver) then 1 else 0)
            && Woken(s'.tasks, Sender) == Woken(s.tasks, Sender) - (if IsWoken(s.tasks[t], Sender) then 1 else 0)
  {
    hide Woken, ListsOk;
    var x := s.tasks[t].(woken := false, pc := pc);
    OffLists(s, t);
    MoveTask(s, t, x, -1);
    WokenUpdate(s.tasks, t, x, Receiver);
    WokenUpdate(s.tasks, t, x, Sender);
  }

  lemma AttemptKeeps(s: State, t: nat, mayBlock: bool)
    requires Shape(s) && Enabled(s, Attempt(t, mayBlock))
    ensures Keeps(s, Next(s, Attempt(t, mayBlock)))
  {
    hide Woken, TasksOk, ListOk;
    OwnerIs(s, t);
    var pc := if HasRoom(s, s.tasks[t].call) || !mayBlock then Idle else Failed;
    Leave(s, t, pc);
    var rest := s.(tasks := s.tasks[t := s.tasks[t].(woken := false, pc := pc)]);
    match s.tasks[t].call
    case Send(overwrite) => WakeReceiverKeeps(rest.(n := Added(s.n, overwrite)));
    case Receive(peek) =>
      WakeReceiverKeeps(rest);
      if s.n > 0 { WakeSenderKeeps(rest.(n := s.n - 1)); }
  }

  // Placing on an event list.

  lemma PlacedElements(tasks: seq<Task>, list: seq<nat>, t: nat)
    ensures var p := PlaceByPriority(tasks, list, t);
            && p != []
            && (forall u :: u in p <==> u == t || u in list)
            && (t !in list && Distinct(list) ==> Distinct(p))
  {
    hide Rank;
    var k := Rank(tasks, list, t);
    assert list == list[..k] + list[k..];
  }

  lemma PlacedListOk(tasks: seq<Task>, list: seq<nat>, kind: Kind, t: nat, x: Task)
    requires ListOk(tasks, list, kind) && t < |tasks| && t !in list && Listed(tasks[t := x], t, kind)
    ensures ListOk(tasks[t := x], PlaceByPriority(tasks, list, t), kind)
  {
    OtherListKept(tasks, list, kind, t, x);
    PlacedElements(tasks, list, t);
    var p := PlaceByPriority(tasks, list, t);
    forall i | 0 <= i < |p| ensures Listed(tasks[t := x], p[i], kind) {
      assert p[i] in p;
      if p[i] != t { InList(tasks[t := x], list, kind, p[i]); }
    }
  }

  lemma InList(tasks: seq<Task>, list: seq<nat>, kind: Kind, u: nat)
    requires ListOk(tasks, list, kind) && u in list
    ensures Listed(tasks, u, kind)
  {
  }

  lemma PlaceKeeps(s: State, t: nat)
    requires Shape(s) && Enabled(s, Place(t))
    ensures Keeps(s, Next(s, Place(t)))
  {
    hide Woken, ListOk;
    var x := s.tasks[t].(pc := UnlockTx(Block));
    OwnerIs(s, t);
    AsleepUnless(s, t);
    OffLists(s, t);
    MoveTask(s, t, x, s.owner);
    QuietMove(s, t, x);
    if x.call.Send? {
      PlacedListOk(s.tasks, s.toSend, Sender, t, x);
    } else {
      PlacedListOk(s.tasks, s.toReceive, Receiver, t, x);
    }
  }

  // The two halves of prvUnlockQueue.

  lemma UnlockKeeps(s: State, t: nat)
    requires Shape(s) && Enabled(s, Unlock(t))
    ensures Keeps(s, Next(s, Unlock(t)))
  {
    hide Woken, TasksOk, ListOk;
    OwnerIs(s, t);
    match s.tasks[t].pc
    case UnlockTx(a) =>
      var x := s.tasks[t].(pc := UnlockRx(a));
      OnwardKeeps(s, t, x);
      WakeReceiversKeep(At(s, t, UnlockRx(a)), s.tx);
    case UnlockRx(a) =>
      var x := s.tasks[t].(pc := Resume(a));
      OnwardKeeps(s, t, x);
      WakeSendersKeep(At(s, t, Resume(a)), s.rx);
  }

  lemma OnwardKeeps(s: State, t: nat, x: Task)
    requires Shape(s) && t < |s.tasks| && s.owner == t && x == s.tasks[t].(pc := x.pc)
    requires HasSchedulerSuspended(x.pc) && (HasJoined(s.tasks[t].pc) <==> HasJoined(x.pc))
    ensures ListsOk(s.(tasks := s.tasks[t := x]))
    ensures Woken(s.tasks[t := x], Receiver) == Woken(s.tasks, Receiver)
    ensures Woken(s.tasks[t := x], Sender) == Woken(s.tasks, Sender)
  {
    hide Woken, ListsOk;
    OwnerIs(s, t);
    AsleepUnless(s, t);
    if !HasJoined(s.tasks[t].pc) { OffLists(s, t); }
    MoveTask(s, t, x, s.owner);
    QuietMove(s, t, x);
  }

  // Timeouts, resets, interrupts.

  lemma DropElements(list: seq<nat>, t: nat)
    ensures var d := Drop(list, t);
            && (forall u :: u in d ==> u in list)
            && (Distinct(list) ==> Distinct(d) && t !in d)
            && (list == [] ==> d == [])
  {
    if list != [] {
      DropElements(list[1..], t);
      assert list == [list[0]] + list[1..];
      assert Distinct(list) ==> list[0] !in list[1..];
    }
  }

  lemma DroppedListOk(tasks: seq<Task>, list: seq<nat>, kind: Kind, t: nat)
    requires ListOk(tasks, list, kind)
    ensures ListOk(tasks, Drop(list, t), kind)
  {
    DropElements(list, t);
    var d := Drop(list, t);
    forall i | 0 <= i < |d| ensures Listed(tasks, d[i], kind) {
      assert d[i] in d;
      InList(tasks, list, kind, d[i]);
    }
  }

  lemma TimeoutKeeps(s: State, t: nat)
    requires Shape(s) && Enabled(s, Timeout(t))
    ensures Keeps(s, Next(s, Timeout(t)))
  {
    hide Woken, ListOk;
    DroppedListOk(s.tasks, s.toSend, Sender, t);
    DroppedListOk(s.tasks, s.toReceive, Receiver, t);
    DropElements(s.toSend, t);
    DropElements(s.toReceive, t);
  }

  lemma InterruptKeeps(s: State, e: Event)
    requires Shape(s) && (e.IsrSend? || e.IsrReceive?) && Enabled(s, e) && !Overflows(s, e)
    ensures Keeps(s, Next(s, e))
  {
    hide Woken, TasksOk, ListOk;
    match e
    case IsrSend(overwrite) => WakeReceiverKeeps(s.(n := Added(s.n, overwrite)));
    case IsrReceive => if s.n > 0 { WakeSenderKeeps(s.(n := s.n - 1)); }
  }

  /** An accepted interrupt that takes an int8_t lock count past 127. */
  predicate Overflows(s: State, e: Event) {
    match e
    case IsrSend(overwrite) => (s.n < s.length || overwrite) && s.tx == 127
    case IsrReceive => s.n > 0 && s.rx == 127
    case _ => false
  }

  // --- the theorems ---

  predicate Invariant(s: State) {
    Shape(s) && ReceiversSafe(s) && SendersSafe(s)
  }

  /** Resetting a queue wakes a single sender, whatever the room it makes. */
  predicate ResetHarmless(s: State) {
    |s.toSend| <= 1 || s.length <= Woken(s.tasks, Sender) + 1
  }

  lemma ResetKeeps(s: State)
    requires Shape(s) && Enabled(s, Reset)
    ensures Shape(WasReset(s)) && ReceiversSafe(WasReset(s))
    ensures SendersSafe(WasReset(s)) <==> ResetHarmless(s)
  {
    hide Woken, TasksOk, ListOk;
    WakeSenderKeeps(s.(n := 0, tx := UNLOCKED, rx := UNLOCKED));
  }

  /** The receivers' half, and the senders' half but for a reset, are kept by every
      step that does not overflow a lock count. */
  lemma StepKeeps(s: State, e: Event)
    requires Shape(s) && !Overflows(s, e)
    ensures Shape(Next(s, e))
    ensures ReceiversSafe(s) ==> ReceiversSafe(Next(s, e))
    ensures SendersSafe(s) && (e.Reset? ==> ResetHarmless(s)) ==> SendersSafe(Next(s, e))
  {
    hide Shape, ReceiversSafe, SendersSafe, ResetHarmless;
    if Enabled(s, e) {
      if IsMove(e) { MoveKeeps(s, e); }
      else {
        match e
        case Attempt(t, mayBlock) => AttemptKeeps(s, t, mayBlock);
        case Place(t) => PlaceKeeps(s, t);
        case Unlock(t) => UnlockKeeps(s, t);
        case Timeout(t) => TimeoutKeeps(s, t);
        case Reset => ResetKeeps(s);
        case IsrSend(_) => InterruptKeeps(s, e);
        case IsrReceive => InterruptKeeps(s, e);
      }
    }
  }

  lemma OverflowBreaks(s: State, e: Event)
    requires Shape(s) && Enabled(s, e) && Overflows(s, e)
    ensures !Shape(Next(s, e))
  {
    hide Woken, ListsOk;
  }

  /** Exactly which steps keep the invariant. */
  lemma StepExact(s: State, e: Event)
    requires Invariant(s) && Enabled(s, e)
    ensures Invariant(Next(s, e)) <==> !Overflows(s, e) && (e.Reset? ==> ResetHarmless(s))
  {
    hide Shape, ReceiversSafe, SendersSafe, ResetHarmless, Overflows, Enabled;
    if Overflows(s, e) {
      OverflowBreaks(s, e);
    } else {
      StepKeeps(s, e);
      if e.Reset? { ResetKeeps(s); }
    }
  }

  /** A queue nobody is using. */
  predicate Initial(s: State) {
    && 0 < s.length && s.n <= s.length
    && s.tx == UNLOCKED && s.rx == UNLOCKED && s.toSend == [] && s.toReceive == [] && s.owner == -1
    && forall t :: 0 <= t < |s.tasks| ==> s.tasks[t].pc == Idle && !s.tasks[t].woken
  }

  predicate NoOverflow(s: State, events: seq<Event>, k: nat)
    requires k <= |events|
  {
    k == 0 || (NoOverflow(s, events, k - 1) && !Overflows(After(s, events, k - 1), events[k - 1]))
  }

  predicate ResetsHarmless(s: State, events: seq<Event>, k: nat)
    requires k <= |events|
  {
    k == 0 || (ResetsHarmless(s, events, k - 1) && (events[k - 1].Reset? ==> ResetHarmless(After(s, events, k - 1))))
  }

  /** Over every run: nothing a receiver waits for is ever forgotten; nothing a sender
      waits for is, as long as resets are harmless. */
  lemma {:induction false} RunSafe(s: State, events: seq<Event>, k: nat)
    requires Initial(s) && k <= |events| && NoOverflow(s, events, k)
    ensures Shape(After(s, events, k)) && ReceiversSafe(After(s, events, k))
    ensures ResetsHarmless(s, events, k) ==> SendersSafe(After(s, events, k))
  {
    if k == 0 {
      hide Woken;
    } else {
      hide Shape, ReceiversSafe, SendersSafe, ResetHarmless, Overflows, Next;
      RunSafe(s, events, k - 1);
      StepKeeps(After(s, events, k - 1), events[k - 1]);
    }
  }

  /** With the queue unlocked and no wake-up pending, blocked receivers mean an empty
      queue and blocked senders a full one. */
  lemma NoLostWakeup(s: State, events: seq<Event>, k: nat)
    requires Initial(s) && k <= |events| && NoOverflow(s, events, k)
    ensures var r := After(s, events, k);
            && (r.owner == -1 && r.toReceive != [] && Woken(r.tasks, Receiver) == 0 ==> r.n == 0)
            && (r.owner == -1 && r.toSend != [] && Woken(r.tasks, Sender) == 0 && ResetsHarmless(s, events, k)
                ==> r.n == r.length)
  {
    hide Woken, ListsOk, Overflows, Next, ResetsHarmless, NoOverflow, After, Initial;
    RunSafe(s, events, k);
  }
}
