/** Recursive mutexes (arm/FreeRTOS/queue.c): taken and given by any number of tasks in
    any interleaving, although the recursion count is updated outside the critical
    sections, by a load and a later store. */
module RecursiveMutex {

  /** UBaseType_t is 32 bits wide. */
  const COUNT_LIMIT: nat := 0x1_0000_0000

  type Count = c: nat | c < COUNT_LIMIT

  /** Where a task is in xQueueTakeMutexRecursive or xQueueGiveMutexRecursive. */
  datatype Pc =
    | Idle
    | TakeTest                 // pxMutexHolder == current task?
    | TakeReceive              // xQueueGenericReceive, perhaps blocked in it
    | TakeLoad                 // uxRecursiveCallCount++: load ...
    | TakeStore(reg: Count)    // ... and store
    | GiveTest
    | GiveLoad                 // uxRecursiveCallCount--
    | GiveStore(reg: Count)
    | GiveCheck                // uxRecursiveCallCount == 0?
    | GiveRelease              // xQueueGenericSend

  /** `takes` and `gives` count the calls that have returned pdPASS. */
  datatype Task = Task(pc: Pc, takes: nat, gives: nat)

  datatype Holder = Nobody | Held(t: nat)

  datatype State = State(messages: nat, holder: Holder, count: Count, tasks: seq<Task>)

  datatype Event = CallTake(t: nat) | CallGive(t: nat) | Step(t: nat) | TakeFails(t: nat)

  function Goes(s: State, t: nat, pc: Pc): State
    requires t < |s.tasks|
  {
    s.(tasks := s.tasks[t := s.tasks[t].(pc := pc)])
  }

  function Returns(s: State, t: nat, takes: nat, gives: nat): State
    requires t < |s.tasks|
  {
    s.(tasks := s.tasks[t := Task(Idle, s.tasks[t].takes + takes, s.tasks[t].gives + gives)])
  }

  /** The next instruction of task t. */
  function Executed(s: State, t: nat): State
    requires t < |s.tasks|
  {
    match s.tasks[t].pc
    case Idle => s
    case TakeTest => Goes(s, t, if s.holder == Held(t) then TakeLoad else TakeReceive)
    case TakeReceive =>
      if s.messages == 0 then s
      else Goes(s.(messages := s.messages - 1, holder := Held(t)), t, TakeLoad)
    case TakeLoad => Goes(s, t, TakeStore(s.count))
    case TakeStore(reg) => Returns(s.(count := (reg + 1) % COUNT_LIMIT), t, 1, 0)
    case GiveTest => Goes(s, t, if s.holder == Held(t) then GiveLoad else Idle)
    case GiveLoad => Goes(s, t, GiveStore(s.count))
    case GiveStore(reg) => Goes(s.(count := (reg + COUNT_LIMIT - 1) % COUNT_LIMIT), t, GiveCheck)
    case GiveCheck => if s.count == 0 then Goes(s, t, GiveRelease) else Returns(s, t, 0, 1)
    case GiveRelease =>
      // With no block time: a full queue would make the send fail.
      Returns(if s.messages < 1 then s.(messages := s.messages + 1, holder := Nobody) else s, t, 0, 1)
  }

  /** A step that is not enabled leaves the state as it is. */
  function Next(s: State, e: Event): State {
    if e.t >= |s.tasks| then s
    else match e
      case CallTake(t) => if s.tasks[t].pc == Idle then Goes(s, t, TakeTest) else s
      case CallGive(t) => if s.tasks[t].pc == Idle then Goes(s, t, GiveTest) else s
      case Step(t) => Executed(s, t)
      case TakeFails(t) => if s.tasks[t].pc == TakeReceive && s.messages == 0 then Goes(s, t, Idle) else s
  }

  function After(s: State, events: seq<Event>, k: nat): State
    requires k <= |events|
  {
    if k == 0 then s else Next(After(s, events, k - 1), events[k - 1])
  }

  // --- the invariant ---

  /** The count agrees with the calls of the holder. */
  predicate HolderOk(task: Task, count: Count) {
    task.gives <= task.takes < task.gives + COUNT_LIMIT
    && var depth := task.takes - task.gives;
    match task.pc
    case Idle | TakeTest | GiveTest | GiveLoad => count == depth >= 1
    case TakeReceive => false
    case TakeLoad => count == depth
    case TakeStore(reg) => reg == count == depth
    case GiveStore(reg) => reg == count == depth >= 1
    case GiveCheck => count == depth - 1
    case GiveRelease => count == depth - 1 == 0
  }

  /** All others have given back what they took and write nothing. */
  predicate OtherOk(task: Task) {
    && task.takes == task.gives
    && (task.pc == Idle || task.pc == TakeTest || task.pc == TakeReceive || task.pc == GiveTest)
  }

  predicate Invariant(s: State) {
    && (s.holder == Nobody ==> s.messages == 1 && s.count == 0)
    && (s.holder != Nobody ==> s.messages == 0 && s.holder.t < |s.tasks| && HolderOk(s.tasks[s.holder.t], s.count))
    && forall t :: 0 <= t < |s.tasks| && s.holder != Held(t) ==> OtherOk(s.tasks[t])
  }

  /** The store that would make the holder's nesting too deep for the count. */
  predicate Wraps(s: State, e: Event) {
    e.Step? && e.t < |s.tasks| && s.tasks[e.t].pc.TakeStore? && s.tasks[e.t].pc.reg == COUNT_LIMIT - 1
  }

  lemma Others(s: State, s': State, t: nat)
    requires Invariant(s) && t < |s.tasks| == |s'.tasks|
    requires forall u :: 0 <= u < |s.tasks| && u != t ==> s'.tasks[u] == s.tasks[u]
    requires s.holder == s'.holder || (s.holder == Nobody && s'.holder == Held(t)) || (s.holder == Held(t)
          && s'.holder == Nobody)
    requires s'.holder != Held(t) ==> OtherOk(s'.tasks[t])
    ensures forall u :: 0 <= u < |s'.tasks| && s'.holder != Held(u) ==> OtherOk(s'.tasks[u])
  {
  }

  lemma OtherIs(s: State, t: nat)
    requires Invariant(s)
    ensures t < |s.tasks| && s.holder != Held(t) ==> OtherOk(s.tasks[t])
  {
  }

  /** Exactly which steps keep the invariant: all but a store that wraps the count. */
  lemma StepExact(s: State, e: Event)
    requires Invariant(s)
    ensures Invariant(Next(s, e)) <==> !Wraps(s, e)
  {
    if e.t < |s.tasks| {
      var s' := Next(s, e);
      OtherIs(s, e.t);
      if !Wraps(s, e) { Others(s, s', e.t); }
    }
  }

  // --- what it means ---

  /** Only the holder ever changes the count, without any critical section. */
  lemma OnlyHolderCounts(s: State, e: Event)
    requires Invariant(s) && Next(s, e).count != s.count
    ensures s.holder == Held(e.t)
  {
    OtherIs(s, e.t);
  }

  /** The give that brings the returned gives of t level with its returned takes. */
  predicate LastGive(s: State, s': State, t: nat) {
    && t < |s.tasks| == |s'.tasks|
    && s'.tasks[t].gives == s.tasks[t].gives + 1 && s'.tasks[t].takes == s.tasks[t].takes
    && s'.tasks[t].gives == s'.tasks[t].takes
  }

  /** The mutex changes from held to free on the holder's matching last give, on no
      other step, and never straight from one task to another. */
  lemma ReleasedOnLastGive(s: State, e: Event)
    requires Invariant(s)
    ensures var s' := Next(s, e);
            && (s.holder != Nobody && s'.holder == Nobody <==> s.holder == Held(e.t) && LastGive(s, s', e.t))
            && (s.holder != Nobody && s'.holder != Nobody ==> s'.holder == s.holder)
  {
    OtherIs(s, e.t);
  }

  /** Of two tasks, one that has taken more than it gave shuts the other out. */
  lemma OneOwner(s: State, t: nat, u: nat)
    requires Invariant(s) && t < |s.tasks| && u < |s.tasks| && t != u
    requires s.tasks[t].takes != s.tasks[t].gives
    ensures s.holder == Held(t) && s.messages == 0 && OtherOk(s.tasks[u])
  {
    OtherIs(s, t);
    OtherIs(s, u);
  }

  // --- every run ---

  predicate Initial(s: State) {
    && s.messages == 1 && s.holder == Nobody && s.count == 0
    && forall t :: 0 <= t < |s.tasks| ==> s.tasks[t] == Task(Idle, 0, 0)
  }

  predicate NeverWraps(s: State, events: seq<Event>, k: nat)
    requires k <= |events|
  {
    k == 0 || (NeverWraps(s, events, k - 1) && !Wraps(After(s, events, k - 1), events[k - 1]))
  }

  lemma {:induction false} RunOwned(s: State, events: seq<Event>, k: nat)
    requires Initial(s) && k <= |events| && NeverWraps(s, events, k)
    ensures Invariant(After(s, events, k))
  {
    if k > 0 {
      hide Next, Wraps, Invariant;
      RunOwned(s, events, k - 1);
      StepExact(After(s, events, k - 1), events[k - 1]);
    }
  }

  lemma {:induction false} SameTasks(s: State, events: seq<Event>, k: nat)
    requires k <= |events|
    ensures |After(s, events, k).tasks| == |s.tasks|
  {
    if k > 0 { SameTasks(s, events, k - 1); }
  }

  /** Whatever the interleaving: the count of a task resting between calls is the
      number of its takes less its gives, and it holds the mutex when that is not zero. */
  lemma RunCounts(s: State, events: seq<Event>, k: nat, t: nat)
    requires Initial(s) && k <= |events| && NeverWraps(s, events, k) && t < |s.tasks|
    ensures |After(s, events, k).tasks| == |s.tasks|
    ensures var r := After(s, events, k);
            r.tasks[t].pc == Idle ==>
              && (r.holder == Held(t) <==> r.tasks[t].takes > r.tasks[t].gives)
              && (r.holder == Held(t) ==> r.count == r.tasks[t].takes - r.tasks[t].gives)
  {
    hide After, Next, NeverWraps;
    RunOwned(s, events, k);
    SameTasks(s, events, k);
    var r := After(s, events, k);
    OtherIs(r, t);
  }
}
