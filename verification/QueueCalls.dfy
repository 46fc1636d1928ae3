/** What a call on a FreeRTOS queue (arm/FreeRTOS/queue.c) comes to: when it may block,
    when it ends and with what, alone and in every run. */
module QueueCalls {
  import opened QueueProtocol
  import opened QueueSafety
  import opened QueueOrder

  /** There is room for what is sent, or something to receive. */
  predicate Served(s: State, call: Call) {
    if call.Send? then s.n < s.length || call.overwrite else s.n > 0
  }

  /** Messages after a call that was served. */
  function MessagesAfter(n: nat, call: Call): int {
    match call
    case Send(overwrite) => if overwrite && n > 0 then n else n + 1
    case Receive(peek) => if peek then n else n - 1
  }

  /** Taking its first task, if it has one, off an event list. */
  predicate TakesFirst(s: State, s': State, list: seq<nat>, list': seq<nat>, t: nat) {
    && list' == (if list == [] then [] else list[1..])
    && |s'.tasks| == |s.tasks|
    && forall u :: 0 <= u < |s.tasks| && u != t ==>
         s'.tasks[u] == if list != [] && u == list[0] then s.tasks[u].(woken := true) else s.tasks[u]
  }

  // --- one attempt ---

  /** An attempt ends the call exactly if it is served or may not block. Not served, it
      changes nothing but its own place. */
  lemma AttemptEnds(s: State, t: nat, mayBlock: bool)
    requires Enabled(s, Attempt(t, mayBlock))
    ensures var s' := Next(s, Attempt(t, mayBlock)); var call := s.tasks[t].call;
            && |s'.tasks| == |s.tasks|
            && s'.tasks[t].pc == (if Served(s, call) || !mayBlock then Idle else Failed)
            && (!Served(s, call)
                ==> s' == s.(tasks := s.tasks[t := Task(call, s'.tasks[t].pc, false, s.tasks[t].priority)]))
  {
    hide Rank;
  }

  /** Served, it moves one message and wakes the first of those who wait for what it
      leaves behind, and nobody else. */
  lemma AttemptServes(s: State, t: nat, mayBlock: bool)
    requires Enabled(s, Attempt(t, mayBlock)) && Served(s, s.tasks[t].call)
    ensures var s' := Next(s, Attempt(t, mayBlock)); var call := s.tasks[t].call;
            && s' == s.(n := s'.n, tasks := s'.tasks, toSend := s'.toSend, toReceive := s'.toReceive)
            && s'.n == MessagesAfter(s.n, call)
            && if call == Receive(false) then
                 TakesFirst(s, s', s.toSend, s'.toSend, t) && s'.toReceive == s.toReceive
               else TakesFirst(s, s', s.toReceive, s'.toReceive, t) && s'.toSend == s.toSend
  {
    hide Rank;
  }

  // --- interrupts, resets and timeouts ---

  /** An interrupt's send or receive is served under the same conditions, never waits, and
      wakes at once on an unlocked queue. On a locked one it is counted instead, in eight
      bits. */
  lemma InterruptOutcome(s: State, e: Event)
    requires (e.IsrSend? || e.IsrReceive?) && Enabled(s, e)
    ensures var s' := Next(s, e); var call := if e.IsrSend? then Send(e.overwrite) else Receive(false);
            if !Served(s, call) then s' == s
            else
              && s'.n == MessagesAfter(s.n, call) && s'.owner == s.owner && s'.length == s.length
              && (if e.IsrSend? then s'.toSend == s.toSend && s'.rx == s.rx
                  else s'.toReceive == s.toReceive && s'.tx == s.tx)
              && var lock, lock' := if e.IsrSend? then s.tx else s.rx, if e.IsrSend? then s'.tx else s'.rx;
                 var list, list' := if e.IsrSend? then s.toReceive else s.toSend,
                                    if e.IsrSend? then s'.toReceive else s'.toSend;
                 if lock == UNLOCKED then lock' == lock && TakesFirst(s, s', list, list', |s.tasks|)
                 else list' == list && s'.tasks == s.tasks && lock' == if lock == 127 then -128 else lock + 1
  {
  }

  /** A reset, made while the scheduler runs, empties the queue, unlocks it and wakes the
      first sender, if one waits. */
  lemma ResetOutcome(s: State)
    ensures var s' := Next(s, Reset);
            if s.owner != -1 then s' == s
            else
              && s'.n == 0 && s'.tx == s'.rx == UNLOCKED && s'.toReceive == s.toReceive && s'.owner == s.owner
              && TakesFirst(s, s', s.toSend, s'.toSend, |s.tasks|)
  {
  }

  /** The list without t, the others as they stand. */
  predicate LeavesList(list: seq<nat>, list': seq<nat>, t: nat) {
    if t in list then exists p: nat :: p < |list| && list[p] == t && list' == list[..p] + list[p + 1..]
    else list' == list
  }

  lemma {:induction false} DropFinds(list: seq<nat>, t: nat) returns (p: nat)
    ensures t !in list ==> Drop(list, t) == list
    ensures t in list ==> p < |list| && list[p] == t && Drop(list, t) == list[..p] + list[p + 1..]
  {
    p := 0;
    if list != [] && list[0] != t {
      var q := DropFinds(list[1..], t);
      p := q + 1;
      DropTail(list, t, q);
    }
  }

  lemma DropTail(list: seq<nat>, t: nat, q: nat)
    requires list != [] && list[0] != t
    requires t !in list[1..] ==> Drop(list[1..], t) == list[1..]
    requires t in list[1..] ==> q < |list| - 1 && Drop(list[1..], t) == list[1..][..q] + list[1..][q + 1..]
    ensures t in list <==> t in list[1..]
    ensures t !in list ==> Drop(list, t) == list
    ensures t in list ==> Drop(list, t) == list[..q + 1] + list[q + 2..]
  {
    var tail := list[1..];
    assert list == [list[0]] + tail;
    assert Drop(list, t) == [list[0]] + Drop(tail, t);
    if t in tail { assert [list[0]] + tail[..q] == list[..q + 1] && tail[q + 1..] == list[q + 2..]; }
  }

  lemma DropLeaves(list: seq<nat>, t: nat)
    ensures LeavesList(list, Drop(list, t), t)
  {
    hide Drop;
    var p := DropFinds(list, t);
  }

  /** A timeout, of a waiting task while the scheduler runs, takes it off the list it
      waits on; nobody else moves. */
  lemma TimeoutOutcome(s: State, t: nat)
    ensures var s' := Next(s, Timeout(t));
            if t >= |s.tasks| || s.tasks[t].pc != Waiting || s.owner != -1 then s' == s
            else
              && s' == s.(toSend := s'.toSend, toReceive := s'.toReceive)
              && LeavesList(s.toSend, s'.toSend, t) && LeavesList(s.toReceive, s'.toReceive, t)
  {
    hide Drop, LeavesList, Rank;
    DropLeaves(s.toSend, t);
    DropLeaves(s.toReceive, t);
  }

  // --- the rest of a call, among others ---

  /** The task whose call an event goes on with, or nobody. */
  function Actor(e: Event): int {
    match e
    case Begin(t, _) => t
    case Attempt(t, _) => t
    case SuspendAll(t) => t
    case Lock(t) => t
    case Clock(t, _) => t
    case Test(t) => t
    case Place(t) => t
    case Unlock(t) => t
    case ResumeAll(t) => t
    case Look(t) => t
    case Dispatch(t) => t
    case _ => -1
  }

  lemma {:induction false} UnlockingKeepsPlaces(s: State, count: int)
    ensures SamePlaces(s.tasks, WakeReceivers(s, count).tasks)
    ensures SamePlaces(s.tasks, WakeSenders(s, count).tasks)
    decreases |s.toReceive| + |s.toSend|
  {
    if count > 0 && s.toReceive != [] { UnlockingKeepsPlaces(WakeReceiver(s), count - 1); }
    if count > 0 && s.toSend != [] { UnlockingKeepsPlaces(WakeSender(s), count - 1); }
  }

  /** Nobody else moves a task on in its call. */
  lemma OthersStay(s: State, e: Event, t: nat)
    requires t < |s.tasks| && Actor(e) != t
    ensures var s' := Next(s, e);
            |s'.tasks| == |s.tasks| && s'.tasks[t].pc == s.tasks[t].pc && s'.tasks[t].call == s.tasks[t].call
  {
    hide Rank, Drop;
    if e.Unlock? && Enabled(s, e) {
      UnlockingKeepsPlaces(At(s, e.t, UnlockRx(s.tasks[e.t].pc.a)), s.tx);
      UnlockingKeepsPlaces(At(s, e.t, Resume(s.tasks[e.t].pc.a)), s.rx);
    }
  }

  /** A step of t that is served, or refused when it may not block, or out of time: a
      sender as it lets go of the queue, a receiver if there is still nothing when it
      looks once more. */
  predicate EndsCall(s: State, e: Event, t: nat)
    requires t < |s.tasks|
  {
    Enabled(s, e) && Actor(e) == t && match e
      case Attempt(_, mayBlock) => Served(s, s.tasks[t].call) || !mayBlock
      case ResumeAll(_) => s.tasks[t].pc == Resume(Expired) && s.tasks[t].call.Send?
      case Look(_) => s.n == 0
      case _ => false
  }

  /** Exactly when a call ends. */
  lemma CallEnds(s: State, e: Event, t: nat)
    requires t < |s.tasks| && s.tasks[t].pc != Idle
    ensures t < |Next(s, e).tasks|
    ensures Next(s, e).tasks[t].pc == Idle <==> EndsCall(s, e, t)
  {
    hide Rank, Drop, Attempted;
    if Actor(e) != t {
      OthersStay(s, e, t);
    } else if e.Attempt? && Enabled(s, e) {
      AttemptEnds(s, t, e.mayBlock);
    } else if e.Unlock? && Enabled(s, e) {
      UnlockingKeepsPlaces(At(s, t, UnlockRx(s.tasks[t].pc.a)), s.tx);
      UnlockingKeepsPlaces(At(s, t, Resume(s.tasks[t].pc.a)), s.rx);
    }
  }

  /** A call that ends unserved leaves the messages and both event lists as they are. */
  lemma UnservedEnds(s: State, e: Event, t: nat)
    requires t < |s.tasks| && s.tasks[t].pc != Idle && t < |Next(s, e).tasks| && Next(s, e).tasks[t].pc == Idle
    requires e.Attempt? ==> !Served(s, s.tasks[t].call)
    ensures var s' := Next(s, e);
            s'.n == s.n && s'.toSend == s.toSend && s'.toReceive == s.toReceive && s'.tx == s.tx && s'.rx == s.rx
  {
    hide Rank, Drop, Attempted;
    CallEnds(s, e, t);
    if e.Attempt? { AttemptEnds(s, t, e.mayBlock); }
  }

  /** Exactly when a task goes to join an event list: the queue is full for its sender,
      or empty for its receiver, in the very step that sends it there. */
  lemma GoesToWait(s: State, e: Event, t: nat)
    requires t < |s.tasks| && s.tasks[t].pc != Placing
    ensures t < |Next(s, e).tasks|
    ensures Next(s, e).tasks[t].pc == Placing
            <==> Enabled(s, e) && e == Test(t) && s.n == (if s.tasks[t].call.Send? then s.length else 0)
  {
    hide Rank, Drop, Attempted;
    if Actor(e) != t {
      OthersStay(s, e, t);
    } else if e.Attempt? && Enabled(s, e) {
      AttemptEnds(s, t, e.mayBlock);
    } else if e.Unlock? && Enabled(s, e) {
      UnlockingKeepsPlaces(At(s, t, UnlockRx(s.tasks[t].pc.a)), s.tx);
      UnlockingKeepsPlaces(At(s, t, Resume(s.tasks[t].pc.a)), s.rx);
    }
  }

  // --- calls that may not block ---

  /** None of the first k attempts of t may block. */
  predicate NeverMayBlock(events: seq<Event>, t: nat, k: nat)
    requires k <= |events|
  {
    forall i :: 0 <= i < k && events[i].Attempt? && events[i].t == t ==> !events[i].mayBlock
  }

  /** Not waiting, on no list, and not the one that keeps others from running. */
  predicate Free(s: State, t: nat) {
    && t < |s.tasks| && (s.tasks[t].pc == Idle || s.tasks[t].pc == Try)
    && s.owner != t && t !in s.toSend && t !in s.toReceive
  }

  lemma TailMembers(a: seq<nat>, b: seq<nat>, t: nat)
    requires IsTail(a, b) && t !in b
    ensures t !in a
  {
  }

  lemma FreeElsewhere(s: State, e: Event, t: nat)
    requires Free(s, t) && Actor(e) != t && Enabled(s, e)
    ensures t !in Next(s, e).toSend && t !in Next(s, e).toReceive && Next(s, e).owner != t
  {
    hide Rank, Drop, IsTail, Enabled;
    if e.Place? {
      PlacedElements(s.tasks, s.toSend, e.t);
      PlacedElements(s.tasks, s.toReceive, e.t);
    } else if e.Timeout? {
      DropElements(s.toSend, e.t);
      DropElements(s.toReceive, e.t);
    } else {
      TakesHeads(s, e);
      TailMembers(Next(s, e).toSend, s.toSend, t);
      TailMembers(Next(s, e).toReceive, s.toReceive, t);
      OwnerAfter(s, e);
    }
  }

  lemma {:induction false} UnlockingKeepsOwner(s: State, count: int)
    ensures WakeReceivers(s, count).owner == s.owner && WakeSenders(s, count).owner == s.owner
    decreases |s.toReceive| + |s.toSend|
  {
    if count > 0 && s.toReceive != [] { UnlockingKeepsOwner(WakeReceiver(s), count - 1); }
    if count > 0 && s.toSend != [] { UnlockingKeepsOwner(WakeSender(s), count - 1); }
  }

  lemma OwnerAfter(s: State, e: Event)
    ensures Next(s, e).owner == s.owner || Next(s, e).owner == -1 || Next(s, e).owner == Actor(e)
  {
    hide Rank, Drop;
    if e.Unlock? && Enabled(s, e) {
      UnlockingKeepsOwner(At(s, e.t, UnlockRx(s.tasks[e.t].pc.a)), s.tx);
      UnlockingKeepsOwner(At(s, e.t, Resume(s.tasks[e.t].pc.a)), s.rx);
    }
  }

  lemma StaysFree(s: State, e: Event, t: nat)
    requires Free(s, t) && (e.Attempt? && e.t == t ==> !e.mayBlock)
    ensures Free(Next(s, e), t)
  {
    hide Rank, Drop, Attempted, Unlocked, Placed;
    if Enabled(s, e) {
      if Actor(e) != t {
        OthersStay(s, e, t);
        FreeElsewhere(s, e, t);
      } else if e.Attempt? {
        AttemptEnds(s, t, false);
        TakesHeads(s, e);
        TailMembers(Next(s, e).toSend, s.toSend, t);
        TailMembers(Next(s, e).toReceive, s.toReceive, t);
        if Served(s, s.tasks[t].call) { AttemptServes(s, t, false); }
      }
    }
  }

  /** In every run: a task that never lets a call block is never waiting, on no event
      list, and never has the scheduler suspended. */
  lemma {:induction false} NeverBlocks(s: State, events: seq<Event>, k: nat, t: nat)
    requires Initial(s) && t < |s.tasks| && k <= |events| && NeverMayBlock(events, t, k)
    ensures var r := After(s, events, k);
            && t < |r.tasks| && (r.tasks[t].pc == Idle || r.tasks[t].pc == Try)
            && r.owner != t && t !in r.toSend && t !in r.toReceive
  {
    if k > 0 {
      hide Next;
      NeverBlocks(s, events, k - 1, t);
      StaysFree(After(s, events, k - 1), events[k - 1], t);
    }
  }

  // --- a call by itself ---

  lemma {:induction false} AfterConcat(s: State, a: seq<Event>, b: seq<Event>, k: nat)
    requires k <= |b|
    ensures After(s, a + b, |a| + k) == After(After(s, a, |a|), b, k)
  {
    hide Next;
    if k == 0 {
      AfterPrefix(s, a, b, |a|);
    } else {
      AfterConcat(s, a, b, k - 1);
      assert (a + b)[|a| + k - 1] == b[k - 1];
    }
  }

  lemma {:induction false} AfterPrefix(s: State, a: seq<Event>, b: seq<Event>, k: nat)
    requires k <= |a|
    ensures After(s, a + b, k) == After(s, a, k)
  {
    hide Next;
    if k > 0 {
      AfterPrefix(s, a, b, k - 1);
      assert (a + b)[k - 1] == a[k - 1];
    }
  }

  /** A call that finds the queue full (or empty), up to joining the event list. */
  function Joining(t: nat, call: Call): seq<Event> {
    [Begin(t, call), Attempt(t, true), SuspendAll(t), Lock(t), Clock(t, false), Test(t), Place(t)]
  }

  function Leaving(t: nat): seq<Event> {
    [Unlock(t), Unlock(t), ResumeAll(t)]
  }

  function Caller(s: State, t: nat, call: Call, pc: Pc): seq<Task>
    requires t < |s.tasks|
  {
    s.tasks[t := Task(call, pc, false, s.tasks[t].priority)]
  }

  predicate MayJoin(s: State, t: nat, call: Call) {
    && t < |s.tasks| && s.owner == -1 && s.tx == s.rx == UNLOCKED
    && s.tasks[t].pc == Idle && !s.tasks[t].woken
    && Full(s, call) && call != Send(true) && 0 < s.length
  }

  lemma AfterOne(s: State, e: seq<Event>, k: nat)
    requires k < |e|
    ensures After(s, e, k + 1) == Next(After(s, e, k), e[k]) && After(s, e, 0) == s
  {
  }

  lemma Tries(s: State, t: nat, call: Call)
    requires MayJoin(s, t, call)
    ensures After(s, Joining(t, call), 1) == s.(tasks := Caller(s, t, call, Try))
  {
    hide After, Attempted, Placed, Unlocked, Resumed, Interrupted, WasReset;
    AfterOne(s, Joining(t, call), 0);
    var task := s.tasks[t];
    assert s.tasks[t := task.(call := call)][t := task.(call := call, pc := Try)] == Caller(s, t, call, Try);
  }

  lemma Fails(s: State, t: nat, call: Call)
    requires MayJoin(s, t, call)
    ensures After(s, Joining(t, call), 2) == s.(tasks := Caller(s, t, call, Failed))
  {
    hide After, Placed, Unlocked, Resumed, Interrupted, WasReset;
    Tries(s, t, call);
    AfterOne(s, Joining(t, call), 1);
  }

  lemma Suspends(s: State, t: nat, call: Call)
    requires MayJoin(s, t, call)
    ensures After(s, Joining(t, call), 3) == s.(tasks := Caller(s, t, call, Suspended), owner := t)
  {
    hide After;
    Fails(s, t, call);
    AfterOne(s, Joining(t, call), 2);
  }

  lemma Locks(s: State, t: nat, call: Call)
    requires MayJoin(s, t, call)
    ensures After(s, Joining(t, call), 4) == s.(tasks := Caller(s, t, call, Locked), owner := t, tx := 0, rx := 0)
  {
    hide After;
    Suspends(s, t, call);
    AfterOne(s, Joining(t, call), 3);
  }

  lemma Looks(s: State, t: nat, call: Call)
    requires MayJoin(s, t, call)
    ensures After(s, Joining(t, call), 5) == s.(tasks := Caller(s, t, call, Unexpired), owner := t, tx := 0, rx := 0)
  {
    hide After;
    Locks(s, t, call);
    AfterOne(s, Joining(t, call), 4);
  }

  lemma Joins(s: State, t: nat, call: Call)
    requires MayJoin(s, t, call)
    ensures var s6 := s.(tasks := Caller(s, t, call, Placing), owner := t, tx := 0, rx := 0);
            After(s, Joining(t, call), 7) == Placed(s6, t)
  {
    hide After, Placed, Attempted, Unlocked, Resumed, Interrupted, WasReset;
    Looks(s, t, call);
    AfterOne(s, Joining(t, call), 5);
    assert After(s, Joining(t, call), 6) == s.(tasks := Caller(s, t, call, Placing), owner := t, tx := 0, rx := 0);
    AfterOne(s, Joining(t, call), 6);
  }

  /** Where a task is once it has let go of the queue. */
  function Left(a: Then, call: Call): Pc {
    match a
    case Block => Waiting
    case Retry => Try
    case Expired => if call.Send? then Idle else LastLook
  }

  /** Letting go of a queue on which nothing happened meanwhile. */
  lemma Leaves(s: State, t: nat, a: Then)
    requires t < |s.tasks| && s.owner == t && s.tasks[t].pc == UnlockTx(a) && s.tx <= 0 && s.rx <= 0
    ensures After(s, Leaving(t), 3)
            == s.(tasks := s.tasks[t := s.tasks[t].(pc := Left(a, s.tasks[t].call))],
                  owner := -1, tx := UNLOCKED, rx := UNLOCKED)
  {
    hide After, Attempted, Placed, Interrupted, WasReset;
    var e := Leaving(t);
    UnlocksBoth(s, t, a);
    AfterOne(s, e, 2);
  }

  lemma UnlocksBoth(s: State, t: nat, a: Then)
    requires t < |s.tasks| && s.owner == t && s.tasks[t].pc == UnlockTx(a) && s.tx <= 0 && s.rx <= 0
    ensures After(s, Leaving(t), 2)
            == s.(tasks := s.tasks[t := s.tasks[t].(pc := Resume(a))], tx := UNLOCKED, rx := UNLOCKED)
  {
    hide After, Next;
    var e := Leaving(t);
    AfterOne(s, e, 0);
    AfterOne(s, e, 1);
    UnlockWakesNobody(s, t);
    UnlockWakesNobody(After(s, e, 1), t);
  }

  lemma UnlockWakesNobody(s: State, t: nat)
    requires t < |s.tasks| && s.owner == t && s.tx <= 0 && s.rx <= 0
    ensures var x := s.tasks[t]; var r := Next(s, Unlock(t));
            && (x.pc.UnlockTx? ==> r == s.(tasks := s.tasks[t := x.(pc := UnlockRx(x.pc.a))], tx := UNLOCKED))
            && (x.pc.UnlockRx? ==> r == s.(tasks := s.tasks[t := x.(pc := Resume(x.pc.a))], rx := UNLOCKED))
  {
    hide Attempted, Placed, Interrupted, WasReset, Resumed;
  }

  /** What t asks for, in a queue with nobody in between. */
  predicate AtRest(s: State, t: nat) {
    t < |s.tasks| && s.owner == -1 && s.tasks[t].pc == Idle && !s.tasks[t].woken
  }

  lemma BeginsAlone(s: State, t: nat, call: Call, mayBlock: bool)
    requires AtRest(s, t) && MayCall(s, call)
    ensures var events := [Begin(t, call), Attempt(t, mayBlock)];
            && After(s, events, 1) == s.(tasks := Caller(s, t, call, Try))
            && After(s, events, 2) == Next(After(s, events, 1), events[1])
            && Enabled(After(s, events, 1), events[1])
  {
    hide After, Attempted, Placed, Unlocked, Resumed, Interrupted, WasReset;
    var events := [Begin(t, call), Attempt(t, mayBlock)];
    var task := s.tasks[t];
    AfterOne(s, events, 0);
    AfterOne(s, events, 1);
    assert s.tasks[t := task.(call := call)][t := task.(call := call, pc := Try)] == Caller(s, t, call, Try);
  }

  /** A call that is served returns at once, whether it may block or not. */
  lemma ServedAtOnce(s: State, t: nat, call: Call, mayBlock: bool)
    requires AtRest(s, t) && MayCall(s, call) && Served(s, call)
    ensures var r := After(s, [Begin(t, call), Attempt(t, mayBlock)], 2);
            && t < |r.tasks| && r.tasks[t].pc == Idle && r.n == MessagesAfter(s.n, call)
            && r.owner == -1 && r.tx == s.tx && r.rx == s.rx
  {
    hide After, Next, Enabled;
    BeginsAlone(s, t, call, mayBlock);
    var s1 := After(s, [Begin(t, call), Attempt(t, mayBlock)], 1);
    AttemptEnds(s1, t, mayBlock);
    AttemptServes(s1, t, mayBlock);
  }

  /** One that is not and may not block returns at once, with nothing changed. */
  lemma RefusedAtOnce(s: State, t: nat, call: Call)
    requires AtRest(s, t) && MayCall(s, call) && !Served(s, call)
    ensures After(s, [Begin(t, call), Attempt(t, false)], 2) == s.(tasks := Caller(s, t, call, Idle))
  {
    hide After, Next, Enabled;
    BeginsAlone(s, t, call, false);
    var s1 := After(s, [Begin(t, call), Attempt(t, false)], 1);
    AttemptEnds(s1, t, false);
    assert s1.tasks[t := Task(call, Idle, false, s1.tasks[t].priority)] == Caller(s, t, call, Idle);
  }

  /** The list with t put in behind all of its own or a higher priority. */
  predicate JoinedList(tasks: seq<Task>, list: seq<nat>, list': seq<nat>, t: nat) {
    exists p: nat :: p <= |list| && Parts(tasks, list, t, p) && list' == list[..p] + [t] + list[p..]
  }

  /** One that is not served, may block and has time is blocked: it waits in its place on
      the event list, and queue and scheduler are as they were. */
  lemma Blocks(s: State, t: nat, call: Call)
    requires MayJoin(s, t, call) && RankedLists(s)
    ensures var r := After(s, Joining(t, call) + Leaving(t), 10);
            && r == s.(tasks := Caller(s, t, call, Waiting), toSend := r.toSend, toReceive := r.toReceive)
            && (call.Send? ==> JoinedList(s.tasks, s.toSend, r.toSend, t) && r.toReceive == s.toReceive)
            && (call.Receive? ==> JoinedList(s.tasks, s.toReceive, r.toReceive, t) && r.toSend == s.toSend)
  {
    hide After, Next, Ranked, Rank;
    var a, b := Joining(t, call), Leaving(t);
    var s6 := s.(tasks := Caller(s, t, call, Placing), owner := t, tx := 0, rx := 0);
    AfterConcat(s, a, b, 3);
    Joins(s, t, call);
    Leaves(Placed(s6, t), t, Block);
    SameRank(s.tasks, s6.tasks, s.toSend, t);
    SameRank(s.tasks, s6.tasks, s.toReceive, t);
    PlacedInOrder(s.tasks, s.toSend, t);
    PlacedInOrder(s.tasks, s.toReceive, t);
    assert s6.tasks[t := s6.tasks[t].(pc := UnlockTx(Block))][t := s6.tasks[t].(pc := Waiting)]
           == Caller(s, t, call, Waiting);
  }

  lemma {:induction false} SameRank(a: seq<Task>, b: seq<Task>, list: seq<nat>, t: nat)
    requires SamePriorities(a, b)
    ensures Rank(a, list, t) == Rank(b, list, t)
  {
    if list != [] { SameRank(a, b, list[1..], t); }
  }

  /** The same call out of time, looking at the clock before it could join the list. */
  function OutOfTime(t: nat, call: Call): seq<Event> {
    [Begin(t, call), Attempt(t, true), SuspendAll(t), Lock(t), Clock(t, true)]
  }

  lemma RunsOut(s: State, t: nat, call: Call)
    requires MayJoin(s, t, call)
    ensures After(s, OutOfTime(t, call), 5)
            == s.(tasks := Caller(s, t, call, UnlockTx(Expired)), owner := t, tx := 0, rx := 0)
  {
    hide After;
    var a, b := OutOfTime(t, call), Joining(t, call);
    Locks(s, t, call);
    assert a == b[..4] + [Clock(t, true)] && b == b[..4] + b[4..];
    AfterPrefix(s, b[..4], [Clock(t, true)], 4);
    AfterPrefix(s, b[..4], b[4..], 4);
    AfterOne(s, a, 4);
  }

  /** One that is not served and has no time left returns with nothing changed, a
      receiver after one more look. */
  lemma Expires(s: State, t: nat, call: Call)
    requires MayJoin(s, t, call)
    ensures var events := OutOfTime(t, call) + Leaving(t) + (if call.Send? then [] else [Look(t)]);
            After(s, events, |events|) == s.(tasks := Caller(s, t, call, Idle))
  {
    hide After;
    var a, b := OutOfTime(t, call), Leaving(t);
    RunsOut(s, t, call);
    var s5 := s.(tasks := Caller(s, t, call, UnlockTx(Expired)), owner := t, tx := 0, rx := 0);
    AfterConcat(s, a, b, 3);
    Leaves(s5, t, Expired);
    var s8 := After(s, a + b, 8);
    assert s8 == s.(tasks := Caller(s, t, call, if call.Send? then Idle else LastLook));
    if call.Send? {
      assert a + b + [] == a + b;
    } else {
      AfterConcat(s, a + b, [Look(t)], 1);
      AfterOne(s8, [Look(t)], 0);
      var x := Caller(s, t, call, LastLook);
      assert x[t := x[t].(pc := Idle)] == Caller(s, t, call, Idle);
    }
  }

  lemma {:induction false} UnlockingKeepsCount(s: State, count: int)
    ensures WakeReceivers(s, count).n == s.n && WakeReceivers(s, count).rx == s.rx
    ensures WakeReceivers(s, count).length == s.length == WakeSenders(s, count).length
    ensures WakeSenders(s, count).n == s.n && WakeSenders(s, count).tx == s.tx
    decreases |s.toReceive| + |s.toSend|
  {
    if count > 0 && s.toReceive != [] { UnlockingKeepsCount(WakeReceiver(s), count - 1); }
    if count > 0 && s.toSend != [] { UnlockingKeepsCount(WakeSender(s), count - 1); }
  }

  /** What of a state a task letting go of the queue leaves as it is. */
  predicate LetGo(s: State, r: State, t: nat, pc: Pc) {
    && t < |s.tasks| == |r.tasks| && r.tasks[t].pc == pc && r.tasks[t].call == s.tasks[t].call
    && r.n == s.n && r.length == s.length
  }

  lemma UnlocksOne(s: State, t: nat)
    requires t < |s.tasks| && s.owner == t && (s.tasks[t].pc.UnlockTx? || s.tasks[t].pc.UnlockRx?)
    ensures var a := s.tasks[t].pc.a; var r := Next(s, Unlock(t));
            && LetGo(s, r, t, if s.tasks[t].pc.UnlockTx? then UnlockRx(a) else Resume(a)) && r.owner == t
            && r.tx == (if s.tasks[t].pc.UnlockTx? then UNLOCKED else s.tx)
            && r.rx == (if s.tasks[t].pc.UnlockRx? then UNLOCKED else s.rx)
  {
    hide WakeReceivers, WakeSenders, Attempted, Placed, Resumed, Interrupted, WasReset;
    var a := s.tasks[t].pc.a;
    UnlockingKeepsPlaces(At(s, t, UnlockRx(a)), s.tx);
    UnlockingKeepsPlaces(At(s, t, Resume(a)), s.rx);
    UnlockingKeepsOwner(At(s, t, UnlockRx(a)), s.tx);
    UnlockingKeepsOwner(At(s, t, Resume(a)), s.rx);
    UnlockingKeepsCount(At(s, t, UnlockRx(a)), s.tx);
    UnlockingKeepsCount(At(s, t, Resume(a)), s.rx);
  }

  lemma Resumes(s: State, t: nat, a: Then)
    requires t < |s.tasks| && s.owner == t && s.tasks[t].pc == Resume(a)
    ensures var r := Next(s, ResumeAll(t));
            LetGo(s, r, t, Left(a, s.tasks[t].call)) && r.owner == -1 && r.tx == s.tx && r.rx == s.rx
  {
    hide Unlocked, Attempted, Placed, Interrupted, WasReset;
  }

  /** Letting go of a queue whatever has happened on it meanwhile. */
  lemma LeavesAnyhow(s: State, t: nat, a: Then)
    requires t < |s.tasks| && s.owner == t && s.tasks[t].pc == UnlockTx(a)
    ensures var r := After(s, Leaving(t), 3);
            LetGo(s, r, t, Left(a, s.tasks[t].call)) && r.owner == -1 && r.tx == r.rx == UNLOCKED
  {
    hide After, Next;
    var e := Leaving(t);
    AfterOne(s, e, 0);
    AfterOne(s, e, 1);
    AfterOne(s, e, 2);
    UnlocksOne(s, t);
    UnlocksOne(After(s, e, 1), t);
    Resumes(After(s, e, 2), t, a);
  }

  /** The interrupt that makes room for a sender, or brings a receiver its message. */
  function Help(call: Call): Event {
    if call.Send? then IsrReceive else IsrSend(false)
  }

  /** A call about to wait, with its interrupt coming just before it looks again. */
  function Helped(t: nat, call: Call): seq<Event> {
    [Help(call), Test(t)] + Leaving(t) + [Attempt(t, true)]
  }

  lemma TestsHelped(s: State, t: nat, call: Call)
    requires MayJoin(s, t, call)
    ensures var s5 := s.(tasks := Caller(s, t, call, Unexpired), owner := t, tx := 0, rx := 0);
            var r := After(s5, [Help(call), Test(t)], 2);
            && t < |r.tasks| && r.owner == t && r.tasks[t].pc == UnlockTx(Retry) && r.tasks[t].call == call
            && r.length == s.length && r.n == if call.Send? then s.n - 1 else s.n + 1
  {
    hide After, Unlocked, Attempted, Placed, Resumed, WasReset;
    var s5 := s.(tasks := Caller(s, t, call, Unexpired), owner := t, tx := 0, rx := 0);
    AfterOne(s5, [Help(call), Test(t)], 0);
    AfterOne(s5, [Help(call), Test(t)], 1);
  }

  /** What makes room, or brings a message, while the caller has the queue locked and has
      not yet looked again keeps it from waiting: it tries again and is served. */
  lemma HelpedInTime(s: State, t: nat, call: Call)
    requires MayJoin(s, t, call)
    ensures var events := Joining(t, call)[..5] + Helped(t, call); var r := After(s, events, |events|);
            && t < |r.tasks| && r.tasks[t].pc == Idle && r.owner == -1 && r.tx == r.rx == UNLOCKED
            && r.n == MessagesAfter(if call.Send? then s.n - 1 else s.n + 1, call)
  {
    hide After, Next;
    var a, b, c := Joining(t, call)[..5], [Help(call), Test(t)], Leaving(t);
    var d := [Attempt(t, true)];
    Looks(s, t, call);
    assert Joining(t, call) == a + Joining(t, call)[5..];
    AfterPrefix(s, a, Joining(t, call)[5..], 5);
    var s5 := s.(tasks := Caller(s, t, call, Unexpired), owner := t, tx := 0, rx := 0);
    TestsHelped(s, t, call);
    var s7 := After(s5, b, 2);
    LeavesAnyhow(s7, t, Retry);
    var s10 := After(s7, c, 3);
    AfterOne(s10, d, 0);
    AttemptEnds(s10, t, true);
    AttemptServes(s10, t, true);
    AfterConcat(s, a, b, 2);
    AfterConcat(s, a + b, c, 3);
    AfterConcat(s, a + b + c, d, 1);
    assert a + Helped(t, call) == a + b + c + d;
  }
}
