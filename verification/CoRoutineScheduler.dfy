/** The calls of arm/FreeRTOS/croutine.c with their loops, and interrupts between any two
    of their critical sections. Every execution is a run of the state machine. */
module CoRoutineScheduler {
  import opened Common
  import opened ListOrder
  import opened CoRoutineLists
  import opened CoRoutines
  import opened CoRoutineSteps
  import opened CoRoutineEvents
  import opened CoRoutineRuns
  import opened CoRoutineWakes
  import opened CoRoutineMoves

  /** Those waiting for an event or with one pending. */
  function EventSet(k: Kernel): set<nat> {
    set c | 0 <= c < |k.event| && PlaceOf(k, c, true) != Nowhere
  }

  /** Those in the current delay list. */
  function DelayedSet(k: Kernel): set<nat> {
    set c | 0 <= c < |k.generic| && PlaceOf(k, c, false) == Delay(k.current)
  }

  lemma EventsFewer(k: Kernel, k': Kernel, hits: set<nat>, c: nat)
    requires Invariant(k) && Invariant(k') && AllMoved(k, k', hits, true)
    requires c < |k.priority| && PlaceOf(k, c, true) == Pending && IsReady(k', c)
    ensures EventSet(k') < EventSet(k)
  {
    Sizes(k);
    Sizes(k');
    OnlyDelayedWait(k', c);
    assert c in EventSet(k) && c !in EventSet(k');
    forall d | d in EventSet(k') ensures d in EventSet(k) {
      assert Moved(k, k', hits, true, d);
    }
  }

  lemma DelayedFewer(k: Kernel, k': Kernel, hits: set<nat>, c: nat)
    requires Invariant(k) && Invariant(k') && AllMoved(k, k', hits, false) && k'.current == k.current
    requires c < |k.priority| && PlaceOf(k, c, false) == Delay(k.current) && IsReady(k', c)
    ensures DelayedSet(k') < DelayedSet(k)
  {
    Sizes(k);
    Sizes(k');
    assert c in DelayedSet(k) && c !in DelayedSet(k');
    forall d | d in DelayedSet(k') ensures d in DelayedSet(k) {
      assert Moved(k, k', hits, false, d);
    }
  }

  lemma TickArrives(k: Kernel, k': Kernel, t: Tick)
    requires Now(k') == Now(k) + (t - k.tick) % TICKS
    ensures k'.tick == t
  {
  }

  /** A pass ends with the choice, which moves nothing. */
  lemma Passed(eventLists: nat, from: seq<Call>, log: seq<Call>, k: Kernel)
    requires |from| < |log| && log[|log| - 1] == Go && Grew(eventLists, from, log[..|log| - 1], true)
    requires var was := After(eventLists, log[..|log| - 1]);
             was.pc == Choosing && k == was.k.(lists := k.lists) && Rested(After(eventLists, from))
    ensures AllMoved(After(eventLists, from).k, k, HitsSince(eventLists, log, |from|), true)
  {
    hide After, Grew;
    var n := |log| - 1;
    AllMovedRun(eventLists, from, log[..n], true);
    var k0, was := After(eventLists, from).k, After(eventLists, log[..n]).k;
    var hits := HitsSince(eventLists, log[..n], |from|);
    assert HitsSince(eventLists, log, |from|) == hits;
    forall c: nat | c < |k0.priority| ensures Moved(k0, k, hits, true, c) {
      assert Moved(k0, was, hits, true, c);
    }
  }

  /** Whose event was pending when a pass began, or whose time has come: ready. */
  lemma PassServes(k0: Kernel, k1: Kernel, k2: Kernel, k: Kernel, h0: set<nat>, h1: set<nat>, h2: set<nat>,
                   hits: set<nat>)
    requires Invariant(k) && Settled(k)
    requires OnlyEvents(k0, k1) && AllMoved(k1, k2, h1, true) && AllMoved(k2, k, h2, true)
    requires AllMoved(k0, k, hits, true)
    requires forall c :: 0 <= c < |k1.priority| ==> Left(k0, k1, h0, c)
    requires forall c :: 0 <= c < |k1.priority| && Happened(k1, h1, c) ==> IsReady(k2, c)
    ensures forall c :: 0 <= c < |k.priority| && PlaceOf(k0, c, true) == Pending ==> IsReady(k, c)
    ensures forall c :: 0 <= c < |k.priority| && PlaceOf(k0, c, false).Delay? && Wake(k0, c) <= Now(k) ==> IsReady(k, c)
  {
    forall c: nat | c < |k.priority| && PlaceOf(k0, c, true) == Pending ensures IsReady(k, c) {
      assert Left(k0, k1, h0, c) && Happened(k1, h1, c);
      assert Moved(k2, k, h2, true, c);
    }
    forall c: nat | c < |k.priority| && PlaceOf(k0, c, false).Delay? && Wake(k0, c) <= Now(k) ensures IsReady(k, c) {
      DueIsReady(k0, k, hits, c);
    }
  }

  /** With the pending list empty, whose event has happened is ready. */
  lemma AllServed(k: Kernel, k': Kernel, hits: set<nat>)
    requires Invariant(k) && Invariant(k') && Items(k', Pending) == [] && AllMoved(k, k', hits, true)
    ensures forall c :: 0 <= c < |k.priority| && Happened(k, hits, c) ==> IsReady(k', c)
  {
    NonePending(k');
    forall c: nat | c < |k.priority| && Happened(k, hits, c) ensures IsReady(k', c) {
      OnlyDelayedWait(k, c);
      assert Moved(k, k', hits, true, c);
    }
  }

  /** Delayed, with its event pending or happening. */
  predicate Happened(k: Kernel, hits: set<nat>, c: nat) {
    PlaceOf(k, c, true) == Pending || (PlaceOf(k, c, false).Delay? && c in hits)
  }

  lemma UnlistedSame(s: Sys, c: nat)
    requires Ok(s) && c < |s.k.priority| && (s.pc == Taken(c) || (s.pc.Expiring? && Went(s).k == Undelay(s.k, c)))
    ensures var k' := Undelay(s.k, c);
            k'.current == s.k.current && Now(k') == Now(s.k) && k'.priority == s.k.priority
  {
    ValuesKept(s.k, c, false);
    ValuesKept(Detach(s.k, c, false), c, true);
  }

  /** The globals of the co-routine scheduler; where it is in its code; and the calls,
      steps and interrupts so far. */
  class Scheduler {
    var k: Kernel
    var last: Tick
    var running: Option<nat>
    ghost var pc: Pc
    ghost var log: seq<Call>
    ghost const eventLists: nat

    ghost function State(): Sys
      reads this
    {
      Sys(k, last, running, pc)
    }

    /** The state is the one the machine is in after these calls. */
    ghost predicate Going()
      reads this
    {
      State() == After(eventLists, log) && Ok(State())
    }

    /** Holds between calls. */
    ghost predicate Valid()
      reads this
    {
      Going() && pc == Idle
    }

    /** The state before the last step. */
    ghost function Prior(): Sys
      reads this
      requires log != []
    {
      After(eventLists, log[..|log| - 1])
    }

    /** prvInitialiseCoRoutineLists, with the event lists of so many queue ends. */
    constructor (eventLists: nat)
      ensures Valid() && k.priority == [] && Now(k) == 0 && log == [] && this.eventLists == eventLists
      ensures forall e: nat :: Event(e) in k.lists <==> e < eventLists
    {
      k := Fresh(eventLists);
      last, running := 0, None;
      pc, log := Idle, [];
      this.eventLists := eventLists;
      new;
      FreshInvariant(eventLists);
      StartOk(eventLists);
    }

    /** The machine has made the same step. */
    ghost method Record(s: Sys, call: Call, from: seq<Call>, byEvent: bool)
      requires s == After(eventLists, log) && Ok(s) && State() == Next(s, call)
      modifies this`log
      ensures Going() && log == old(log) + [call]
      ensures Now(k) == Now(s.k) + (if call.Go? && s.pc.Ticking? && s.pc.left > 0 then 1 else 0)
      ensures Grew(eventLists, from, old(log), byEvent) && Scheduling(s, call, byEvent) ==>
                Grew(eventLists, from, log, byEvent)
    {
      hide Ok, Next, Scheduling, Now;
      StepOk(s, call);
      ClockMoves(s, call);
      log := log + [call];
      assert log[..|log| - 1] == old(log);
      if Grew(eventLists, from, old(log), byEvent) && Scheduling(s, call, byEvent) {
        assert Grew(eventLists, old(log), log, byEvent);
        GrewTrans(eventLists, from, old(log), log, byEvent);
      }
    }

    /** xCoRoutineRemoveFromEventList, in an interrupt: the head of the event list, if
        there is one, goes to the end of the pending list. */
    method RemoveFromEventList(list: nat)
      requires Going()
      modifies this`k, this`log
      ensures Going() && log == old(log) + [Isr(list)] && Grew(eventLists, old(log), log, false)
      ensures OnlyEvents(old(k), k)
      ensures forall c :: 0 <= c < |k.priority| ==> Left(old(k), k, HitBy(old(k), list), c)
      ensures var s := Items(old(k), Event(list));
              s != [] ==> Items(k, Event(list)) == s[1..] && Items(k, Pending) == Items(old(k), Pending) + [s[0]]
    {
      hide Invariant, AllRanked, Settled, Interrupt;
      ghost var s := State();
      InterruptKeeps(k, list);
      k := Interrupt(k, list);
      Record(s, Isr(list), log, false);
    }

    /** Any number of interrupts. */
    method Interrupts(ghost from: seq<Call>, ghost byEvent: bool)
      requires Going()
      modifies this`k, this`log
      ensures Going() && |log| >= |old(log)| && OnlyEvents(old(k), k) && Now(k) == Now(old(k))
      ensures forall c :: 0 <= c < |k.priority| ==> Left(old(k), k, HitsSince(eventLists, log, |old(log)|), c)
      ensures Grew(eventLists, from, old(log), byEvent) ==> Grew(eventLists, from, log, byEvent)
    {
      hide Ok, Next, After, Grew, Left;
      AllLeft(k);
      var n: nat := *;
      while n > 0
        invariant Going() && |log| >= |old(log)| && OnlyEvents(old(k), k)
        invariant forall c :: 0 <= c < |k.priority| ==> Left(old(k), k, HitsSince(eventLists, log, |old(log)|), c)
        invariant Grew(eventLists, from, old(log), byEvent) ==> Grew(eventLists, from, log, byEvent)
      {
        var list: nat := *;
        ghost var was, wasLog := k, log;
        RemoveFromEventList(list);
        GrewBy(eventLists, from, wasLog, log, byEvent);
        MoreHits(eventLists, wasLog, Isr(list), |old(log)|);
        LeftTrans(old(k), was, k, HitsSince(eventLists, wasLog, |old(log)|), HitBy(was, list));
        n := n - 1;
      }
    }

    /** The head of the pending list leaves it, in a critical section; then interrupts. */
    method TakePending() returns (c: nat)
      requires Going() && pc == Pendings && Items(k, Pending) != []
      modifies this`k, this`pc, this`log
      ensures Going() && pc == Taken(c) && Grew(eventLists, old(log), log, true) && Now(k) == Now(old(k))
      ensures c == Items(old(k), Pending)[0] && c < |old(k).priority| && PlaceOf(old(k), c, true) == Pending
    {
      hide Detach, Invariant, AllRanked, Settled;
      ghost var s, from := State(), log;
      PendingHead(k);
      c := Items(k, Pending)[0];
      k, pc := Detach(k, c, true), Taken(c);
      GrewNone(eventLists, from);
      GrewMore(eventLists, from, from);
      Record(s, Go, from, true);
      Interrupts(from, true);
    }

    /** Out of its delay list, and of an event list if it is in one; then interrupts. */
    method Unlist(c: nat, ghost to: Pc, ghost from: seq<Call>, ghost byEvent: bool)
      requires Going() && c < |k.priority| && Next(State(), Go) == Sys(Undelay(k, c), last, running, to)
      requires pc == Taken(c) || pc.Expiring?
      requires Grew(eventLists, from, log, byEvent) && (byEvent || pc.Expiring?)
      modifies this`k, this`pc, this`log
      ensures Going() && pc == to && Grew(eventLists, from, log, byEvent)
      ensures Now(k) == Now(old(k)) && k.current == old(k).current && |k.priority| == |old(k).priority|
    {
      hide Undelay, Invariant, AllRanked, Settled;
      ghost var s := State();
      UnlistedSame(s, c);
      k, pc := Undelay(k, c), to;
      Record(s, Go, from, byEvent);
      Interrupts(from, byEvent);
    }

    /** prvAddCoRoutineToReadyQueue; then interrupts. */
    method Relist(c: nat, ghost to: Pc, ghost from: seq<Call>, ghost byEvent: bool)
      requires Going() && c < |k.priority| && Next(State(), Go) == Sys(MakeReady(k, c), last, running, to)
      requires pc == PendingUnlisted(c) || (pc.ExpiredUnlisted? && pc.c == c)
      requires Grew(eventLists, from, log, byEvent) && (byEvent || pc.ExpiredUnlisted?)
      modifies this`k, this`pc, this`log
      ensures Going() && pc == to && Grew(eventLists, from, log, byEvent)
      ensures Now(k) == Now(old(k)) && k.current == old(k).current && IsReady(k, c)
    {
      hide MakeReady, Invariant, AllRanked, Settled;
      ghost var s := State();
      RelistOk(s, c);
      k, pc := MakeReady(k, c), to;
      Record(s, Go, from, byEvent);
      Interrupts(from, byEvent);
    }

    /** One turn of the loop of prvCheckPendingReadyList. */
    method ReleasePending()
      requires Going() && pc == Pendings && Items(k, Pending) != []
      modifies this`k, this`pc, this`log
      ensures Going() && pc == Pendings && Grew(eventLists, old(log), log, true) && Now(k) == Now(old(k))
      ensures AllMoved(old(k), k, HitsSince(eventLists, log, |old(log)|), true)
      ensures IsReady(k, Items(old(k), Pending)[0]) && EventSet(k) < EventSet(old(k))
    {
      hide Undelay, MakeReady, Invariant, AllRanked, Settled, AllMoved, After, Grew, Now;
      ghost var from := log;
      var c := TakePending();
      Unlist(c, PendingUnlisted(c), from, true);
      Relist(c, Pendings, from, true);
      AllMovedRun(eventLists, from, log, true);
      EventsFewer(old(k), k, HitsSince(eventLists, log, |from|), c);
    }

    /** prvCheckPendingReadyList. */
    method CheckPendingReadyList()
      requires Going() && pc == Pendings
      modifies this`k, this`pc, this`log
      ensures Going() && pc == Pendings && Items(k, Pending) == []
      ensures Grew(eventLists, old(log), log, true) && Now(k) == Now(old(k))
      ensures AllMoved(old(k), k, HitsSince(eventLists, log, |old(log)|), true)
      ensures var hits := HitsSince(eventLists, log, |old(log)|);
              forall c :: 0 <= c < |old(k).priority| && Happened(old(k), hits, c) ==> IsReady(k, c)
    {
      hide AllMoved, After, Grew, Now, HitsSince, Happened, IsReady, Invariant, AllRanked, Settled, AllPlaced;
      ghost var from := log;
      GrewNone(eventLists, from);
      GrewMore(eventLists, from, from);
      while Items(k, Pending) != []
        invariant Going() && pc == Pendings && Grew(eventLists, from, log, true) && Now(k) == Now(old(k))
        decreases EventSet(k)
      {
        ghost var was := log;
        ReleasePending();
        GrewTrans(eventLists, from, was, log, true);
      }
      AllMovedRun(eventLists, from, log, true);
      AllServed(old(k), k, HitsSince(eventLists, log, |from|));
    }

    /** The head of the delay list is due. */
    method ReleaseDue(ghost left: Tick, ghost from: seq<Call>)
      requires Going() && pc == Expiring(left) && Due(k).Some? && Grew(eventLists, from, log, false)
      modifies this`k, this`pc, this`log
      ensures Going() && pc == Expiring(left) && Grew(eventLists, from, log, false)
      ensures Now(k) == Now(old(k)) && DelayedSet(k) < DelayedSet(old(k))
    {
      hide Undelay, MakeReady, Invariant, AllRanked, Settled, AllMoved, After, Grew, Now;
      ghost var start := log;
      GrewNone(eventLists, start);
      var c := Items(k, Delay(k.current))[0];
      DueHead(k);
      Unlist(c, ExpiredUnlisted(c, left), start, false);
      Relist(c, Expiring(left), start, false);
      GrewTrans(eventLists, from, start, log, false);
      AllMovedRun(eventLists, start, log, false);
      DelayedFewer(old(k), k, HitsSince(eventLists, log, |start|), c);
    }

    /** The inner loop of prvCheckDelayedList. */
    method ReleaseAllDue(ghost left: Tick, ghost from: seq<Call>)
      requires Going() && pc == Expiring(left) && Grew(eventLists, from, log, false)
      modifies this`k, this`pc, this`log
      ensures Going() && pc == Expiring(left) && Grew(eventLists, from, log, false)
      ensures Now(k) == Now(old(k)) && Due(k).None?
    {
      hide Ok, After, Grew, Now;
      while Items(k, Delay(k.current)) != []
        invariant Going() && pc == Expiring(left) && Grew(eventLists, from, log, false) && Now(k) == Now(old(k))
        decreases DelayedSet(k)
      {
        Interrupts(from, false);
        if k.tick < Value(k, Items(k, Delay(k.current))[0]) {
          break;
        }
        ReleaseDue(left, from);
      }
    }

    /** One turn of the outer loop of prvCheckDelayedList. */
    method TickOnce(ghost left: Tick)
      requires Going() && left > 0 && pc == Ticking(left)
      modifies this`k, this`pc, this`log
      ensures Going() && pc == Ticking(left - 1) && Grew(eventLists, old(log), log, false)
      ensures Now(k) == Now(old(k)) + 1 && AllMoved(old(k), k, HitsSince(eventLists, log, |old(log)|), false)
      ensures TimedOut(old(k), k, HitsSince(eventLists, log, |old(log)|))
    {
      hide TickOver, Invariant, AllRanked, Settled, AllMoved, After, Grew, Now, TimedOut, AllPlaced;
      ghost var s, from := State(), log;
      GrewNone(eventLists, from);
      k, pc := TickOver(k), Expiring(left - 1);
      Record(s, Go, from, false);
      ReleaseAllDue(left - 1, from);
      ghost var s' := State();
      pc := Ticking(left - 1);
      Record(s', Go, from, false);
      AllMovedRun(eventLists, from, log, false);
      AllTimedOut(old(k), k, HitsSince(eventLists, log, |from|));
    }

    /** The ticks that have passed since the last time. */
    method PassTicks(passed: Tick)
      requires Going() && pc == Ticking(passed)
      modifies this`k, this`pc, this`log
      ensures Going() && pc == Ticking(0) && Grew(eventLists, old(log), log, false) && Now(k) == Now(old(k)) + passed
    {
      hide Ok, After, Grew, Now, AllMoved, TimedOut;
      ghost var from := log;
      GrewNone(eventLists, from);
      var left: Tick := passed;
      while left > 0
        invariant Going() && pc == Ticking(left) && Grew(eventLists, from, log, false)
        invariant Now(k) + left == Now(old(k)) + passed
      {
        Interrupts(from, false);
        ghost var was := log;
        TickOnce(left);
        GrewTrans(eventLists, from, was, log, false);
        left := left - 1;
      }
    }

    /** prvCheckDelayedList, when the tick count of the kernel is taskTick. */
    method CheckDelayedList(taskTick: Tick)
      requires Going() && pc == Pendings && Items(k, Pending) == []
      modifies this`k, this`last, this`pc, this`log
      ensures Going() && pc == Choosing && Grew(eventLists, old(log), log, false)
      ensures k.tick == last == taskTick && Now(k) == Now(old(k)) + (taskTick - old(last)) % TICKS
      ensures AllMoved(old(k), k, HitsSince(eventLists, log, |old(log)|), false)
      ensures TimedOut(old(k), k, HitsSince(eventLists, log, |old(log)|))
    {
      hide Invariant, AllRanked, Settled, AllMoved, After, Grew, TimedOut, AllPlaced, Now;
      ghost var s, from := State(), log;
      GrewNone(eventLists, from);
      var passed: Tick := (taskTick - last) % TICKS;
      pc := Ticking(passed);
      Record(s, Clock(taskTick), from, false);
      ghost var was := log;
      PassTicks(passed);
      GrewTrans(eventLists, from, was, log, false);
      TickArrives(old(k), k, taskTick);
      ghost var s' := State();
      last, pc := k.tick, Choosing;
      Record(s', Go, from, false);
      AllMovedRun(eventLists, from, log, false);
      AllTimedOut(old(k), k, HitsSince(eventLists, log, |from|));
    }

    /** The search for the highest ready list, and the step of its index. */
    method Choose() returns (r: Option<nat>)
      requires Going() && pc == Choosing
      modifies this`k, this`running, this`pc, this`log
      ensures Valid() && running == r && Now(k) == Now(old(k)) && k.tick == old(k).tick
      ensures |old(log)| < |log| && log[|log| - 1] == Go && Grew(eventLists, old(log), log[..|log| - 1], false)
      ensures Prior().pc == Choosing && k == Prior().k.(lists := k.lists)
      ensures r.Some? ==> ChosenWell(Prior().k, k, r.value)
      ensures r.None? ==> forall u :: 0 <= u < |k.priority| ==> !IsReady(k, u)
    {
      hide Invariant, AllRanked, Settled, After, Grew, ChosenWell, Turned, Now;
      ghost var from := log;
      GrewNone(eventLists, from);
      while Items(k, Ready(k.top)) == []
        invariant Going() && pc == Choosing && |from| <= |log| && Grew(eventLists, from, log, false)
        invariant Now(k) == Now(old(k)) && k.tick == old(k).tick
        decreases k.top
      {
        ghost var s, was := State(), log;
        if k.top == 0 {
          running, pc, r := None, Idle, None;
          ChoosesHighest(s);
          Record(s, Go, from, false);
          assert log[..|log| - 1] == was;
          return;
        }
        k := k.(top := k.top - 1);
        Record(s, Go, from, false);
        Interrupts(from, false);
      }
      ghost var s, was := State(), log;
      k := Turned(k, Ready(k.top));
      running, pc := Chosen(k), Idle;
      r := running;
      ChoosesHighest(s);
      Record(s, Go, from, false);
      assert log[..|log| - 1] == was;
    }

    /** What vCoRoutineSchedule does after the pending list. */
    method FinishPass(taskTick: Tick) returns (r: Option<nat>)
      requires Going() && pc == Pendings && Items(k, Pending) == []
      modifies this
      ensures Valid() && running == r && k.tick == taskTick && |old(log)| < |log| && log[|log| - 1] == Go
      ensures Now(k) == Now(old(k)) + (taskTick - old(last)) % TICKS
      ensures Grew(eventLists, old(log), log[..|log| - 1], true)
      ensures Prior().pc == Choosing && k == Prior().k.(lists := k.lists)
      ensures r.Some? ==> ChosenWell(Prior().k, k, r.value)
      ensures r.None? ==> forall u :: 0 <= u < |k.priority| ==> !IsReady(k, u)
    {
      hide Ok, After, Grew, AllMoved, TimedOut, ChosenWell, Now, HitsSince, Left;
      ghost var from := log;
      CheckDelayedList(taskTick);
      Interrupts(from, false);
      ghost var was := log;
      r := Choose();
      GrewTrans(eventLists, from, was, log[..|log| - 1], false);
      GrewMore(eventLists, from, log[..|log| - 1]);
    }

    /** vCoRoutineSchedule up to the call of the co-routine chosen. Events and timeouts are
        dealt with, nothing else has moved, and the choice is the next in turn among the
        ready of the highest priority. */
    method Schedule(taskTick: Tick) returns (r: Option<nat>)
      requires Valid()
      modifies this
      ensures Valid() && running == r && k.tick == taskTick
      ensures Now(k) == Now(old(k)) + (taskTick - old(k).tick) % TICKS && old(log) < log
      ensures AllMoved(old(k), k, HitsSince(eventLists, log, |old(log)|), true)
      ensures forall c :: 0 <= c < |k.priority| && PlaceOf(old(k), c, true) == Pending ==> IsReady(k, c)
      ensures forall c :: 0 <= c < |k.priority| && PlaceOf(old(k), c, false).Delay? && Wake(old(k), c) <= Now(k) ==>
                IsReady(k, c)
      ensures Prior().pc == Choosing && k == Prior().k.(lists := k.lists)
      ensures r.Some? ==> ChosenWell(Prior().k, k, r.value)
      ensures r.None? ==> forall u :: 0 <= u < |k.priority| ==> !IsReady(k, u)
    {
      hide Invariant, AllRanked, Settled, AllPlaced, After, Grew, AllMoved, TimedOut, ChosenWell, Now, HitsSince, Moved,
           Left, Happened;
      ghost var s, from := State(), log;
      GrewNone(eventLists, from);
      GrewMore(eventLists, from, from);
      pc := Pendings;
      Record(s, Begin, from, true);
      ghost var l0 := log;
      Interrupts(from, true);
      ghost var l1, k1, h0 := log, k, HitsSince(eventLists, log, |l0|);
      CheckPendingReadyList();
      GrewTrans(eventLists, from, l1, log, true);
      ghost var l2, k2, h1 := log, k, HitsSince(eventLists, log, |l1|);
      r := FinishPass(taskTick);
      GrewTrans(eventLists, from, l2, log[..|log| - 1], true);
      Passed(eventLists, from, log, k);
      Passed(eventLists, l2, log, k);
      PassServes(s.k, k1, k2, k, h0, h1, HitsSince(eventLists, log, |l2|), HitsSince(eventLists, log, |from|));
    }

    /** vCoRoutineAddToDelayedList, called by the running co-routine. */
    method AddToDelayedList(d: Tick, e: Place)
      requires Valid() && running.Some? && IsReady(k, running.value) && d > 0
      requires e == Nowhere || (e.Event? && e in k.lists)
      modifies this`k, this`log
      ensures Valid() && log == old(log) + [AddDelay(d, e)]
      ensures Now(k) == Now(old(k)) && k.priority == old(k).priority && k.lists.Keys == old(k).lists.Keys
      ensures Asleep(State(), running.value, Now(k) + d, e)
      ensures forall u :: 0 <= u < |k.priority| && u != running.value ==> Left(old(k), k, {}, u)
    {
      hide Invariant, AllRanked, Settled, AddToDelayed;
      ghost var s := State();
      Sizes(k);
      ReadyHasNoEvent(k, running.value);
      DelayKeeps(k, running.value, d, e);
      k := AddToDelayed(k, running.value, d, e);
      Record(s, AddDelay(d, e), log, false);
    }

    /** xCoRoutineCreate: a new co-routine starts in the ready list of its priority. */
    method Create(priority: nat) returns (c: nat)
      requires Valid()
      modifies this`k, this`log
      ensures Valid() && log == old(log) + [CoRoutineRuns.Create(priority)] && Now(k) == Now(old(k))
      ensures c == |old(k).priority|
      ensures k.priority == old(k).priority + [if priority >= LEVELS then LEVELS - 1 else priority]
      ensures PlaceOf(k, c, false) == Ready(k.priority[c]) && PlaceOf(k, c, true) == Nowhere
      ensures forall u :: 0 <= u < c ==> Left(old(k), k, {}, u)
    {
      hide Invariant, AllRanked, Settled, MakeReady;
      ghost var s := State();
      Sizes(k);
      c := |k.priority|;
      NewcomerKeeps(k, priority);
      MakeReadyKeeps(Newcomer(k, priority), c);
      k := MakeReady(Newcomer(k, priority), c);
      Record(s, CoRoutineRuns.Create(priority), log, false);
    }
  }
}
