/** When a delayed co-routine wakes, in every run of the scheduler of
    arm/FreeRTOS/croutine.c: exactly at its time, across any number of tick overflows. */
module CoRoutineWakes {
  import opened Common
  import opened ListOrder
  import opened CoRoutineLists
  import opened CoRoutines
  import opened CoRoutineSteps
  import opened CoRoutineEvents
  import opened CoRoutineRuns

  /** The timeouts of time w have not all been dealt with. */
  predicate Before(s: Sys, w: nat) {
    Now(s.k) < w || (Now(s.k) == w && (s.pc.Expiring? || s.pc.ExpiredUnlisted?))
  }

  /** In a delay list, to wake at w, with its event item in e, and not already taken off
      the pending list. */
  predicate Asleep(s: Sys, c: nat, w: nat, e: Place) {
    && c < |s.k.priority| && PlaceOf(s.k, c, false).Delay? && Wake(s.k, c) == w && PlaceOf(s.k, c, true) == e
    && s.pc != Taken(c)
  }

  /** Off its delay list, on its way to its ready list. */
  predicate InTransit(s: Sys, c: nat) {
    (s.pc.ExpiredUnlisted? || s.pc.PendingUnlisted?) && s.pc.c == c
  }

  /** The tick is its wake time, and it is readied or about to be. */
  predicate Waking(s: Sys, c: nat, w: nat) {
    && Now(s.k) == w
    && ((s.pc.ExpiredUnlisted? && s.pc.c == c) || (IsReady(s.k, c) && (s.pc.Expiring? || s.pc.ExpiredUnlisted?)))
  }

  predicate OnTime(s: Sys, c: nat, w: nat, e: Place) {
    c < |s.k.priority| && (Asleep(s, c, w, e) || Waking(s, c, w))
  }

  /** Ready when the timeouts of its wake time have just been dealt with. */
  predicate Woken(s: Sys, c: nat, w: nat) {
    Now(s.k) == w && !Before(s, w) && IsReady(s.k, c)
  }

  /** The clock only moves in the outer loop of prvCheckDelayedList, by one tick. */
  lemma ClockMoves(s: Sys, call: Call)
    requires Ok(s)
    ensures var s' := Next(s, call);
            && Now(s'.k) == Now(s.k) + (if call.Go? && s.pc.Ticking? && s.pc.left > 0 then 1 else 0)
            && |s'.k.priority| >= |s.k.priority| && (!call.Create? ==> s'.k.priority == s.k.priority)
  {
    hide Invariant, AllRanked, Settled, Detach, Undelay, MakeReady, TickOver;
    Sizes(s.k);
    match call
    case Go => GoClock(s);
    case Isr(list) => InterruptKeeps(s.k, list);
    case AddDelay(d, e) =>
      if MayDelay(s, d, e) {
        ReadyHasNoEvent(s.k, s.running.value);
        DelayKeeps(s.k, s.running.value, d, e);
      }
    case Create(priority) =>
      if s.pc == Idle {
        NewcomerKeeps(s.k, priority);
        MakeReadyKeeps(Newcomer(s.k, priority), |s.k.priority|);
      }
    case _ =>
  }

  lemma GoClock(s: Sys)
    requires Ok(s)
    ensures Now(Went(s).k) == Now(s.k) + (if s.pc.Ticking? && s.pc.left > 0 then 1 else 0)
    ensures Went(s).k.priority == s.k.priority
  {
    hide Invariant, AllRanked, Settled, Detach, Undelay, MakeReady, TickOver;
    Sizes(s.k);
    match s.pc
    case Pendings =>
      if Items(s.k, Pending) != [] {
        PendingHead(s.k);
        EventDetached(s.k, Items(s.k, Pending)[0]);
      }
    case Taken(c) => UnlistOk(s, c);
    case PendingUnlisted(c) => RelistOk(s, c);
    case Ticking(left) => if left > 0 { TickOk(s.k); }
    case Expiring(left) =>
      DueHead(s.k);
      if Due(s.k).Some? { UnlistOk(s, Due(s.k).value); }
    case ExpiredUnlisted(c, left) => RelistOk(s, c);
    case _ =>
  }

  /** A co-routine still delayed has its time ahead of it, or dealt with right now. */
  lemma DelayedBefore(s: Sys, c: nat)
    requires Ok(s) && c < |s.k.priority| && PlaceOf(s.k, c, false).Delay?
    ensures Before(s, Wake(s.k, c))
  {
    hide AllRanked;
    if Settled(s.k) { StillAhead(s.k, c); } else { assert Timed(s.k, c); }
  }

  // --- one step ---

  lemma AsleepStep(s: Sys, call: Call, c: nat, w: nat, e: Place)
    requires Ok(s) && Asleep(s, c, w, e) && e != Pending && c !in HitsOf(s, call)
    ensures OnTime(Next(s, call), c, w, e)
  {
    hide Invariant, AllRanked, Settled, Detach, Undelay, MakeReady, TickOver, AddToDelayed;
    StepOk(s, call);
    ClockMoves(s, call);
    Sizes(s.k);
    if Subject(s, call) == Some(c) {
      if s.pc.Pendings? && call.Go? { PendingHead(s.k); }
      if s.pc.Expiring? { DueHead(s.k); }
    } else {
      assert Left(s.k, Next(s, call).k, HitsOf(s, call), c);
    }
  }

  lemma WakingStep(s: Sys, call: Call, c: nat, w: nat, e: Place)
    requires Ok(s) && c < |s.k.priority| && Waking(s, c, w)
    ensures OnTime(Next(s, call), c, w, e) || Woken(Next(s, call), c, w)
  {
    hide Invariant, AllRanked, Settled, Detach, Undelay, MakeReady, TickOver, AddToDelayed;
    StepOk(s, call);
    ClockMoves(s, call);
    Sizes(s.k);
    if s.pc.Expiring? { DueHead(s.k); }
    if Subject(s, call) == Some(c) {
      RelistOk(s, c);
    } else {
      assert Left(s.k, Next(s, call).k, HitsOf(s, call), c);
    }
  }

  lemma AsleepBefore(s: Sys, c: nat, w: nat, e: Place)
    requires Ok(s) && Asleep(s, c, w, e)
    ensures Before(s, w) && OnTime(s, c, w, e)
  {
    DelayedBefore(s, c);
  }

  /** Time does not run back over w. */
  lemma OnTimeStep(s: Sys, call: Call, c: nat, w: nat, e: Place)
    requires Ok(s) && e != Pending && c !in HitsOf(s, call)
    ensures var s' := Next(s, call);
            && (Before(s', w) ==> Before(s, w))
            && (Before(s, w) && OnTime(s, c, w, e) ==> OnTime(s', c, w, e) || Woken(s', c, w))
            && (OnTime(s', c, w, e) ==> Before(s', w) && (Now(s'.k) < w ==> Asleep(s', c, w, e)))
  {
    hide Invariant, AllRanked, Settled, Detach, Undelay, MakeReady, TickOver, AddToDelayed;
    ClockMoves(s, call);
    StepOk(s, call);
    var s' := Next(s, call);
    if OnTime(s, c, w, e) {
      if Asleep(s, c, w, e) { AsleepStep(s, call, c, w, e); } else { WakingStep(s, call, c, w, e); }
    }
    if Asleep(s', c, w, e) { AsleepBefore(s', c, w, e); }
  }

  /** Delayed or in transit, in time. */
  predicate Awaits(s: Sys, c: nat, w: nat) {
    && c < |s.k.priority| && Before(s, w)
    && (InTransit(s, c) || (PlaceOf(s.k, c, false).Delay? && Wake(s.k, c) == w))
  }

  lemma AwaitsStep(s: Sys, call: Call, c: nat, w: nat)
    requires Ok(s) && Awaits(s, c, w)
    ensures Awaits(Next(s, call), c, w) || (IsReady(Next(s, call).k, c) && Now(Next(s, call).k) <= w)
  {
    hide Invariant, AllRanked, Settled, Detach, Undelay, MakeReady, TickOver, AddToDelayed;
    StepOk(s, call);
    ClockMoves(s, call);
    Sizes(s.k);
    var s' := Next(s, call);
    if Subject(s, call) == Some(c) {
      if InTransit(s, c) { RelistOk(s, c); } else { TakenStep(s, call, c, w); }
    } else {
      assert Left(s.k, s'.k, HitsOf(s, call), c);
      if PlaceOf(s'.k, c, false).Delay? { DelayedBefore(s', c); }
    }
  }

  lemma TakenStep(s: Sys, call: Call, c: nat, w: nat)
    requires Ok(s) && Awaits(s, c, w) && Subject(s, call) == Some(c) && !InTransit(s, c)
    ensures Awaits(Next(s, call), c, w)
  {
    hide Invariant, AllRanked, Settled, Detach, Undelay, MakeReady, TickOver, AddToDelayed;
    Sizes(s.k);
    ClockMoves(s, call);
    if s.pc.Pendings? { PendingHead(s.k); EventDetached(s.k, c); }
    if s.pc.Taken? { StillAhead(s.k, c); }
    if s.pc.Expiring? { DueHead(s.k); }
  }

  /** Its event has happened, and it is not ready yet. */
  predicate Signalled(s: Sys, c: nat) {
    && c < |s.k.priority|
    && (PlaceOf(s.k, c, true) == Pending || s.pc == Taken(c) || InTransit(s, c))
  }

  lemma SignalledStep(s: Sys, call: Call, c: nat)
    requires Ok(s) && Signalled(s, c)
    ensures Signalled(Next(s, call), c) || IsReady(Next(s, call).k, c)
  {
    hide Invariant, AllRanked, Settled, Detach, Undelay, MakeReady, TickOver, AddToDelayed;
    StepOk(s, call);
    ClockMoves(s, call);
    Sizes(s.k);
    if Subject(s, call) == Some(c) {
      if InTransit(s, c) { RelistOk(s, c); } else if call.AddDelay? { ReadyHasNoEvent(s.k, c); }
    } else {
      assert Left(s.k, Next(s, call).k, HitsOf(s, call), c);
    }
  }

  // --- runs ---

  /** The state after the first i calls. */
  function At(eventLists: nat, calls: seq<Call>, i: nat): Sys
    requires i <= |calls|
  {
    After(eventLists, calls[..i])
  }

  lemma AtNext(eventLists: nat, calls: seq<Call>, i: nat)
    requires i < |calls|
    ensures At(eventLists, calls, i + 1) == Next(At(eventLists, calls, i), calls[i])
  {
    assert calls[..i + 1][..i] == calls[..i];
  }

  /** From call i to call j no event happens that c waits for. */
  predicate NoEventFor(eventLists: nat, calls: seq<Call>, i: nat, j: nat, c: nat)
    requires j <= |calls|
  {
    forall m :: i <= m < j ==> c !in HitsOf(At(eventLists, calls, m), calls[m])
  }

  predicate WokenBetween(eventLists: nat, calls: seq<Call>, i: nat, j: nat, c: nat, w: nat)
    requires j <= |calls|
  {
    exists m :: i < m <= j && Woken(At(eventLists, calls, m), c, w)
  }

  /** Whoever is delayed until w, with nothing happening that it waits for, is delayed
      at every later state before w, and by the time w is past it was ready as soon as
      the timeouts of tick w had been dealt with, no sooner and no later. */
  lemma {:induction false} WakesOnTime(eventLists: nat, calls: seq<Call>, i: nat, j: nat, c: nat, w: nat, e: Place)
    requires i <= j <= |calls| && Asleep(At(eventLists, calls, i), c, w, e) && e != Pending
    requires NoEventFor(eventLists, calls, i, j, c)
    ensures Now(At(eventLists, calls, j).k) < w ==> Asleep(At(eventLists, calls, j), c, w, e)
    ensures Before(At(eventLists, calls, j), w) ==> OnTime(At(eventLists, calls, j), c, w, e)
    ensures !Before(At(eventLists, calls, j), w) ==> WokenBetween(eventLists, calls, i, j, c, w)
  {
    hide Ok, After, Next, Asleep, Waking, IsReady, HitsOf, Wake, Now;
    RunOk(eventLists, calls[..j]);
    if i == j {
      AsleepBefore(At(eventLists, calls, j), c, w, e);
    } else {
      WakesOnTime(eventLists, calls, i, j - 1, c, w, e);
      RunOk(eventLists, calls[..j - 1]);
      AtNext(eventLists, calls, j - 1);
      OnTimeStep(At(eventLists, calls, j - 1), calls[j - 1], c, w, e);
      if WokenBetween(eventLists, calls, i, j - 1, c, w) {
        var m :| i < m <= j - 1 && Woken(At(eventLists, calls, m), c, w);
        assert i < m <= j;
      } else if Woken(At(eventLists, calls, j), c, w) {
        assert i < j <= j;
      }
    }
  }

  predicate ReadyBetween(eventLists: nat, calls: seq<Call>, i: nat, j: nat, c: nat, w: nat)
    requires j <= |calls|
  {
    exists m :: i < m <= j && IsReady(At(eventLists, calls, m).k, c) && Now(At(eventLists, calls, m).k) <= w
  }

  /** Events may ready a delayed co-routine sooner; it is never later than its time. */
  lemma {:induction false} NeverLate(eventLists: nat, calls: seq<Call>, i: nat, j: nat, c: nat)
    requires i <= j <= |calls|
    requires c < |At(eventLists, calls, i).k.priority| && PlaceOf(At(eventLists, calls, i).k, c, false).Delay?
    ensures var w := Wake(At(eventLists, calls, i).k, c);
            ReadyBetween(eventLists, calls, i, j, c, w) || Awaits(At(eventLists, calls, j), c, w)
  {
    hide Ok, After, Next, Before, IsReady, Wake, Now, InTransit;
    RunOk(eventLists, calls[..j]);
    var w := Wake(At(eventLists, calls, i).k, c);
    if i == j {
      DelayedBefore(At(eventLists, calls, j), c);
    } else {
      NeverLate(eventLists, calls, i, j - 1, c);
      RunOk(eventLists, calls[..j - 1]);
      AtNext(eventLists, calls, j - 1);
      if ReadyBetween(eventLists, calls, i, j - 1, c, w) {
        var m :| i < m <= j - 1 && IsReady(At(eventLists, calls, m).k, c) && Now(At(eventLists, calls, m).k) <= w;
        assert i < m <= j;
      } else {
        AwaitsStep(At(eventLists, calls, j - 1), calls[j - 1], c, w);
      }
    }
  }

  predicate ServedBetween(eventLists: nat, calls: seq<Call>, i: nat, j: nat, c: nat)
    requires j <= |calls|
  {
    exists m :: i < m <= j && IsReady(At(eventLists, calls, m).k, c)
  }

  /** The scheduler finds nothing pending, and reads the tick count next. */
  predicate GoesOn(s: Sys) {
    s.pc == Pendings && Items(s.k, Pending) == []
  }

  /** An event that has happened has readied its co-routine by the time the scheduler
      next goes on to the timeouts. */
  lemma {:induction false} EventServed(eventLists: nat, calls: seq<Call>, i: nat, j: nat, c: nat)
    requires i <= j <= |calls| && Signalled(At(eventLists, calls, i), c)
    ensures ServedBetween(eventLists, calls, i, j, c) || Signalled(At(eventLists, calls, j), c)
    ensures GoesOn(At(eventLists, calls, j)) ==> ServedBetween(eventLists, calls, i, j, c)
  {
    hide Ok, After, Next, IsReady, Signalled, GoesOn;
    RunOk(eventLists, calls[..j]);
    if i < j {
      EventServed(eventLists, calls, i, j - 1, c);
      RunOk(eventLists, calls[..j - 1]);
      AtNext(eventLists, calls, j - 1);
      if ServedBetween(eventLists, calls, i, j - 1, c) {
        var m :| i < m <= j - 1 && IsReady(At(eventLists, calls, m).k, c);
        assert i < m <= j;
      } else {
        SignalledStep(At(eventLists, calls, j - 1), calls[j - 1], c);
      }
    }
    if Signalled(At(eventLists, calls, j), c) { NotAtClock(At(eventLists, calls, j), c); }
  }

  lemma NotAtClock(s: Sys, c: nat)
    requires Ok(s) && Signalled(s, c)
    ensures !GoesOn(s)
  {
    if Items(s.k, Pending) == [] { NonePending(s.k); }
  }

  /** What the running co-routine asks for is what it gets: with a delay of d, and
      nothing happening to the event it waits for if any, it is delayed at every state
      before d ticks from now, and ready when that tick has been dealt with. */
  lemma DelayIsExact(eventLists: nat, calls: seq<Call>, i: nat, j: nat)
    requires i < j <= |calls| && calls[i].AddDelay?
    requires MayDelay(At(eventLists, calls, i), calls[i].d, calls[i].e)
    requires NoEventFor(eventLists, calls, i + 1, j, At(eventLists, calls, i).running.value)
    ensures var s, s' := At(eventLists, calls, i), At(eventLists, calls, j);
            var c, w := s.running.value, Now(s.k) + calls[i].d;
            && (Now(s'.k) < w ==> Asleep(s', c, w, calls[i].e))
            && (!Before(s', w) ==> WokenBetween(eventLists, calls, i, j, c, w))
  {
    hide Ok, After, Next, Asleep, IsReady, HitsOf, Wake, Now, Before, Woken;
    var s := At(eventLists, calls, i);
    RunOk(eventLists, calls[..i]);
    AtNext(eventLists, calls, i);
    DelayStarts(s, calls[i].d, calls[i].e);
    var c, w := s.running.value, Now(s.k) + calls[i].d;
    WakesOnTime(eventLists, calls, i + 1, j, c, w, calls[i].e);
    if WokenBetween(eventLists, calls, i + 1, j, c, w) {
      var m :| i + 1 < m <= j && Woken(At(eventLists, calls, m), c, w);
      assert i < m <= j;
    }
  }

  lemma DelayStarts(s: Sys, d: Tick, e: Place)
    requires Ok(s) && MayDelay(s, d, e)
    ensures Asleep(Next(s, AddDelay(d, e)), s.running.value, Now(s.k) + d, e) && e != Pending
  {
    hide Invariant, AllRanked, AddToDelayed;
    ReadyHasNoEvent(s.k, s.running.value);
    DelayKeeps(s.k, s.running.value, d, e);
  }

  // --- who is readied and who runs ---

  /** In every run an event readies a co-routine of the highest priority among those
      that wait for it. */
  lemma EventReadiesHighest(eventLists: nat, calls: seq<Call>, list: nat, u: nat)
    requires u in Items(After(eventLists, calls).k, Event(list))
    ensures var s := After(eventLists, calls); var s' := Next(s, Isr(list));
            exists c :: && HitsOf(s, Isr(list)) == {c} && c < |s.k.priority| && PlaceOf(s'.k, c, true) == Pending
                        && u < |s.k.priority| && s.k.priority[u] <= s.k.priority[c]
  {
    var s := After(eventLists, calls);
    RunOk(eventLists, calls);
    HighestIsReadied(s.k, list, u);
    assert HitsOf(s, Isr(list)) == {Items(s.k, Event(list))[0]};
  }

  /** c is ready, has the highest priority of all that are, and is next in turn. */
  predicate ChosenWell(k: Kernel, k': Kernel, c: nat) {
    && c < |k.priority| && IsReady(k, c) && IsNext(k, k', c)
    && forall u :: 0 <= u < |k.priority| && IsReady(k, u) ==> k.priority[u] <= k.priority[c]
  }

  lemma ChoosesHighest(s: Sys)
    requires Ok(s) && s.pc == Choosing
    ensures var s' := Next(s, Go);
            && (s'.pc == Idle && s'.running.Some? ==>
                  && Items(s.k, Ready(s.k.top)) != [] && s'.k == s.k.(lists := s'.k.lists)
                  && ChosenWell(s.k, s'.k, s'.running.value))
            && (s'.pc == Idle && s'.running.None? ==>
                  s'.k == s.k && forall u :: 0 <= u < |s.k.priority| ==> !IsReady(s.k, u))
  {
    hide Settled, AllRanked, Contained;
    var pl := Ready(s.k.top);
    if Items(s.k, pl) != [] {
      TurnKeeps(s.k, pl);
      TurnedHead(s.k);
      ChosenIsHighest(s.k, Chosen(Turned(s.k, pl)).value);
    } else if s.k.top == 0 {
      NoneReady(s.k);
    }
  }

  /** In every run the scheduler's choice is next in turn among the ready of the highest
      priority, and nothing is chosen only when nothing is ready. */
  lemma RunsHighest(eventLists: nat, calls: seq<Call>)
    requires After(eventLists, calls).pc == Choosing
    ensures var s := After(eventLists, calls); var s' := Next(s, Go);
            && (s'.pc == Idle && s'.running.Some? ==> ChosenWell(s.k, s'.k, s'.running.value))
            && (s'.pc == Idle && s'.running.None? ==> forall u :: 0 <= u < |s.k.priority| ==> !IsReady(s.k, u))
  {
    hide Ok, After;
    RunOk(eventLists, calls);
    ChoosesHighest(After(eventLists, calls));
  }
}
