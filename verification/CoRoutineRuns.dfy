/** Runs of the co-routine scheduler (arm/FreeRTOS/croutine.c) as a state machine: its
    steps are the critical sections and the moves between them, with interrupts between
    any two. What every run keeps, and when a delayed co-routine wakes. */
module CoRoutineRuns {
  import opened Common
  import opened ListOrder
  import opened CoRoutineLists
  import opened CoRoutines
  import opened CoRoutineSteps
  import opened CoRoutineEvents

  // --- the machine ---

  /** Where the scheduler is. A co-routine named here is in hand: out of a list it was
      in and not yet in the one it is going to. */
  datatype Pc =
    | Idle                                // not in vCoRoutineSchedule
    | Pendings                            // top of the loop of prvCheckPendingReadyList
    | Taken(c: nat)                       // off the pending list
    | PendingUnlisted(c: nat)             // and off its delay list
    | Ticking(left: Tick)                 // top of the outer loop of prvCheckDelayedList
    | Expiring(left: Tick)                // top of its inner loop
    | ExpiredUnlisted(c: nat, left: Tick) // off its delay list and any event list
    | Choosing                            // looking for the highest ready list

  datatype Sys = Sys(k: Kernel, last: Tick, running: Option<nat>, pc: Pc)

  datatype Call =
    | Isr(list: nat)                      // an interrupt, or a queue call, on this event list
    | Begin                               // vCoRoutineSchedule is called
    | Clock(t: Tick)                      // nothing pending: the kernel's tick count is read
    | Go                                  // the scheduler's next step
    | AddDelay(d: Tick, e: Place)         // by the running co-routine
    | Create(priority: nat)

  function Due(k: Kernel): Option<nat> {
    var s := Items(k, Delay(k.current));
    if s == [] || k.tick < Value(k, s[0]) then None else Some(s[0])
  }

  predicate MayDelay(s: Sys, d: Tick, e: Place) {
    && s.pc == Idle && s.running.Some? && IsReady(s.k, s.running.value) && d > 0
    && s.running.value < |s.k.value| == |s.k.wakeLap| && s.k.current <= 1
    && (e == Nowhere || (e.Event? && e in s.k.lists))
  }

  /** The scheduler's own steps. */
  function Went(s: Sys): Sys {
    match s.pc
    case Idle => s
    case Pendings =>
      if Items(s.k, Pending) == [] then s
      else
        var c := Items(s.k, Pending)[0];
        s.(k := Detach(s.k, c, true), pc := Taken(c))
    case Taken(c) => s.(k := Undelay(s.k, c), pc := PendingUnlisted(c))
    case PendingUnlisted(c) => s.(k := MakeReady(s.k, c), pc := Pendings)
    case Ticking(left) =>
      if left == 0 then s.(last := s.k.tick, pc := Choosing)
      else s.(k := TickOver(s.k), pc := Expiring(left - 1))
    case Expiring(left) =>
      (match Due(s.k)
       case None => s.(pc := Ticking(left))
       case Some(c) => s.(k := Undelay(s.k, c), pc := ExpiredUnlisted(c, left)))
    case ExpiredUnlisted(c, left) => s.(k := MakeReady(s.k, c), pc := Expiring(left))
    case Choosing =>
      if Items(s.k, Ready(s.k.top)) != [] then
        var k := Turned(s.k, Ready(s.k.top));
        s.(k := k, running := Chosen(k), pc := Idle)
      else if s.k.top == 0 then s.(running := None, pc := Idle)
      else s.(k := s.k.(top := s.k.top - 1))
  }

  function Chosen(k: Kernel): Option<nat> {
    var pl := Ready(k.top);
    if pl in k.lists && k.lists[pl].Ok() && k.lists[pl].cursor > 0 then Some(Current(k.lists[pl])) else None
  }

  /** A call that is not possible where the scheduler is changes nothing. */
  function Next(s: Sys, call: Call): Sys {
    match call
    case Isr(e) => s.(k := Interrupt(s.k, e))
    case Begin => if s.pc == Idle then s.(pc := Pendings) else s
    case Clock(t) =>
      if s.pc == Pendings && Items(s.k, Pending) == [] then s.(pc := Ticking((t - s.last) % TICKS)) else s
    case Go => Went(s)
    case AddDelay(d, e) => if MayDelay(s, d, e) then s.(k := AddToDelayed(s.k, s.running.value, d, e)) else s
    case Create(priority) =>
      if s.pc == Idle then s.(k := MakeReady(Newcomer(s.k, priority), |s.k.priority|)) else s
  }

  function Start(eventLists: nat): Sys {
    Sys(Fresh(eventLists), 0, None, Idle)
  }

  function After(eventLists: nat, calls: seq<Call>): Sys {
    if calls == [] then Start(eventLists)
    else Next(After(eventLists, calls[..|calls| - 1]), calls[|calls| - 1])
  }

  // --- what every step keeps ---

  /** Every co-routine but the one in hand is in a ready or a delay list. */
  predicate PlacedBut(k: Kernel, c: nat) {
    forall u :: 0 <= u < |k.generic| && u != c ==> k.generic[u] != Nowhere
  }

  predicate InHand(k: Kernel, c: nat) {
    c < |k.priority| && PlaceOf(k, c, false) == Nowhere == PlaceOf(k, c, true) && PlacedBut(k, c)
  }

  predicate PcOk(s: Sys) {
    match s.pc
    case Idle | Pendings | Choosing => Settled(s.k) && AllPlaced(s.k) && s.last == s.k.tick
    case Taken(c) =>
      && Settled(s.k) && AllPlaced(s.k) && s.last == s.k.tick
      && c < |s.k.priority| && PlaceOf(s.k, c, false).Delay? && PlaceOf(s.k, c, true) == Nowhere
    case PendingUnlisted(c) => Settled(s.k) && InHand(s.k, c) && s.last == s.k.tick
    case Ticking(_) => Settled(s.k) && AllPlaced(s.k)
    case Expiring(_) => AllPlaced(s.k)
    case ExpiredUnlisted(c, _) => InHand(s.k, c)
  }

  /** The invariant of every reachable state. */
  ghost predicate Ok(s: Sys) {
    && Invariant(s.k) && AllRanked(s.k) && PcOk(s)
    && (s.running.Some? ==> s.running.value < |s.k.priority|)
  }

  /** The co-routine whose own items a call moves. */
  function Subject(s: Sys, call: Call): Option<nat> {
    match call
    case Go =>
      (match s.pc
       case Pendings => if Items(s.k, Pending) == [] then None else Some(Items(s.k, Pending)[0])
       case Taken(c) => Some(c)
       case PendingUnlisted(c) => Some(c)
       case Expiring(_) => Due(s.k)
       case ExpiredUnlisted(c, _) => Some(c)
       case _ => None)
    case AddDelay(d, e) => if MayDelay(s, d, e) then s.running else None
    case _ => None
  }

  /** Those whose event happens in a call. */
  function HitsOf(s: Sys, call: Call): set<nat> {
    if call.Isr? then HitBy(s.k, call.list) else {}
  }

  /** Everyone else is left alone. */
  predicate LeavesOthers(s: Sys, call: Call) {
    forall u :: 0 <= u < |s.k.priority| && Some(u) != Subject(s, call) ==>
      Left(s.k, Next(s, call).k, HitsOf(s, call), u)
  }

  lemma IsrOk(s: Sys, e: nat)
    requires Ok(s)
    ensures Ok(Next(s, Isr(e))) && LeavesOthers(s, Isr(e))
  {
    hide Invariant, AllRanked, Interrupt, Settled, HitBy;
    Sizes(s.k);
    InterruptKeeps(s.k, e);
    InterruptRanked(s.k, e);
    var k' := Interrupt(s.k, e);
    Sizes(k');
    match s.pc
    case Taken(c) => assert Left(s.k, k', HitBy(s.k, e), c);
    case PendingUnlisted(c) => assert Left(s.k, k', HitBy(s.k, e), c);
    case ExpiredUnlisted(c, _) => assert Left(s.k, k', HitBy(s.k, e), c);
    case _ =>
  }

  lemma AddDelayOk(s: Sys, d: Tick, e: Place)
    requires Ok(s)
    ensures Ok(Next(s, AddDelay(d, e))) && LeavesOthers(s, AddDelay(d, e))
  {
    hide Invariant, AllRanked, AddToDelayed;
    if MayDelay(s, d, e) {
      var c := s.running.value;
      Sizes(s.k);
      ReadyHasNoEvent(s.k, c);
      DelayKeeps(s.k, c, d, e);
      DelayPlaces(s.k, c, d, e);
      DelayRanked(s.k, c, d, e);
    }
  }

  lemma CreateOk(s: Sys, priority: nat)
    requires Ok(s)
    ensures Ok(Next(s, Create(priority))) && LeavesOthers(s, Create(priority))
  {
    hide Invariant, AllRanked, MakeReady;
    if s.pc == Idle {
      Sizes(s.k);
      var k1, c := Newcomer(s.k, priority), |s.k.priority|;
      NewcomerKeeps(s.k, priority);
      NewcomerRanked(s.k, priority);
      MakeReadyKeeps(k1, c);
      MakeReadyRanked(k1, c);
    }
  }

  lemma TakeOk(s: Sys)
    requires Ok(s) && s.pc == Pendings
    ensures Ok(Went(s)) && LeavesOthers(s, Go)
  {
    hide Invariant, AllRanked, Detach;
    if Items(s.k, Pending) != [] {
      var c := Items(s.k, Pending)[0];
      Sizes(s.k);
      PendingHead(s.k);
      EventDetached(s.k, c);
      Containment(s.k);
      DetachRanked(s.k, c, true);
    }
  }

  lemma Containment(k: Kernel)
    requires Invariant(k)
    ensures Contained(k)
  {
  }

  lemma UnlistOk(s: Sys, c: nat)
    requires Ok(s) && c < |s.k.priority| && PlaceOf(s.k, c, false).Delay? && AllPlaced(s.k)
    ensures Invariant(Undelay(s.k, c)) && AllRanked(Undelay(s.k, c)) && InHand(Undelay(s.k, c), c)
    ensures Settled(s.k) ==> Settled(Undelay(s.k, c))
    ensures forall u :: 0 <= u < |s.k.priority| && u != c ==> Left(s.k, Undelay(s.k, c), {}, u)
    ensures OnlyUndelayed(s.k, Undelay(s.k, c), c)
  {
    hide Invariant, AllRanked, Undelay;
    Sizes(s.k);
    UndelayKeeps(s.k, c);
    UndelayRanked(s.k, c);
  }

  lemma RelistOk(s: Sys, c: nat)
    requires Ok(s) && InHand(s.k, c)
    ensures Invariant(MakeReady(s.k, c)) && AllRanked(MakeReady(s.k, c)) && AllPlaced(MakeReady(s.k, c))
    ensures Settled(s.k) ==> Settled(MakeReady(s.k, c))
    ensures forall u :: 0 <= u < |s.k.priority| && u != c ==> Left(s.k, MakeReady(s.k, c), {}, u)
    ensures OnlyReadied(s.k, MakeReady(s.k, c), c)
  {
    hide Invariant, AllRanked, MakeReady;
    Sizes(s.k);
    MakeReadyKeeps(s.k, c);
    MakeReadyRanked(s.k, c);
  }

  lemma DueHead(k: Kernel)
    requires Invariant(k)
    ensures Due(k).None? ==> Settled(k)
    ensures Due(k).Some? ==> var c := Due(k).value;
              c < |k.priority| && PlaceOf(k, c, false) == Delay(k.current) && Wake(k, c) == Now(k)
  {
    hide Invariant;
    if Due(k).None? { HeadAhead(k); } else { HeadDue(k); }
  }

  lemma ChooseOk(s: Sys)
    requires Ok(s) && s.pc == Choosing
    ensures Ok(Went(s)) && LeavesOthers(s, Go)
  {
    hide Invariant, AllRanked, Turned, Settled;
    Sizes(s.k);
    var pl := Ready(s.k.top);
    if Items(s.k, pl) != [] {
      TurnKeeps(s.k, pl);
      OthersRanked(s.k, 0, pl);
      RingAt(s.k, pl);
      TurnedHead(s.k);
      ChosenIsHighest(Turned(s.k, pl), Chosen(Turned(s.k, pl)).value);
    } else if s.k.top > 0 {
      LowerKeeps(s.k);
      OthersRanked(s.k, s.k.top - 1, pl);
    }
  }

  /** The item the index comes to is in the list. */
  lemma TurnedHead(k: Kernel)
    requires Invariant(k) && Items(k, Ready(k.top)) != []
    ensures var k' := Turned(k, Ready(k.top));
            k'.top == k.top && Chosen(k').Some? && Chosen(k').value in Items(k', Ready(k'.top))
            && IsNext(k, k', Chosen(k').value)
  {
    RingAt(k, Ready(k.top));
    AdvanceRotates(k.lists[Ready(k.top)]);
  }

  lemma GoOk(s: Sys)
    requires Ok(s)
    ensures Ok(Went(s)) && LeavesOthers(s, Go)
  {
    hide Invariant, AllRanked, Settled, Detach, Undelay, MakeReady, TickOver;
    Sizes(s.k);
    match s.pc
    case Idle =>
    case Pendings => TakeOk(s);
    case Taken(c) => UnlistOk(s, c);
    case PendingUnlisted(c) => RelistOk(s, c);
    case Ticking(left) => if left > 0 { TickOk(s.k); }
    case Expiring(left) =>
      DueHead(s.k);
      if Due(s.k).Some? { UnlistOk(s, Due(s.k).value); }
    case ExpiredUnlisted(c, left) => RelistOk(s, c);
    case Choosing => ChooseOk(s);
  }

  lemma TickOk(k: Kernel)
    requires Invariant(k) && Settled(k) && AllRanked(k)
    ensures Invariant(TickOver(k)) && AllRanked(TickOver(k)) && Now(TickOver(k)) == Now(k) + 1
    ensures TickOver(k) == k.(tick := TickOver(k).tick, lap := TickOver(k).lap, current := TickOver(k).current)
  {
    hide Invariant, AllRanked;
    TickOverKeeps(k);
    OthersRanked(k, 0, Nowhere);
  }

  lemma StepOk(s: Sys, call: Call)
    requires Ok(s)
    ensures Ok(Next(s, call)) && LeavesOthers(s, call)
  {
    hide Ok;
    match call
    case Isr(list) => IsrOk(s, list);
    case Begin => Unmoved(s, call);
    case Clock(t) => Unmoved(s, call);
    case Go => GoOk(s);
    case AddDelay(d, e) => AddDelayOk(s, d, e);
    case Create(priority) => CreateOk(s, priority);
  }

  lemma Unmoved(s: Sys, call: Call)
    requires Ok(s) && (call.Begin? || call.Clock?)
    ensures Ok(Next(s, call)) && LeavesOthers(s, call)
  {
    hide Invariant, AllRanked, Settled;
  }

  lemma {:induction false} RunOk(eventLists: nat, calls: seq<Call>)
    ensures Ok(After(eventLists, calls))
  {
    hide Ok;
    if calls == [] {
      StartOk(eventLists);
    } else {
      RunOk(eventLists, calls[..|calls| - 1]);
      StepOk(After(eventLists, calls[..|calls| - 1]), calls[|calls| - 1]);
    }
  }

  lemma StartOk(eventLists: nat)
    ensures Ok(Start(eventLists))
  {
    FreshInvariant(eventLists);
  }
}
