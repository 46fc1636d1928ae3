/** What any stretch of scheduling does to each co-routine (arm/FreeRTOS/croutine.c),
    interrupts included. */
module CoRoutineMoves {
  import opened Common
  import opened ListOrder
  import opened CoRoutineLists
  import opened CoRoutines
  import opened CoRoutineSteps
  import opened CoRoutineEvents
  import opened CoRoutineRuns
  import opened CoRoutineWakes

  // --- what calls of the scheduler and interrupts do to a co-routine ---

  predicate Timeouts(pc: Pc) {
    pc.Ticking? || pc.Expiring? || pc.ExpiredUnlisted? || pc.Choosing?
  }

  /** An interrupt or a step of the scheduler, short of its choice; without byEvent, not
      one that serves the pending list. */
  predicate Scheduling(s: Sys, call: Call, byEvent: bool) {
    && !call.AddDelay? && !call.Create?
    && (byEvent || Timeouts(s.pc) || !call.Go?)
    && (call.Go? && s.pc == Choosing ==> Items(s.k, Ready(s.k.top)) == [])
  }

  /** The run went on with such calls only. */
  predicate Grew(eventLists: nat, a: seq<Call>, b: seq<Call>, byEvent: bool) {
    a <= b && forall m :: |a| <= m < |b| ==> Scheduling(After(eventLists, b[..m]), b[m], byEvent)
  }

  /** Those whose event happened from call i on. */
  function HitsSince(eventLists: nat, calls: seq<Call>, i: nat): set<nat> {
    if |calls| <= i then {}
    else
      var n := |calls| - 1;
      HitsSince(eventLists, calls[..n], i) + HitsOf(After(eventLists, calls[..n]), calls[n])
  }

  /** A ready co-routine stays ready. A delayed one is left alone, or readied because its
      time has come or, if the pending list was served, its event has happened. */
  predicate Moved(k: Kernel, k': Kernel, hits: set<nat>, byEvent: bool, c: nat) {
    if !PlaceOf(k, c, false).Delay? then
      PlaceOf(k', c, false) == PlaceOf(k, c, false) && PlaceOf(k', c, true) == PlaceOf(k, c, true)
    else if PlaceOf(k', c, false).Delay? then Left(k, k', hits, c)
    else
      && c < |k.priority| && PlaceOf(k', c, false) == Ready(k.priority[c]) && PlaceOf(k', c, true) == Nowhere
      && Cause(k, k', hits, byEvent, c)
  }

  predicate Cause(k: Kernel, k': Kernel, hits: set<nat>, byEvent: bool, c: nat) {
    Wake(k, c) <= Now(k') || (byEvent && (PlaceOf(k, c, true) == Pending || c in hits))
  }

  ghost predicate AllMoved(k: Kernel, k': Kernel, hits: set<nat>, byEvent: bool) {
    && k'.priority == k.priority && Now(k) <= Now(k')
    && forall c :: 0 <= c < |k.priority| ==> Moved(k, k', hits, byEvent, c)
  }

  /** The same, while co-routines may be in hand. */
  predicate MovedTo(k: Kernel, s: Sys, hits: set<nat>, byEvent: bool, c: nat) {
    if !InHandOf(s, c) then Moved(k, s.k, hits, byEvent, c)
    else
      && PlaceOf(k, c, false).Delay? && PlaceOf(s.k, c, true) == Nowhere
      && Cause(k, s.k, hits, byEvent, c)
      && (s.pc == Taken(c) ==> Wake(s.k, c) == Wake(k, c))
  }

  predicate InHandOf(s: Sys, c: nat) {
    (s.pc.Taken? || s.pc.PendingUnlisted? || s.pc.ExpiredUnlisted?) && s.pc.c == c
  }

  lemma MovedStep(k: Kernel, s: Sys, call: Call, hits: set<nat>, byEvent: bool, c: nat)
    requires Ok(s) && Scheduling(s, call, byEvent) && c < |k.priority| && s.k.priority == k.priority
    requires MovedTo(k, s, hits, byEvent, c)
    ensures MovedTo(k, Next(s, call), hits + HitsOf(s, call), byEvent, c)
  {
    hide Invariant, AllRanked, Settled, Detach, Undelay, MakeReady, TickOver, AddToDelayed;
    StepOk(s, call);
    ClockMoves(s, call);
    Sizes(s.k);
    if Subject(s, call) == Some(c) {
      SubjectMoved(k, s, call, hits, byEvent, c);
    } else {
      assert Left(s.k, Next(s, call).k, HitsOf(s, call), c);
      OnlyDelayedWait(s.k, c);
    }
  }

  lemma OnlyDelayedWait(k: Kernel, c: nat)
    requires Invariant(k) && c < |k.priority|
    ensures PlaceOf(k, c, true) == Nowhere || PlaceOf(k, c, false).Delay?
  {
    assert WaitsDelayed(k, c);
  }

  lemma SubjectMoved(k: Kernel, s: Sys, call: Call, hits: set<nat>, byEvent: bool, c: nat)
    requires Ok(s) && Scheduling(s, call, byEvent) && c < |k.priority| && s.k.priority == k.priority
    requires MovedTo(k, s, hits, byEvent, c) && Subject(s, call) == Some(c)
    ensures MovedTo(k, Next(s, call), hits + HitsOf(s, call), byEvent, c)
  {
    hide Invariant, AllRanked, Settled, Detach, Undelay, MakeReady, TickOver, AddToDelayed;
    Sizes(s.k);
    ClockMoves(s, call);
    match s.pc
    case Pendings =>
      PendingHead(s.k);
      EventDetached(s.k, c);
    case Taken(_) => UnlistOk(s, c);
    case Expiring(_) =>
      DueHead(s.k);
      UnlistOk(s, c);
    case _ => RelistOk(s, c);
  }

  lemma GrewTrans(eventLists: nat, a: seq<Call>, b: seq<Call>, c: seq<Call>, byEvent: bool)
    requires Grew(eventLists, a, b, byEvent) && Grew(eventLists, b, c, byEvent)
    ensures Grew(eventLists, a, c, byEvent)
  {
    forall m | |a| <= m < |c| ensures Scheduling(After(eventLists, c[..m]), c[m], byEvent) {
      if m < |b| { assert c[..m] == b[..m]; }
    }
  }

  lemma GrewNone(eventLists: nat, a: seq<Call>)
    ensures Grew(eventLists, a, a, false)
  {
  }

  /** A run that grew by steps that do not serve the pending list. */
  lemma GrewBy(eventLists: nat, a: seq<Call>, b: seq<Call>, c: seq<Call>, byEvent: bool)
    requires Grew(eventLists, b, c, false)
    ensures Grew(eventLists, a, b, byEvent) ==> Grew(eventLists, a, c, byEvent)
  {
    if Grew(eventLists, a, b, byEvent) {
      if byEvent { GrewMore(eventLists, b, c); }
      GrewTrans(eventLists, a, b, c, byEvent);
    }
  }

  lemma GrewMore(eventLists: nat, a: seq<Call>, b: seq<Call>)
    requires Grew(eventLists, a, b, false)
    ensures Grew(eventLists, a, b, true)
  {
    forall m | |a| <= m < |b| ensures Scheduling(After(eventLists, b[..m]), b[m], true) {
      assert Scheduling(After(eventLists, b[..m]), b[m], false);
    }
  }

  /** Nothing is in hand. */
  predicate Rested(s: Sys) {
    !s.pc.Taken? && !s.pc.PendingUnlisted? && !s.pc.ExpiredUnlisted?
  }

  lemma {:induction false} MovedRun(eventLists: nat, a: seq<Call>, b: seq<Call>, byEvent: bool, c: nat)
    requires Grew(eventLists, a, b, byEvent) && Rested(After(eventLists, a))
    requires c < |After(eventLists, a).k.priority|
    ensures var s, s' := After(eventLists, a), After(eventLists, b);
            && s'.k.priority == s.k.priority && Now(s.k) <= Now(s'.k)
            && MovedTo(s.k, s', HitsSince(eventLists, b, |a|), byEvent, c)
    decreases |b|
  {
    hide Ok, Next, MovedTo, Scheduling, HitsOf, Now;
    if b == a {
      RunOk(eventLists, a);
      NotMoved(After(eventLists, a), byEvent, c);
    } else {
      var n := |b| - 1;
      GrewButLast(eventLists, a, b, byEvent);
      MovedRun(eventLists, a, b[..n], byEvent, c);
      RunOk(eventLists, b[..n]);
      assert Scheduling(After(eventLists, b[..n]), b[n], byEvent);
      NotCreated(After(eventLists, b[..n]), b[n], byEvent);
      var hits := HitsSince(eventLists, b[..n], |a|);
      MovedStep(After(eventLists, a).k, After(eventLists, b[..n]), b[n], hits, byEvent, c);
    }
  }

  lemma GrewButLast(eventLists: nat, a: seq<Call>, b: seq<Call>, byEvent: bool)
    requires Grew(eventLists, a, b, byEvent) && a != b
    ensures |a| < |b| && Grew(eventLists, a, b[..|b| - 1], byEvent)
  {
    var b' := b[..|b| - 1];
    forall m | |a| <= m < |b'| ensures Scheduling(After(eventLists, b'[..m]), b'[m], byEvent) {
      assert b'[..m] == b[..m];
    }
  }

  lemma NotMoved(s: Sys, byEvent: bool, c: nat)
    requires Ok(s) && Rested(s) && c < |s.k.priority|
    ensures MovedTo(s.k, s, {}, byEvent, c)
  {
    hide AllRanked, Settled;
    Sizes(s.k);
  }

  lemma NotCreated(s: Sys, call: Call, byEvent: bool)
    requires Ok(s) && Scheduling(s, call, byEvent)
    ensures Next(s, call).k.priority == s.k.priority && Now(s.k) <= Now(Next(s, call).k)
  {
    ClockMoves(s, call);
  }

  lemma AllMovedRun(eventLists: nat, a: seq<Call>, b: seq<Call>, byEvent: bool)
    requires Grew(eventLists, a, b, byEvent) && Rested(After(eventLists, a)) && Rested(After(eventLists, b))
    ensures var s, s' := After(eventLists, a), After(eventLists, b);
            AllMoved(s.k, s'.k, HitsSince(eventLists, b, |a|), byEvent)
  {
    hide Moved, Grew, After, Now;
    var s, s' := After(eventLists, a), After(eventLists, b);
    var hits := HitsSince(eventLists, b, |a|);
    forall c: nat | c < |s.k.priority| ensures Moved(s.k, s'.k, hits, byEvent, c) {
      MovedRun(eventLists, a, b, byEvent, c);
    }
    ClockRun(eventLists, a, b, byEvent);
  }

  lemma {:induction false} ClockRun(eventLists: nat, a: seq<Call>, b: seq<Call>, byEvent: bool)
    requires Grew(eventLists, a, b, byEvent)
    ensures var s, s' := After(eventLists, a), After(eventLists, b);
            s'.k.priority == s.k.priority && Now(s.k) <= Now(s'.k)
    decreases |b|
  {
    hide Ok, Next, Scheduling, Now;
    if b != a {
      var n := |b| - 1;
      GrewButLast(eventLists, a, b, byEvent);
      ClockRun(eventLists, a, b[..n], byEvent);
      RunOk(eventLists, b[..n]);
      assert Scheduling(After(eventLists, b[..n]), b[n], byEvent);
      NotCreated(After(eventLists, b[..n]), b[n], byEvent);
    }
  }

  /** Of the delayed exactly those whose time has come are ready, the others are left
      alone. */
  predicate TimedOut(k: Kernel, k': Kernel, hits: set<nat>) {
    forall c :: 0 <= c < |k.priority| && PlaceOf(k, c, false).Delay? ==>
      if Wake(k, c) <= Now(k') then IsReady(k', c) else Left(k, k', hits, c)
  }

  lemma AllTimedOut(k: Kernel, k': Kernel, hits: set<nat>)
    requires AllMoved(k, k', hits, false) && Invariant(k') && Settled(k')
    ensures TimedOut(k, k', hits)
  {
    forall c: nat | c < |k.priority| && PlaceOf(k, c, false).Delay?
      ensures if Wake(k, c) <= Now(k') then IsReady(k', c) else Left(k, k', hits, c)
    {
      assert Moved(k, k', hits, false, c);
      if PlaceOf(k', c, false).Delay? { StillAhead(k', c); }
    }
  }

  /** Whose time has come, whose event was pending or has been served: ready. */
  lemma DueIsReady(k: Kernel, k': Kernel, hits: set<nat>, c: nat)
    requires AllMoved(k, k', hits, true) && Invariant(k') && Settled(k')
    requires c < |k.priority| && PlaceOf(k, c, false).Delay? && Wake(k, c) <= Now(k')
    ensures IsReady(k', c)
  {
    assert Moved(k, k', hits, true, c);
    if PlaceOf(k', c, false).Delay? { StillAhead(k', c); }
  }

  // --- interrupts alone ---

  lemma AllLeft(k: Kernel)
    ensures OnlyEvents(k, k) && forall c :: 0 <= c < |k.priority| ==> Left(k, k, {}, c)
  {
  }

  lemma LeftTrans(k: Kernel, k': Kernel, k'': Kernel, hits: set<nat>, more: set<nat>)
    requires OnlyEvents(k, k') && OnlyEvents(k', k'')
    requires forall c :: 0 <= c < |k.priority| ==> Left(k, k', hits, c)
    requires forall c :: 0 <= c < |k.priority| ==> Left(k', k'', more, c)
    ensures OnlyEvents(k, k'') && forall c :: 0 <= c < |k.priority| ==> Left(k, k'', hits + more, c)
  {
    forall c: nat | c < |k.priority| ensures Left(k, k'', hits + more, c) {
      assert Left(k, k', hits, c) && Left(k', k'', more, c);
    }
  }

  lemma MoreHits(eventLists: nat, calls: seq<Call>, call: Call, i: nat)
    requires i <= |calls|
    ensures HitsSince(eventLists, calls + [call], i)
            == HitsSince(eventLists, calls, i) + HitsOf(After(eventLists, calls), call)
  {
    assert (calls + [call])[..|calls|] == calls;
  }
}
