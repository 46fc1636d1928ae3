/** Where co-routines of one priority (arm/FreeRTOS/croutine.c) do not take turns in the
    order they became ready: exactly when one in line is overtaken, and a run in which
    it is. */
module CoRoutineOvertaking {
  import opened Common
  import opened ListOrder
  import opened CoRoutineLists
  import opened CoRoutines
  import opened CoRoutineSteps
  import opened CoRoutineEvents
  import opened CoRoutineRuns
  import opened CoRoutineWakes
  import opened CoRoutineTurns

  // --- when one is overtaken ---

  /** How many of its list are to be chosen before c. */
  function Ahead(r: Ring<nat>, c: nat): nat
    requires r.Ok()
  {
    IndexOf(r.Order(), c)
  }

  predicate IndexOn(r: Ring<nat>, c: nat)
    requires r.Ok()
  {
    r.cursor > 0 && Current(r) == c
  }

  /** A co-routine joins the ready list of priority p. */
  predicate Joins(s: Sys, call: Call, p: nat) {
    match call
    case Create(priority) => s.pc == Idle && p == if priority >= LEVELS then LEVELS - 1 else priority
    case Go => (s.pc.PendingUnlisted? || s.pc.ExpiredUnlisted?) && s.pc.c < |s.k.priority| && s.k.priority[s.pc.c] == p
    case _ => false
  }

  function RingOfItsOwn(s: Sys, c: nat): (r: Ring<nat>)
    ensures r.Ok()
  {
    if c < |s.k.priority| then RingOf(s.k, Ready(s.k.priority[c])) else Ring([], 0)
  }

  lemma AheadAfterTurn(r: Ring<nat>, c: nat)
    requires r.Ok() && Distinct(r.items) && c in r.items && Current(Advance(r)) != c
    ensures Ahead(Advance(r), c) < Ahead(r, c)
  {
    AdvanceRotates(r);
    OrderDistinct(r, c);
    OrderDistinct(Advance(r), c);
    var o := r.Order();
    var q := IndexOf(o, c);
    assert o[q] == c && q > 0;
    IndexIs(Advance(r).Order(), q - 1, c);
  }

  lemma IndexWithout(o: seq<nat>, t: nat, c: nat)
    requires Distinct(o) && c in o && t < |o| && o[t] != c
    ensures IndexOf(Without(o, t), c) <= IndexOf(o, c)
  {
    hide Distinct;
    WithoutMembers(o, t);
    var q := IndexOf(o, c);
    assert Without(o, t)[if q < t then q else q - 1] == c;
    IndexIs(Without(o, t), if q < t then q else q - 1, c);
  }

  lemma AheadAfterLeaving(r: Ring<nat>, c: nat, p: nat)
    requires r.Ok() && Distinct(r.items) && c in r.items && p < |r.items| && r.items[p] != c
    ensures Remove(r, p).Ok() && Ahead(Remove(r, p), c) <= Ahead(r, c)
  {
    hide Distinct;
    RemoveOrder(r, p);
    OrderDistinct(r, c);
    IndexWithout(r.Order(), Turn(r, p), c);
  }

  /** What a call does to the place of c in its line. */
  predicate MovesUp(s: Sys, s': Sys, c: nat, joined: bool) {
    var r, r' := RingOfItsOwn(s, c), RingOfItsOwn(s', c);
    Ahead(r', c) > Ahead(r, c) <==> joined && IndexOn(r, c)
  }

  lemma JoinMoves(s: Sys, s': Sys, c: nat, x: nat, k: Kernel)
    requires Invariant(k) && c < |s.k.priority| <= |k.priority| && k.priority[c] == s.k.priority[c] && IsReady(k, c)
    requires x < |k.priority| && PlaceOf(k, x, false) == Nowhere
    requires k.lists == s.k.lists && s'.k == MakeReady(k, x) && s'.k.priority == k.priority
    ensures MovesUp(s, s', c, k.priority[x] == k.priority[c])
  {
    hide Invariant, MakeReady, Ahead;
    LineUp(k, c, x);
    MakeReadyRing(k, x, k.priority[c]);
    assert RingOf(k, Ready(k.priority[c])) == RingOf(s.k, Ready(k.priority[c]));
    JoinedRing(RingOf(k, Ready(k.priority[c])), c, x);
  }

  lemma JoinedRing(r: Ring<nat>, c: nat, x: nat)
    requires r.Ok() && Distinct(r.items) && c in r.items
    ensures x !in r.items ==> InsertEnd(r, x).Ok() && (Ahead(InsertEnd(r, x), c) > Ahead(r, c) <==> IndexOn(r, c))
  {
    if x !in r.items { NewcomerAhead(r, c, x); }
  }

  lemma LeaveMoves(s: Sys, c: nat, d: Tick, e: Place)
    requires Ok(s) && InLine(s, c) && Next(s, AddDelay(d, e)).k.priority == s.k.priority
    ensures MovesUp(s, Next(s, AddDelay(d, e)), c, false)
  {
    hide Invariant, AllRanked, Settled, AddToDelayed, Ahead, RingOf;
    if MayDelay(s, d, e) {
      var x := s.running.value;
      LineUp(s.k, c, x);
      DelayRing(s.k, x, d, e, s.k.priority[c]);
      var r := RingOf(s.k, Ready(s.k.priority[c]));
      if s.k.priority[x] == s.k.priority[c] { AheadAfterLeaving(r, c, IndexOf(r.items, x)); }
    }
  }

  lemma ChooseMoves(s: Sys, c: nat)
    requires Ok(s) && s.pc == Choosing && InLine(s, c) && !Chooses(s, Go, c)
    ensures Went(s).k.priority == s.k.priority && MovesUp(s, Went(s), c, false)
  {
    hide Ahead, AllRanked, Settled, Contained;
    LineUp(s.k, c, c);
    if s.k.top == s.k.priority[c] {
      RingAt(s.k, Ready(s.k.top));
      AheadAfterTurn(RingOf(s.k, Ready(s.k.top)), c);
    }
  }

  lemma GoMoves(s: Sys, c: nat)
    requires Ok(s) && InLine(s, c) && !Chooses(s, Go, c)
    ensures c < |Went(s).k.priority| && MovesUp(s, Went(s), c, Joins(s, Go, s.k.priority[c]))
  {
    hide Ahead, Invariant, AllRanked, Settled, Detach, Undelay, MakeReady, TickOver, Turned, RingOf;
    GoClock(s);
    Sizes(s.k);
    var p := s.k.priority[c];
    match s.pc
    case Idle =>
    case Pendings =>
      if Items(s.k, Pending) != [] {
        PendingHead(s.k);
        EventDetachRing(s.k, Items(s.k, Pending)[0], p);
      }
    case Taken(x) => UndelayRing(s.k, x, p);
    case PendingUnlisted(x) => JoinMoves(s, Went(s), c, x, s.k);
    case Ticking(left) => TickRing(s.k, Ready(p));
    case Expiring(_) =>
      DueHead(s.k);
      if Due(s.k).Some? { UndelayRing(s.k, Due(s.k).value, p); }
    case ExpiredUnlisted(x, _) => JoinMoves(s, Went(s), c, x, s.k);
    case Choosing => ChooseMoves(s, c);
  }

  lemma CreateMoves(s: Sys, c: nat, priority: nat)
    requires Ok(s) && InLine(s, c)
    ensures var s' := Next(s, Create(priority));
            c < |s'.k.priority| && MovesUp(s, s', c, Joins(s, Create(priority), s.k.priority[c]))
  {
    hide Ahead, Invariant, AllRanked, Settled, MakeReady, RingOf;
    Sizes(s.k);
    if s.pc == Idle {
      var k1, x := Newcomer(s.k, priority), |s.k.priority|;
      NewcomerKeeps(s.k, priority);
      MakeReadyKeeps(k1, x);
      JoinMoves(s, Next(s, Create(priority)), c, x, k1);
    }
  }

  /** In any state of a run, one in line falls back in its line exactly when another joins
      it while the index stands on that one; in every other step, short of its turn, it
      keeps its place or moves up. */
  lemma OvertakenExactly(s: Sys, call: Call, c: nat)
    requires Ok(s) && InLine(s, c) && !Chooses(s, call, c)
    ensures InLine(Next(s, call), c)
    ensures Ahead(RingOfItsOwn(Next(s, call), c), c) > Ahead(RingOfItsOwn(s, c), c)
            <==> Joins(s, call, s.k.priority[c]) && IndexOn(RingOfItsOwn(s, c), c)
  {
    hide Ahead, Invariant, AllRanked, Settled, MakeReady, RingOf, AddToDelayed, Interrupt, Went, MayDelay;
    Sizes(s.k);
    StaysInLine(s, call, c);
    match call
    case Isr(list) => InterruptRing(s.k, list, s.k.priority[c]);
    case Go => GoMoves(s, c);
    case AddDelay(d, e) => LeaveMoves(s, c, d, e);
    case Create(priority) => CreateMoves(s, c, priority);
    case _ =>
  }

  // --- how it comes about ---

  /** When the item the index stands on leaves, the index steps back. */
  lemma IndexStepsBack(r: Ring<nat>, x: nat)
    requires r.Ok() && Distinct(r.items) && r.cursor > 1 && x !in r.items
    ensures var r' := InsertEnd(Remove(r, r.cursor - 1), x); var o := r'.Order();
            r'.Ok() && |o| > 1 && o[|o| - 1] == r.items[r.cursor - 2] && o[|o| - 2] == x
  {
    InsertEndOrder(Remove(r, r.cursor - 1), x);
  }

  /** The running co-routine delays itself and a new one of its priority is created: it is
      next to last in the visiting order, ahead of the one the index has stepped back to,
      which was in line before it existed. */
  lemma NewcomerOvertakes(s: Sys, d: Tick, priority: nat)
    requires Ok(s) && MayDelay(s, d, Nowhere) && s.running.value < |s.k.priority|
    requires var r := RingOfItsOwn(s, s.running.value); r.cursor > 1 && Current(r) == s.running.value
    requires Joins(s, Create(priority), s.k.priority[s.running.value])
    ensures var r := RingOfItsOwn(s, s.running.value);
            var s' := Next(Next(s, AddDelay(d, Nowhere)), Create(priority));
            var o := RingOf(s'.k, Ready(s.k.priority[s.running.value])).Order();
            && |o| > 1 && o[|o| - 2] == |s.k.priority| && o[|o| - 1] == r.items[r.cursor - 2]
            && InLine(s, r.items[r.cursor - 2])
  {
    hide Invariant, AllRanked, Settled, AddToDelayed, MakeReady;
    var x := s.running.value;
    var r, p := RingOfItsOwn(s, x), s.k.priority[x];
    InTheRing(s.k, x, |s.k.priority|);
    DelayRing(s.k, x, d, Nowhere, p);
    IndexIs(r.items, r.cursor - 1, x);
    assert r.items[r.cursor - 2] in r.items;
    var s1 := Next(s, AddDelay(d, Nowhere));
    StepOk(s, AddDelay(d, Nowhere));
    ClockMoves(s, AddDelay(d, Nowhere));
    CreateRing(s1, priority, p);
    IndexStepsBack(r, |s.k.priority|);
  }

  /** Those in the list of a ready co-routine are ready, and one not created yet is not. */
  lemma InTheRing(k: Kernel, x: nat, y: nat)
    requires Invariant(k) && x < |k.priority| && IsReady(k, x) && y >= |k.priority|
    ensures var r := RingOf(k, Ready(k.priority[x]));
            && Distinct(r.items) && y !in r.items
            && forall c :: c in r.items ==> c < |k.priority| && IsReady(k, c)
  {
    Parts(k, x, Ready(k.priority[x]));
  }

  lemma CreateRing(s: Sys, priority: nat, p: nat)
    requires Ok(s) && s.pc == Idle && Joins(s, Create(priority), p)
    ensures RingOf(Next(s, Create(priority)).k, Ready(p)) == InsertEnd(RingOf(s.k, Ready(p)), |s.k.priority|)
  {
    hide Invariant, AllRanked, Settled, MakeReady;
    var k1, x := Newcomer(s.k, priority), |s.k.priority|;
    NewcomerKeeps(s.k, priority);
    MakeReadyRing(k1, x, p);
  }

  // --- a run ---

  /** Two co-routines have their turns; the second delays itself, a third is created, and
      the scheduler goes on. */
  function OvertakingRun(): seq<Call> {
    [Create(0), Create(0),
     Begin, Clock(0), Go, Go,
     Begin, Clock(0), Go, Go,
     AddDelay(1, Nowhere), Create(0),
     Begin, Clock(0), Go, Go]
  }

  /** Between calls at time 0, nothing pending, so many co-routines of priority 0. */
  ghost predicate Quietly(s: Sys, r: Ring<nat>, running: Option<nat>, n: nat) {
    && Ok(s) && s.pc == Idle && s.running == running
    && s.k.tick == 0 && s.k.lap == 0 && s.k.top == 0 && Items(s.k, Pending) == []
    && |s.k.priority| == n && (forall c :: 0 <= c < n ==> s.k.priority[c] == 0)
    && RingOf(s.k, Ready(0)) == r
  }

  lemma FirstQuiet()
    ensures Quietly(Start(0), Ring([], 0), None, 0)
  {
    StartOk(0);
  }

  lemma CreateQuietly(s: Sys, r: Ring<nat>, running: Option<nat>, n: nat)
    requires Quietly(s, r, running, n)
    ensures r.Ok() && Quietly(Next(s, Create(0)), InsertEnd(r, n), running, n + 1)
  {
    hide Invariant, AllRanked, Settled, RingOf;
    StepOk(s, Create(0));
    CreateRing(s, 0, 0);
    NewcomerKeeps(s.k, 0);
    MakeReadyKeeps(Newcomer(s.k, 0), n);
    assert s.k.lists == Newcomer(s.k, 0).lists;
  }

  function Pass(s: Sys): Sys {
    Next(Next(Next(Next(s, Begin), Clock(0)), Go), Go)
  }

  lemma ToChoosing(s: Sys, r: Ring<nat>, running: Option<nat>, n: nat)
    requires Quietly(s, r, running, n)
    ensures Next(Next(Next(s, Begin), Clock(0)), Go) == s.(pc := Choosing) && Ok(s.(pc := Choosing))
  {
    hide Invariant, AllRanked, Settled;
  }

  lemma PassQuietly(s: Sys, r: Ring<nat>, running: Option<nat>, n: nat)
    requires Quietly(s, r, running, n) && r.items != []
    ensures r.Ok() && Quietly(Pass(s), Advance(r), Some(Current(Advance(r))), n)
  {
    hide AllRanked, Settled, Contained;
    ToChoosing(s, r, running, n);
    StepOk(s.(pc := Choosing), Go);
    TurnKeeps(s.k, Ready(0));
  }

  lemma DelayFrame(k: Kernel, c: nat, d: Tick)
    requires Invariant(k) && c < |k.priority| && IsReady(k, c)
    ensures c < |k.value| == |k.wakeLap| && k.current <= 1
    ensures var k' := AddToDelayed(k, c, d, Nowhere);
            k'.top == k.top && Items(k', Pending) == Items(k, Pending)
  {
    hide Invariant, Contained, Retimed, Attach, Position, Target;
    RetimedKeeps(k, c, d);
    RetimedFrame(k, c, d);
    DelayedFrame(k, c, d);
    TargetIs(k, d);
    var k2 := Retimed(k, c, d);
    AttachKeeps(k2, c, Target(k, d), Position(Keys(k2, Items(k2, Target(k, d))), Value(k2, c)));
  }

  lemma TargetIs(k: Kernel, d: Tick)
    requires k.current <= 1
    ensures Target(k, d).Delay?
  {
  }

  lemma DelayQuietly(s: Sys, r: Ring<nat>, x: nat, n: nat, d: Tick)
    requires Quietly(s, r, Some(x), n) && x in r.items && d > 0
    ensures var q := IndexOf(r.items, x);
            r.Ok() && Quietly(Next(s, AddDelay(d, Nowhere)), Remove(r, q), Some(x), n)
  {
    Member(s.k, x);
    hide Invariant, AllRanked, Settled, AddToDelayed, RingOf;
    Sizes(s.k);
    ReadyHasNoEvent(s.k, x);
    StepOk(s, AddDelay(d, Nowhere));
    DelayRing(s.k, x, d, Nowhere, 0);
    DelayKeeps(s.k, x, d, Nowhere);
    DelayFrame(s.k, x, d);
  }

  lemma Member(k: Kernel, x: nat)
    requires Invariant(k) && x in RingOf(k, Ready(0)).items
    ensures x < |k.priority| && IsReady(k, x)
  {
    HonestAt(k, Ready(0));
  }

  lemma PassAt(calls: seq<Call>, i: nat)
    requires i + 4 <= |calls| && calls[i..i + 4] == [Begin, Clock(0), Go, Go]
    ensures At(0, calls, i + 4) == Pass(At(0, calls, i))
  {
    hide Next, After;
    AtNext(0, calls, i);
    AtNext(0, calls, i + 1);
    AtNext(0, calls, i + 2);
    AtNext(0, calls, i + 3);
    var four := calls[i..i + 4];
    assert calls[i] == four[0] && calls[i + 1] == four[1] && calls[i + 2] == four[2] && calls[i + 3] == four[3];
  }

  /** Both have had a turn: the second runs, and the index stands on it. */
  lemma TwoTurns(calls: seq<Call>)
    requires calls == OvertakingRun()
    ensures Quietly(At(0, calls, 10), Ring([0, 1], 2), Some(1), 2)
  {
    hide Quietly, Next, After, Pass;
    FirstQuiet();
    assert At(0, calls, 0) == Start(0) by { AtStart(calls); }
    AtNext(0, calls, 0);
    CreateQuietly(At(0, calls, 0), Ring([], 0), None, 0);
    assert InsertEnd(Ring([], 0), 0) == Ring([0], 0);
    AtNext(0, calls, 1);
    CreateQuietly(At(0, calls, 1), Ring([0], 0), None, 1);
    assert InsertEnd(Ring([0], 0), 1) == Ring([0, 1], 0);
    PassAt(calls, 2);
    PassQuietly(At(0, calls, 2), Ring([0, 1], 0), None, 2);
    PassAt(calls, 6);
    PassQuietly(At(0, calls, 6), Ring([0, 1], 1), Some(0), 2);
  }

  lemma AtStart(calls: seq<Call>)
    ensures At(0, calls, 0) == Start(0)
  {
  }

  /** The second has left and the third come in before the first, which goes last. */
  lemma ThirdComesIn(calls: seq<Call>)
    requires calls == OvertakingRun()
    ensures Quietly(At(0, calls, 12), Ring([2, 0], 2), Some(1), 3)
    ensures Quietly(At(0, calls, 16), Ring([2, 0], 1), Some(2), 3)
  {
    hide Quietly, Next, After, Pass;
    TwoTurns(calls);
    AtNext(0, calls, 10);
    IndexIs([0, 1], 1, 1);
    DelayQuietly(At(0, calls, 10), Ring([0, 1], 2), 1, 2, 1);
    assert Remove(Ring([0, 1], 2), 1) == Ring([0], 1);
    AtNext(0, calls, 11);
    CreateQuietly(At(0, calls, 11), Ring([0], 1), Some(1), 2);
    assert InsertEnd(Ring([0], 1), 2) == Ring([2, 0], 2);
    PassAt(calls, 12);
    PassQuietly(At(0, calls, 12), Ring([2, 0], 2), Some(1), 3);
  }

  lemma ChoosingAt(calls: seq<Call>)
    requires calls == OvertakingRun()
    ensures At(0, calls, 15).pc == Choosing && Next(At(0, calls, 15), Go).running == Some(2)
    ensures Next(At(0, calls, 14), Go).pc == Choosing
  {
    ThirdComesIn(calls);
    ToChoosing(At(0, calls, 12), Ring([2, 0], 2), Some(1), 3);
    Runs(At(0, calls, 16), Ring([2, 0], 1), 2, 3);
    hide After, Next, Quietly;
    AtNext(0, calls, 12);
    AtNext(0, calls, 13);
    AtNext(0, calls, 14);
    AtNext(0, calls, 15);
  }

  lemma FirstNotChosen(calls: seq<Call>)
    requires calls == OvertakingRun()
    ensures NotChosen(0, calls, 10, 16, 0)
  {
    ChoosingAt(calls);
    hide At, Next;
    forall m | 10 <= m < 16 ensures !Chooses(At(0, calls, m), calls[m], 0) {
      if m == 14 { GoesIdle(At(0, calls, 14), 0); }
    }
  }

  lemma Runs(s: Sys, r: Ring<nat>, x: nat, n: nat)
    requires Quietly(s, r, Some(x), n)
    ensures s.running == Some(x)
  {
  }

  lemma GoesIdle(s: Sys, c: nat)
    ensures Chooses(s, Go, c) ==> Next(s, Go).pc == Idle
  {
  }

  lemma QuietInLine(s: Sys, r: Ring<nat>, x: nat, n: nat, c: nat)
    requires Quietly(s, r, Some(x), n) && c in r.items && c != x
    ensures InLine(s, c) && |s.k.priority| == n && RingOf(s.k, Ready(0)) == r && s.running == Some(x)
  {
    Member(s.k, c);
  }

  /** After ten calls co-routine 0 is in line and there are no more than two; two calls
      later 2 is ahead of it; and 2 is chosen next, though 0 has been in line all along. */
  lemma OutOfTurn()
    ensures var calls := OvertakingRun();
            && |calls| == 16
            && InLine(At(0, calls, 10), 0) && |At(0, calls, 10).k.priority| == 2
            && InLine(At(0, calls, 12), 0) && RingOf(At(0, calls, 12).k, Ready(0)).Order() == [2, 0]
            && InLine(At(0, calls, 16), 0) && At(0, calls, 16).running == Some(2)
            && NotChosen(0, calls, 10, 16, 0)
  {
    var calls := OvertakingRun();
    hide After, Next, Quietly, RingOf, InLine;
    TwoTurns(calls);
    ThirdComesIn(calls);
    FirstNotChosen(calls);
    assert 0 in [0, 1] && 0 in [2, 0];
    QuietInLine(At(0, calls, 10), Ring([0, 1], 2), 1, 2, 0);
    QuietInLine(At(0, calls, 12), Ring([2, 0], 2), 1, 3, 0);
    QuietInLine(At(0, calls, 16), Ring([2, 0], 1), 2, 3, 0);
  }
}
