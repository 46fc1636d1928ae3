/** Round robin among co-routines of equal priority (arm/FreeRTOS/croutine.c), over every
    run: how often others of its priority can be chosen before a ready co-routine is. */
module CoRoutineTurns {
  import opened Common
  import opened ListOrder
  import opened CoRoutineLists
  import opened CoRoutines
  import opened CoRoutineSteps
  import opened CoRoutineEvents
  import opened CoRoutineRuns
  import opened CoRoutineWakes

  // --- the wait for a turn in one list ---

  /** How many turns of the list pass before that of c, at most: the items between the
      index and c; or, once the index is at or behind c, those to the end of the list and
      then no more than there can be items before c in the next round. */
  function Wait(r: Ring<nat>, c: nat, bound: nat): nat
    requires r.Ok()
  {
    var q := IndexOf(r.items, c);
    if r.cursor <= q then q - r.cursor else |r.items| - r.cursor + bound
  }

  lemma IndexIs(s: seq<nat>, q: nat, c: nat)
    requires Distinct(s) && q < |s| && s[q] == c
    ensures IndexOf(s, c) == q
  {
    assert c in s;
  }

  /** Nobody who joins the list gets ahead of c in this bound ... */
  lemma WaitJoin(r: Ring<nat>, c: nat, x: nat, bound: nat)
    requires r.Ok() && Distinct(r.items) && c in r.items && x !in r.items
    ensures InsertEnd(r, x).Ok() && Wait(InsertEnd(r, x), c, bound) == Wait(r, c, bound)
  {
    var q := IndexOf(r.items, c);
    var p := EndPosition(r);
    assert InsertEnd(r, x) == Insert(r, p, x);
    InsertAtMembers(r.items, p, x);
    IndexIs(InsertAt(r.items, p, x), if q < p then q else q + 1, c);
  }

  /** ... nor does anyone's leaving put c back ... */
  lemma WaitLeave(r: Ring<nat>, c: nat, p: nat, bound: nat)
    requires r.Ok() && Distinct(r.items) && c in r.items && p < |r.items| && r.items[p] != c
    ensures Remove(r, p).Ok() && Wait(Remove(r, p), c, bound) <= Wait(r, c, bound)
  {
    var q := IndexOf(r.items, c);
    WithoutMembers(r.items, p);
    IndexIs(Without(r.items, p), if q < p then q else q - 1, c);
  }

  /** ... and every turn of another brings its own nearer. */
  lemma WaitTurn(r: Ring<nat>, c: nat, bound: nat)
    requires r.Ok() && c in r.items && |r.items| <= bound && Current(Advance(r)) != c
    ensures Wait(Advance(r), c, bound) < Wait(r, c, bound)
  {
  }

  lemma DistinctBelow(s: seq<nat>, n: nat)
    requires Distinct(s) && forall i :: 0 <= i < |s| ==> s[i] < n
    ensures |s| <= n
  {
    if n > 0 {
      var p := IndexOf(s, n - 1);
      if n - 1 in s {
        WithoutMembers(s, p);
        DistinctBelow(Without(s, p), n - 1);
      } else {
        DistinctBelow(s, n - 1);
      }
    }
  }

  // --- the ready lists in the steps of the machine ---

  function RingOf(k: Kernel, pl: Place): (r: Ring<nat>)
    ensures r.Ok()
  {
    if pl in k.lists && k.lists[pl].Ok() then k.lists[pl] else Ring([], 0)
  }

  lemma DetachRing(k: Kernel, c: nat, forEvents: bool, q: Place)
    ensures q != PlaceOf(k, c, forEvents) ==> RingOf(Detach(k, c, forEvents), q) == RingOf(k, q)
  {
  }

  lemma AttachRing(k: Kernel, c: nat, pl: Place, p: nat, q: Place)
    ensures q != pl ==> RingOf(Attach(k, c, pl, p), q) == RingOf(k, q)
  {
  }

  lemma AttachedRing(k: Kernel, c: nat, pl: Place, p: nat)
    requires pl in k.lists && k.lists[pl].Ok() && p <= |k.lists[pl].items|
    ensures RingOf(Attach(k, c, pl, p), pl) == Insert(RingOf(k, pl), p, c)
  {
  }

  lemma InterruptRing(k: Kernel, e: nat, p: nat)
    requires Invariant(k)
    ensures RingOf(Interrupt(k, e), Ready(p)) == RingOf(k, Ready(p))
  {
    var waiting := Items(k, Event(e));
    if waiting != [] {
      var c := waiting[0];
      assert Honest(k, Event(e)) by { HonestAt(k, Event(e)); }
      assert c in waiting;
      hide Contained, Detach, Attach;
      DetachRing(k, c, true, Ready(p));
      AttachRing(Detach(k, c, true), c, Pending, |Items(k, Pending)|, Ready(p));
    }
  }

  lemma EventDetachRing(k: Kernel, c: nat, p: nat)
    requires Invariant(k) && c < |k.priority|
    ensures RingOf(Detach(k, c, true), Ready(p)) == RingOf(k, Ready(p))
  {
    Parts(k, c, Nowhere);
    DetachRing(k, c, true, Ready(p));
  }

  lemma UndelayRing(k: Kernel, c: nat, p: nat)
    requires Invariant(k) && c < |k.priority| && PlaceOf(k, c, false).Delay?
    ensures RingOf(Undelay(k, c), Ready(p)) == RingOf(k, Ready(p))
  {
    Parts(k, c, Nowhere);
    ValuesKept(k, c, false);
    hide Contained, Detach;
    DetachRing(k, c, false, Ready(p));
    DetachRing(Detach(k, c, false), c, true, Ready(p));
  }

  lemma MakeReadyRing(k: Kernel, c: nat, p: nat)
    requires Invariant(k) && c < |k.priority|
    ensures RingOf(MakeReady(k, c), Ready(p))
            == if k.priority[c] == p then InsertEnd(RingOf(k, Ready(p)), c) else RingOf(k, Ready(p))
  {
    var pl := Ready(k.priority[c]);
    HonestAt(k, pl);
    hide Contained, Attach, Insert, InsertEnd, InOrder, Timed, WaitsDelayed, TopBounds;
    var k1 := k.(top := if k.priority[c] > k.top then k.priority[c] else k.top);
    AttachRing(k1, c, pl, EndPosition(k.lists[pl]), Ready(p));
    AttachedRing(k1, c, pl, EndPosition(k.lists[pl]));
  }

  lemma DelayRing(k: Kernel, c: nat, d: Tick, e: Place, p: nat)
    requires Invariant(k) && c < |k.priority| && IsReady(k, c)
    requires e == Nowhere || e.Event?
    ensures c < |k.value| == |k.wakeLap| && k.current <= 1 && c in RingOf(k, Ready(k.priority[c])).items
    ensures var r := RingOf(k, Ready(p)); var q := IndexOf(r.items, c);
            RingOf(AddToDelayed(k, c, d, e), Ready(p)) == if k.priority[c] == p then Remove(r, q) else r
  {
    Sizes(k);
    Parts(k, c, Ready(k.priority[c]));
    assert Timed(k, c);
    hide Contained, Attach, Position;
    var k2, k' := Retimed(k, c, d), Delayed(k, c, d);
    DetachedRing(k, c, p);
    AttachRing(k2, c, Target(k, d), Position(Keys(k2, Items(k2, Target(k, d))), Value(k2, c)), Ready(p));
    if e.Event? {
      AttachRing(k', c, e, Position(EventKeys(k', Items(k', e)), EventKey(k', c)), Ready(p));
    }
  }

  lemma DetachedRing(k: Kernel, c: nat, p: nat)
    requires Invariant(k) && c < |k.priority| && IsReady(k, c)
    ensures var r := RingOf(k, Ready(p)); var q := IndexOf(r.items, c);
            && c in RingOf(k, Ready(k.priority[c])).items
            && RingOf(Detach(k, c, false), Ready(p)) == if k.priority[c] == p then Remove(r, q) else r
  {
    Sizes(k);
    Parts(k, c, Ready(k.priority[c]));
    assert Timed(k, c);
    DetachRing(k, c, false, Ready(p));
  }

  // --- whose turn it is ---

  /** The scheduler takes the next of the ready list of priority p ... */
  predicate TakesTurn(s: Sys, call: Call, p: nat) {
    call.Go? && s.pc == Choosing && s.k.top == p && Items(s.k, Ready(p)) != []
  }

  /** ... and it is c. */
  predicate Chooses(s: Sys, call: Call, c: nat) {
    call.Go? && s.pc == Choosing && Items(s.k, Ready(s.k.top)) != [] && Next(s, call).running == Some(c)
  }

  /** Ready, and not the one that runs. */
  predicate InLine(s: Sys, c: nat) {
    c < |s.k.priority| && IsReady(s.k, c) && s.running != Some(c)
  }

  function WaitOf(s: Sys, c: nat, bound: nat): nat {
    if c < |s.k.priority| then Wait(RingOf(s.k, Ready(s.k.priority[c])), c, bound) else 0
  }

  function TurnOf(s: Sys, call: Call, p: nat): nat {
    if TakesTurn(s, call, p) then 1 else 0
  }

  /** The list of a ready co-routine. */
  lemma LineUp(k: Kernel, c: nat, x: nat)
    requires Invariant(k) && c < |k.priority| && IsReady(k, c)
    ensures var pl := Ready(k.priority[c]); var r := RingOf(k, pl);
            && r.items == Items(k, pl) && c in r.items && Distinct(r.items) && |r.items| <= |k.priority|
            && (PlaceOf(k, x, false) != pl ==> x !in r.items)
  {
    Parts(k, c, Ready(k.priority[c]));
    assert Timed(k, c);
    var s := Items(k, Ready(k.priority[c]));
    forall i | 0 <= i < |s| ensures s[i] < |k.priority| { assert s[i] in s; }
    DistinctBelow(s, |k.priority|);
  }

  lemma JoinStep(k: Kernel, c: nat, x: nat, bound: nat)
    requires Invariant(k) && c < |k.priority| && IsReady(k, c) && x < |k.priority| && PlaceOf(k, x, false) == Nowhere
    ensures var pl := Ready(k.priority[c]);
            Wait(RingOf(MakeReady(k, x), pl), c, bound) == Wait(RingOf(k, pl), c, bound)
  {
    hide Invariant, MakeReady, Wait;
    LineUp(k, c, x);
    MakeReadyRing(k, x, k.priority[c]);
    WaitJoin(RingOf(k, Ready(k.priority[c])), c, x, bound);
  }

  lemma LeaveStep(k: Kernel, c: nat, x: nat, d: Tick, e: Place, bound: nat)
    requires Invariant(k) && c < |k.priority| && IsReady(k, c) && x < |k.priority| && IsReady(k, x) && x != c
    requires e == Nowhere || e.Event?
    ensures x < |k.value| == |k.wakeLap| && k.current <= 1
    ensures var pl := Ready(k.priority[c]);
            Wait(RingOf(AddToDelayed(k, x, d, e), pl), c, bound) <= Wait(RingOf(k, pl), c, bound)
  {
    hide Invariant, AddToDelayed, Wait;
    LineUp(k, c, x);
    DelayRing(k, x, d, e, k.priority[c]);
    var r := RingOf(k, Ready(k.priority[c]));
    if k.priority[x] == k.priority[c] { WaitLeave(r, c, IndexOf(r.items, x), bound); }
  }

  lemma ChooseStep(s: Sys, c: nat, bound: nat)
    requires Ok(s) && s.pc == Choosing && InLine(s, c) && |s.k.priority| <= bound && !Chooses(s, Go, c)
    ensures WaitOf(Went(s), c, bound) + TurnOf(s, Go, s.k.priority[c]) <= WaitOf(s, c, bound)
  {
    hide Wait, AllRanked, Settled, Contained;
    LineUp(s.k, c, c);
    if s.k.top == s.k.priority[c] {
      RingAt(s.k, Ready(s.k.top));
      WaitTurn(RingOf(s.k, Ready(s.k.top)), c, bound);
    }
  }

  lemma GoTurn(s: Sys, c: nat, bound: nat)
    requires Ok(s) && InLine(s, c) && |s.k.priority| <= bound && !Chooses(s, Go, c)
    ensures c < |Went(s).k.priority| && Went(s).k.priority[c] == s.k.priority[c]
    ensures WaitOf(Went(s), c, bound) + TurnOf(s, Go, s.k.priority[c]) <= WaitOf(s, c, bound)
  {
    hide Wait, Invariant, AllRanked, Settled, Detach, Undelay, MakeReady, TickOver, Turned, RingOf;
    GoClock(s);
    Sizes(s.k);
    var p := s.k.priority[c];
    match s.pc
    case Idle =>
    case Pendings =>
      if Items(s.k, Pending) != [] {
        PendingHead(s.k);
        EventDetachRing(s.k, Items(s.k, Pending)[0], p);
      }
    case Taken(x) => UndelayRing(s.k, x, p);
    case PendingUnlisted(x) => JoinStep(s.k, c, x, bound);
    case Ticking(left) => TickRing(s.k, Ready(p));
    case Expiring(_) =>
      DueHead(s.k);
      if Due(s.k).Some? { UndelayRing(s.k, Due(s.k).value, p); }
    case ExpiredUnlisted(x, _) => JoinStep(s.k, c, x, bound);
    case Choosing => ChooseStep(s, c, bound);
  }

  lemma TickRing(k: Kernel, pl: Place)
    ensures RingOf(TickOver(k), pl) == RingOf(k, pl)
  {
  }

  /** In one step the bound shrinks by the turn that is taken, if one is. */
  lemma TurnStep(s: Sys, call: Call, c: nat, bound: nat)
    requires Ok(s) && InLine(s, c) && |s.k.priority| <= bound && !Chooses(s, call, c)
    ensures InLine(Next(s, call), c) && Next(s, call).k.priority[c] == s.k.priority[c]
    ensures WaitOf(Next(s, call), c, bound) + TurnOf(s, call, s.k.priority[c]) <= WaitOf(s, c, bound)
  {
    hide Wait, Invariant, AllRanked, Settled, MakeReady, RingOf, AddToDelayed, Interrupt, Went, MayDelay;
    Sizes(s.k);
    StaysInLine(s, call, c);
    match call
    case Isr(list) => InterruptRing(s.k, list, s.k.priority[c]);
    case Go => GoTurn(s, c, bound);
    case AddDelay(d, e) => DelayTurn(s, c, d, e, bound);
    case Create(priority) => CreateTurn(s, c, priority, bound);
    case _ =>
  }

  lemma DelayTurn(s: Sys, c: nat, d: Tick, e: Place, bound: nat)
    requires Ok(s) && InLine(s, c)
    requires Next(s, AddDelay(d, e)).k.priority == s.k.priority
    ensures WaitOf(Next(s, AddDelay(d, e)), c, bound) <= WaitOf(s, c, bound)
  {
    hide Wait, Invariant, AllRanked, Settled, AddToDelayed, RingOf;
    if MayDelay(s, d, e) { LeaveStep(s.k, c, s.running.value, d, e, bound); }
  }

  lemma CreateTurn(s: Sys, c: nat, priority: nat, bound: nat)
    requires Ok(s) && InLine(s, c)
    ensures var s' := Next(s, Create(priority));
            && c < |s'.k.priority| && s'.k.priority[c] == s.k.priority[c]
            && WaitOf(s', c, bound) <= WaitOf(s, c, bound)
  {
    hide Wait, Invariant, AllRanked, Settled, MakeReady;
    Sizes(s.k);
    if s.pc == Idle {
      var k1, x := Newcomer(s.k, priority), |s.k.priority|;
      NewcomerKeeps(s.k, priority);
      MakeReadyKeeps(k1, x);
      JoinStep(k1, c, x, bound);
    }
  }

  lemma StaysInLine(s: Sys, call: Call, c: nat)
    requires Ok(s) && InLine(s, c) && !Chooses(s, call, c)
    ensures InLine(Next(s, call), c)
    ensures !call.Create? ==> Next(s, call).k.priority == s.k.priority
  {
    hide Invariant, AllRanked, Settled, Detach, Undelay, MakeReady, TickOver, AddToDelayed;
    StepOk(s, call);
    ClockMoves(s, call);
    Sizes(s.k);
    if Subject(s, call) == Some(c) {
      if s.pc.Pendings? { PendingHead(s.k); }
      if s.pc.Expiring? { DueHead(s.k); }
    } else {
      assert Left(s.k, Next(s, call).k, HitsOf(s, call), c);
    }
  }

  // --- runs ---

  /** How often the list of priority p had a turn from call i to call j. */
  function Turns(eventLists: nat, calls: seq<Call>, i: nat, j: nat, p: nat): nat
    requires i <= j <= |calls|
    decreases j
  {
    if j == i then 0
    else Turns(eventLists, calls, i, j - 1, p) + TurnOf(At(eventLists, calls, j - 1), calls[j - 1], p)
  }

  predicate NotChosen(eventLists: nat, calls: seq<Call>, i: nat, j: nat, c: nat)
    requires j <= |calls|
  {
    forall m :: i <= m < j ==> !Chooses(At(eventLists, calls, m), calls[m], c)
  }

  lemma {:induction false} PrioritiesGrow(eventLists: nat, calls: seq<Call>, i: nat, j: nat)
    requires i <= j <= |calls|
    ensures |At(eventLists, calls, i).k.priority| <= |At(eventLists, calls, j).k.priority|
  {
    hide Ok, After, Next;
    if i < j {
      PrioritiesGrow(eventLists, calls, i, j - 1);
      RunOk(eventLists, calls[..j - 1]);
      AtNext(eventLists, calls, j - 1);
      ClockMoves(At(eventLists, calls, j - 1), calls[j - 1]);
    }
  }

  lemma {:induction false} TurnsBounded(eventLists: nat, calls: seq<Call>, i: nat, j: nat, c: nat, bound: nat)
    requires i <= j <= |calls| && InLine(At(eventLists, calls, i), c) && NotChosen(eventLists, calls, i, j, c)
    requires |At(eventLists, calls, j).k.priority| <= bound
    ensures var s, s' := At(eventLists, calls, i), At(eventLists, calls, j);
            && InLine(s', c) && s'.k.priority[c] == s.k.priority[c]
            && Turns(eventLists, calls, i, j, s.k.priority[c]) + WaitOf(s', c, bound) <= WaitOf(s, c, bound)
  {
    hide Ok, After, Next, WaitOf, IsReady, Chooses, TakesTurn, TurnOf;
    if i < j {
      PrioritiesGrow(eventLists, calls, j - 1, j);
      TurnsBounded(eventLists, calls, i, j - 1, c, bound);
      RunOk(eventLists, calls[..j - 1]);
      AtNext(eventLists, calls, j - 1);
      TurnStep(At(eventLists, calls, j - 1), calls[j - 1], c, bound);
    }
  }

  /** No ready co-routine is passed over for ever by others of its priority: until it is
      chosen they get no more turns than twice the number of co-routines there are; and
      no more than the number that stand between the index and it, if the index is
      before it in its list, however many join or leave meanwhile. */
  lemma BoundedBypass(eventLists: nat, calls: seq<Call>, i: nat, j: nat, c: nat)
    requires i <= j <= |calls| && InLine(At(eventLists, calls, i), c) && NotChosen(eventLists, calls, i, j, c)
    ensures var s, n := At(eventLists, calls, i), |At(eventLists, calls, j).k.priority|;
            var r := RingOf(s.k, Ready(s.k.priority[c]));
            && InLine(At(eventLists, calls, j), c)
            && Turns(eventLists, calls, i, j, s.k.priority[c]) <= 2 * n
            && (r.cursor <= IndexOf(r.items, c) ==>
                  Turns(eventLists, calls, i, j, s.k.priority[c]) <= IndexOf(r.items, c) - r.cursor)
  {
    hide Ok, After, IsReady, Chooses, TakesTurn, TurnOf;
    var n := |At(eventLists, calls, j).k.priority|;
    TurnsBounded(eventLists, calls, i, j, c, n);
    PrioritiesGrow(eventLists, calls, i, j);
    RunOk(eventLists, calls[..i]);
    AtInvariant(At(eventLists, calls, i));
    LineUp(At(eventLists, calls, i).k, c, c);
  }

  lemma AtInvariant(s: Sys)
    requires Ok(s)
    ensures Invariant(s.k)
  {
  }

  /** A newcomer is put behind everyone in the visiting order, but ahead of the one the
      index stands on. */
  lemma NewcomerAhead(r: Ring<nat>, c: nat, x: nat)
    requires r.Ok() && Distinct(r.items) && c in r.items && x !in r.items
    ensures InsertEnd(r, x).Ok()
    ensures IndexOf(InsertEnd(r, x).Order(), c)
            == IndexOf(r.Order(), c) + (if r.cursor > 0 && Current(r) == c then 1 else 0)
  {
    hide Distinct, IndexOf, InsertEnd, InsertAt, Current;
    assert x != c;
    OrderDistinct(r, c);
    OrderWith(r, x);
    var o := r.Order();
    if r.cursor == 0 {
      IndexInPrefix(o, [x], c);
    } else {
      InsertBeforeLast(o, c, x);
    }
  }

  lemma OrderWith(r: Ring<nat>, x: nat)
    requires r.Ok()
    ensures InsertEnd(r, x).Ok()
    ensures r.cursor == 0 ==> InsertEnd(r, x).Order() == r.Order() + [x]
    ensures r.cursor > 0 ==> var o := r.Order(); var n := |o|;
              n > 0 && o[n - 1] == Current(r) && InsertEnd(r, x).Order() == o[..n - 1] + [x] + [o[n - 1]]
  {
    InsertEndOrder(r, x);
    if r.cursor > 0 { LastIsCurrent(r); }
  }

  lemma LastIsCurrent(r: Ring<nat>)
    requires r.Ok() && r.cursor > 0
    ensures |r.Order()| == |r.items| > 0 && r.Order()[|r.items| - 1] == Current(r)
  {
  }

  /** What is put before the last of a sequence is ahead of that one alone. */
  lemma InsertBeforeLast(o: seq<nat>, c: nat, x: nat)
    requires Distinct(o) && c in o && x != c
    ensures var n := |o|;
            n > 0 && IndexOf(o[..n - 1] + [x] + [o[n - 1]], c) == IndexOf(o, c) + (if o[n - 1] == c then 1 else 0)
  {
    var n := |o|;
    var front := o[..n - 1];
    assert o == front + [o[n - 1]];
    if o[n - 1] == c {
      IndexIs(o, n - 1, c);
      assert c !in front;
      IndexAfter(front + [x], [c], c);
    } else {
      IndexInPrefix(front, [o[n - 1]], c);
      IndexInPrefix(front, [x] + [o[n - 1]], c);
      assert front + [x] + [o[n - 1]] == front + ([x] + [o[n - 1]]);
    }
  }

  lemma IndexAfter(s: seq<nat>, t: seq<nat>, c: nat)
    requires c !in s
    ensures IndexOf(s + t, c) == |s| + IndexOf(t, c)
  {
    if s == [] {
      assert s + t == t;
    } else {
      assert (s + t)[0] == s[0] && (s + t)[1..] == s[1..] + t;
      IndexAfter(s[1..], t, c);
    }
  }

  lemma OrderDistinct(r: Ring<nat>, c: nat)
    requires r.Ok()
    ensures Distinct(r.items) ==> Distinct(r.Order())
    ensures c in r.items ==> c in r.Order()
  {
    assert r.items == r.items[..r.cursor] + r.items[r.cursor..];
  }

  lemma IndexInPrefix(s: seq<nat>, t: seq<nat>, c: nat)
    requires c in s
    ensures IndexOf(s + t, c) == IndexOf(s, c)
  {
    assert (s + t)[0] == s[0];
    if s[0] != c {
      assert (s + t)[1..] == s[1..] + t;
      IndexInPrefix(s[1..], t, c);
    }
  }
}
