/** The pieces of the co-routine scheduler (arm/FreeRTOS/croutine.c) besides the moves
    between lists: creation, the head of the delay list, the choice of whom to run. */
module CoRoutineSteps {
  import opened ListOrder
  import opened CoRoutineLists
  import opened CoRoutines

  // --- creation ---

  function Fresh(eventLists: nat): Kernel {
    Kernel(map pl | pl in AllPlaces(eventLists) :: Ring([], 0), [], [], [], [], [], 0, 0, 0, 0)
  }

  function AllPlaces(eventLists: nat): set<Place> {
    (set p | 0 <= p < LEVELS :: Ready(p)) + {Delay(0), Delay(1), Pending} + (set e | 0 <= e < eventLists :: Event(e))
  }

  lemma FreshInvariant(eventLists: nat)
    ensures Invariant(Fresh(eventLists)) && Settled(Fresh(eventLists)) && AllPlaced(Fresh(eventLists))
    ensures forall e: nat :: Event(e) in Fresh(eventLists).lists <==> e < eventLists
  {
    var k := Fresh(eventLists);
    forall pl ensures Items(k, pl) == [] && Honest(k, pl) {}
  }

  /** The control block of a new co-routine, in no list yet. */
  function Newcomer(k: Kernel, priority: nat): Kernel {
    k.(priority := k.priority + [if priority >= LEVELS then LEVELS - 1 else priority],
       generic := k.generic + [Nowhere], event := k.event + [Nowhere],
       value := k.value + [0], wakeLap := k.wakeLap + [0])
  }

  lemma NewcomerContained(k: Kernel, priority: nat)
    requires Contained(k)
    ensures Contained(Newcomer(k, priority))
    ensures forall c :: 0 <= c <= |k.priority| ==> PlaceOf(Newcomer(k, priority), c, false) == PlaceOf(k, c, false)
                                                   && PlaceOf(Newcomer(k, priority), c, true) == PlaceOf(k, c, true)
  {
    var k' := Newcomer(k, priority);
    forall pl ensures Honest(k', pl) { assert Honest(k, pl); }
    forall c | 0 <= c < |k'.priority| ensures Found(k', c) { if c < |k.priority| { assert Found(k, c); } }
  }

  lemma NewcomerOrder(k: Kernel, priority: nat, i: nat)
    requires Contained(k) && InOrder(k, i)
    ensures InOrder(Newcomer(k, priority), i)
  {
    var k' := Newcomer(k, priority);
    var s := Items(k, Delay(i));
    assert Honest(k, Delay(i));
    forall j | 0 <= j < |s| ensures Value(k', s[j]) == Value(k, s[j]) { assert s[j] in s; }
    assert Keys(k', s) == Keys(k, s);
  }

  lemma NewcomerKeeps(k: Kernel, priority: nat)
    requires Invariant(k)
    ensures Invariant(Newcomer(k, priority)) && (Settled(k) ==> Settled(Newcomer(k, priority)))
    ensures PlaceOf(Newcomer(k, priority), |k.priority|, false) == Nowhere == PlaceOf(Newcomer(k, priority),
            |k.priority|, true)
  {
    hide InOrder;
    NewcomerContained(k, priority);
    NewcomerOrder(k, priority, 0);
    NewcomerOrder(k, priority, 1);
    hide Contained;
    var k' := Newcomer(k, priority);
    assert Sized(k);
    forall c | 0 <= c < |k'.priority| ensures Timed(k', c) && WaitsDelayed(k', c) {
      if c < |k.priority| { assert Timed(k, c) && WaitsDelayed(k, c); }
    }
  }

  // --- choosing whom to run ---

  /** listGET_OWNER_OF_NEXT_ENTRY on a list of the kernel. */
  function Turned(k: Kernel, pl: Place): Kernel {
    if pl in k.lists && k.lists[pl].Ok() && k.lists[pl].items != [] then
      k.(lists := k.lists[pl := Advance(k.lists[pl])])
    else k
  }

  lemma LowerKeeps(k: Kernel)
    requires Invariant(k) && Items(k, Ready(k.top)) == [] && k.top > 0
    ensures Invariant(k.(top := k.top - 1)) && (Settled(k) ==> Settled(k.(top := k.top - 1)))
  {
    hide InOrder;
    var k' := k.(top := k.top - 1);
    TopIrrelevant(k, k.top - 1);
    forall c | 0 <= c < |k.priority| ensures Timed(k', c) && WaitsDelayed(k', c) {
      assert Timed(k, c) && WaitsDelayed(k, c);
    }
    SameOrder(k, k', 0);
    SameOrder(k, k', 1);
    hide Contained;
  }

  lemma TurnKeeps(k: Kernel, pl: Place)
    requires Invariant(k)
    ensures var k' := Turned(k, pl);
            && Invariant(k') && k' == k.(lists := k'.lists) && (Settled(k) ==> Settled(k'))
            && (forall q :: Items(k', q) == Items(k, q))
  {
    hide InOrder;
    var k' := Turned(k, pl);
    forall q ensures Honest(k', q) { assert Honest(k, q); }
    forall c | 0 <= c < |k.priority| ensures Found(k', c) { assert Found(k, c); }
    forall c | 0 <= c < |k.priority| ensures Timed(k', c) && WaitsDelayed(k', c) {
      assert Timed(k, c) && WaitsDelayed(k, c);
    }
    SameOrder(k, k', 0);
    SameOrder(k, k', 1);
  }

  predicate IsReady(k: Kernel, c: nat) {
    PlaceOf(k, c, false).Ready?
  }

  /** Whoever is in the list at the top priority is a ready co-routine of the highest
      priority of all the ready; an empty list at priority 0 means none is ready. */
  lemma TopIsHighest(k: Kernel, u: nat)
    requires Invariant(k) && u < |k.priority| && IsReady(k, u)
    ensures k.priority[u] <= k.top && (Items(k, Ready(k.top)) == [] ==> k.top > 0)
    ensures forall c :: c in Items(k, Ready(k.top)) ==>
              c < |k.priority| && IsReady(k, c) && k.priority[c] == k.top >= k.priority[u]
  {
    assert Found(k, u) && Timed(k, u);
    assert Honest(k, Ready(k.top));
    forall c | c in Items(k, Ready(k.top)) ensures c < |k.priority| && k.priority[c] == k.top { assert Timed(k, c); }
  }

  // --- the choice ---

  lemma NoneReady(k: Kernel)
    requires Invariant(k) && Items(k, Ready(k.top)) == [] && k.top == 0
    ensures forall u :: 0 <= u < |k.priority| ==> !IsReady(k, u)
  {
    forall u | 0 <= u < |k.priority| ensures !IsReady(k, u) {
      if IsReady(k, u) { TopIsHighest(k, u); }
    }
  }

  lemma RingAt(k: Kernel, pl: Place)
    requires Invariant(k) && Items(k, pl) != []
    ensures pl in k.lists && k.lists[pl].Ok()
  {
    assert Honest(k, pl);
  }

  lemma ChosenIsHighest(k: Kernel, c: nat)
    requires Invariant(k) && c in Items(k, Ready(k.top))
    ensures c < |k.priority| && IsReady(k, c)
    ensures forall u :: 0 <= u < |k.priority| && IsReady(k, u) ==> k.priority[u] <= k.priority[c]
  {
    assert Honest(k, Ready(k.top));
    forall u | 0 <= u < |k.priority| && IsReady(k, u) ensures k.priority[u] <= k.priority[c] { TopIsHighest(k, u); }
  }

  /** c is first in the visiting order of its ready list, and goes to its end. */
  predicate IsNext(k: Kernel, k': Kernel, c: nat) {
    var pl := Ready(k'.top);
    && pl in k.lists && k.lists[pl].Ok() && k.lists[pl].items != [] && c == k.lists[pl].Order()[0]
    && pl in k'.lists && k'.lists[pl].Ok() && k'.lists[pl].Order() == k.lists[pl].Order()[1..] + [c]
  }

  // --- timeouts ---

  lemma HeadIsLeast(k: Kernel, s: seq<nat>, c: nat)
    requires Sorted(Keys(k, s)) && c in s
    ensures s != [] && Value(k, s[0]) <= Value(k, c)
  {
    var i :| 0 <= i < |s| && s[i] == c;
    if i > 0 { assert Keys(k, s)[0] <= Keys(k, s)[i]; }
  }

  /** The head of the current delay list is not yet due: nobody in it is. */
  lemma HeadAhead(k: Kernel)
    requires Invariant(k)
    requires var s := Items(k, Delay(k.current)); s == [] || Value(k, s[0]) > k.tick
    ensures Settled(k)
  {
    hide Contained, Sorted, Honest;
    assert InOrder(k, k.current);
    forall c: nat | c < |k.generic| && k.generic[c] == Delay(k.current) ensures Value(k, c) > k.tick {
      Sizes(k);
      Parts(k, c, Nowhere);
      HeadIsLeast(k, Items(k, Delay(k.current)), c);
    }
  }

  /** The head of the current delay list is due: it has been due for no time at all. */
  lemma HeadDue(k: Kernel)
    requires Invariant(k)
    requires var s := Items(k, Delay(k.current)); s != [] && Value(k, s[0]) <= k.tick
    ensures var c := Items(k, Delay(k.current))[0];
            c < |k.priority| && PlaceOf(k, c, false) == Delay(k.current) && Wake(k, c) == Now(k)
  {
    var c := Items(k, Delay(k.current))[0];
    assert Honest(k, Delay(k.current));
    assert c in Items(k, Delay(k.current));
    assert Timed(k, c);
  }

  lemma StillAhead(k: Kernel, c: nat)
    requires Invariant(k) && Settled(k) && c < |k.priority| && PlaceOf(k, c, false).Delay?
    ensures Wake(k, c) > Now(k)
  {
    assert Timed(k, c);
  }

  // --- facts that follow from the invariant ---

  lemma ReadyHasNoEvent(k: Kernel, c: nat)
    requires Invariant(k) && c < |k.priority| && IsReady(k, c)
    ensures PlaceOf(k, c, true) == Nowhere
  {
    assert WaitsDelayed(k, c);
  }

  lemma DelayPlaces(k: Kernel, c: nat, d: Tick, e: Place)
    requires Invariant(k) && Settled(k) && AllPlaced(k) && c < |k.priority| && d > 0
    requires PlaceOf(k, c, false).Ready? && PlaceOf(k, c, true) == Nowhere
    requires e == Nowhere || (e.Event? && e in k.lists)
    ensures c < |k.value| == |k.wakeLap| && AllPlaced(AddToDelayed(k, c, d, e))
  {
    hide Invariant, Settled, AddToDelayed;
    Sizes(k);
    DelayKeeps(k, c, d, e);
    var k' := AddToDelayed(k, c, d, e);
    Sizes(k');
    forall u | 0 <= u < |k'.generic| ensures k'.generic[u] != Nowhere {
      if u != c { assert Left(k, k', {}, u); }
    }
  }

  lemma Sizes(k: Kernel)
    requires Invariant(k)
    ensures |k.generic| == |k.event| == |k.value| == |k.wakeLap| == |k.priority| && k.current <= 1
  {
  }

  lemma PendingHead(k: Kernel)
    requires Invariant(k) && Items(k, Pending) != []
    ensures var c := Items(k, Pending)[0];
            c < |k.priority| == |k.event| && PlaceOf(k, c, true) == Pending && PlaceOf(k, c, false).Delay?
  {
    var c := Items(k, Pending)[0];
    assert Honest(k, Pending);
    assert c in Items(k, Pending);
    assert WaitsDelayed(k, c);
  }

  lemma NonePending(k: Kernel)
    requires Invariant(k) && Items(k, Pending) == []
    ensures forall c :: 0 <= c < |k.priority| ==> PlaceOf(k, c, true) != Pending
  {
    forall c | 0 <= c < |k.priority| ensures PlaceOf(k, c, true) != Pending { assert Found(k, c); }
  }
}
