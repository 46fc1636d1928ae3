/** The co-routine scheduler (arm/FreeRTOS/croutine.c): no co-routine is lost or readied
    twice, each wakes exactly when its delay is over, across tick overflow, and the
    highest ready priority runs. */
module CoRoutines {
  import opened Common
  import opened ListOrder
  import opened CoRoutineLists

  const TICKS := 0x1_0000_0000

  /** configMAX_CO_ROUTINE_PRIORITIES: 2 in this firmware, but nothing depends on it. */
  type Levels = n: nat | 0 < n < 0x1_0000_0000 witness 2
  const LEVELS: Levels

  /** Absolute time, and the absolute time at which a delayed co-routine is to wake. */
  function Now(k: Kernel): nat { k.lap * TICKS + k.tick }

  function Wake(k: Kernel, c: nat): nat {
    if c < |k.value| == |k.wakeLap| then k.wakeLap[c] * TICKS + k.value[c] else 0
  }

  // --- the invariant ---

  /** A generic item in the list for its priority, or in a delay list with a wake time
      that belongs there: this lap of the tick count, or the next. */
  predicate Timed(k: Kernel, c: nat) {
    c < |k.generic| == |k.value| == |k.wakeLap| == |k.priority| ==>
    match k.generic[c]
    case Nowhere => true
    case Ready(p) => p == k.priority[c]
    case Delay(i) =>
      if i == k.current then k.wakeLap[c] == k.lap && k.tick <= k.value[c]
      else i == 1 - k.current && k.wakeLap[c] == k.lap + 1
    case _ => false
  }

  /** Only a delayed co-routine waits for an event or has one pending. */
  predicate WaitsDelayed(k: Kernel, c: nat) {
    PlaceOf(k, c, true) != Nowhere ==> PlaceOf(k, c, false).Delay?
  }

  function Value(k: Kernel, c: nat): Tick {
    if c < |k.value| then k.value[c] else 0
  }

  function Keys(k: Kernel, s: seq<nat>): (keys: seq<Tick>)
    ensures |keys| == |s| && forall i :: 0 <= i < |s| ==> keys[i] == Value(k, s[i])
  {
    seq(|s|, i requires 0 <= i < |s| => Value(k, s[i]))
  }

  predicate InOrder(k: Kernel, i: nat) {
    Sorted(Keys(k, Items(k, Delay(i))))
  }

  /** uxTopCoRoutineReadyPriority bounds the priorities of the ready. */
  ghost predicate TopBounds(k: Kernel) {
    forall p :: p > k.top ==> Items(k, Ready(p)) == []
  }

  predicate HasLists(k: Kernel) {
    && Delay(0) in k.lists && Delay(1) in k.lists && Pending in k.lists
    && (forall p :: 0 <= p < LEVELS ==> Ready(p) in k.lists)
    && k.current <= 1 && k.top < LEVELS
    && forall c :: 0 <= c < |k.priority| ==> k.priority[c] < LEVELS
  }

  ghost predicate Invariant(k: Kernel) {
    && Contained(k) && HasLists(k)
    && (forall c :: 0 <= c < |k.priority| ==> Timed(k, c) && WaitsDelayed(k, c))
    && InOrder(k, 0) && InOrder(k, 1)
    && TopBounds(k)
  }

  /** No wake time has been reached and not been dealt with. */
  predicate Settled(k: Kernel) {
    forall c :: 0 <= c < |k.generic| && k.generic[c] == Delay(k.current) ==> Value(k, c) > k.tick
  }

  /** Every co-routine is in exactly one of its ready list and the two delay lists
      (`Contained` rules out more than one). */
  predicate AllPlaced(k: Kernel) {
    forall c :: 0 <= c < |k.generic| ==> k.generic[c] != Nowhere
  }

  // --- steps that only move event items ---

  /** All but the event items of k' are those of k. */
  ghost predicate OnlyEvents(k: Kernel, k': Kernel) {
    && k' == k.(lists := k'.lists, event := k'.event)
    && k'.lists.Keys == k.lists.Keys
    && |k'.event| == |k.event|
    && (forall q :: !ForEvents(q) ==> Items(k', q) == Items(k, q))
  }

  /** xCoRoutineRemoveFromEventList, run by an interrupt or by a queue call. */
  function Interrupt(k: Kernel, e: nat): Kernel {
    var waiting := Items(k, Event(e));
    if waiting == [] then k
    else Attach(Detach(k, waiting[0], true), waiting[0], Pending, |Items(k, Pending)|)
  }

  lemma OnlyEventsKeeps(k: Kernel, k': Kernel)
    requires Invariant(k) && OnlyEvents(k, k') && Contained(k')
    requires forall c :: 0 <= c < |k.priority| && PlaceOf(k', c, true) != Nowhere ==> PlaceOf(k, c, true) != Nowhere
    ensures Invariant(k')
    ensures Settled(k) ==> Settled(k')
  {
    hide Contained;
    forall c | 0 <= c < |k.priority| ensures Timed(k', c) && WaitsDelayed(k', c) {
      assert Timed(k, c) && WaitsDelayed(k, c);
    }
    assert forall i: nat :: Keys(k', Items(k', Delay(i))) == Keys(k, Items(k, Delay(i)));
  }

  /** Nothing about c has changed but that its event has happened, if it is among hits:
      its event item has moved from an event list to the pending list. */
  predicate Left(k: Kernel, k': Kernel, hits: set<nat>, c: nat) {
    && PlaceOf(k', c, false) == PlaceOf(k, c, false) && Wake(k', c) == Wake(k, c)
    && if c in hits then PlaceOf(k, c, true).Event? && PlaceOf(k', c, true) == Pending
       else PlaceOf(k', c, true) == PlaceOf(k, c, true)
  }

  /** Those whose event happens: the head of the list, if there is one. */
  function HitBy(k: Kernel, e: nat): set<nat> {
    if Items(k, Event(e)) == [] then {} else {Items(k, Event(e))[0]}
  }

  lemma InterruptKeeps(k: Kernel, e: nat)
    requires Invariant(k)
    ensures var k' := Interrupt(k, e);
            && Invariant(k') && OnlyEvents(k, k') && (Settled(k) ==> Settled(k'))
            && (forall c :: 0 <= c < |k.priority| ==> Left(k, k', HitBy(k, e), c))
            && (var s := Items(k, Event(e));
                s != [] ==> Items(k', Event(e)) == s[1..] && Items(k', Pending) == Items(k, Pending) + [s[0]])
  {
    var s := Items(k, Event(e));
    if s != [] {
      var c := s[0];
      assert Honest(k, Event(e));
      assert c in s;
      DetachKeeps(k, c, true);
      DetachedItems(k, c, true);
      AttachKeeps(Detach(k, c, true), c, Pending, |Items(k, Pending)|);
      OnlyEventsKeeps(k, Interrupt(k, e));
      InterruptLeaves(k, e);
    }
  }

  lemma InterruptLeaves(k: Kernel, e: nat)
    requires Invariant(k) && Items(k, Event(e)) != []
    ensures forall c :: 0 <= c < |k.priority| ==> Left(k, Interrupt(k, e), HitBy(k, e), c)
  {
    hide Contained, Detach, Attach, InOrder, Timed, WaitsDelayed, TopBounds, HasLists;
    var c := Items(k, Event(e))[0];
    assert c in Items(k, Event(e));
    assert Pending in k.lists by { ListsAt(k); }
    assert Honest(k, Event(e)) && Sized(k) by { HonestAt(k, Event(e)); }
    DetachKeeps(k, c, true);
    ValuesKept(k, c, true);
    AttachTouches(Detach(k, c, true), c, Pending, |Items(k, Pending)|);
    AttachKeeps(Detach(k, c, true), c, Pending, |Items(k, Pending)|);
  }

  lemma ListsAt(k: Kernel)
    requires HasLists(k)
    ensures Pending in k.lists
  {
  }

  lemma HonestAt(k: Kernel, pl: Place)
    requires Contained(k)
    ensures Sized(k) && Honest(k, pl)
  {
  }

  lemma EventDetached(k: Kernel, c: nat)
    requires Invariant(k) && c < |k.priority| && PlaceOf(k, c, true) != Nowhere
    ensures var k' := Detach(k, c, true);
            Invariant(k') && OnlyEvents(k, k') && (Settled(k) ==> Settled(k')) && PlaceOf(k', c, true) == Nowhere
    ensures forall d :: 0 <= d < |k.priority| && d != c ==> PlaceOf(Detach(k, c, true), d, true) == PlaceOf(k, d, true)
  {
    assert Found(k, c);
    DetachKeeps(k, c, true);
    OnlyEventsKeeps(k, Detach(k, c, true));
  }

  // --- steps that move generic items ---

  /** A delayed co-routine leaves its delay list, and the event it waits for. */
  function Undelay(k: Kernel, c: nat): Kernel {
    var k' := Detach(k, c, false);
    if PlaceOf(k', c, true) != Nowhere then Detach(k', c, true) else k'
  }

  lemma ValuesKept(k: Kernel, c: nat, forEvents: bool)
    ensures var k' := Detach(k, c, forEvents);
            && k' == k.(lists := k'.lists, generic := k'.generic, event := k'.event)
            && |k'.generic| == |k.generic| && |k'.event| == |k.event| && k'.lists.Keys == k.lists.Keys
            && (forEvents ==> k'.generic == k.generic) && (!forEvents ==> k'.event == k.event)
            && forall d :: 0 <= d < |k.generic| && d != c ==> k'.generic[d] == k.generic[d]
    ensures var k' := Detach(k, c, forEvents);
            forall d :: 0 <= d < |k.event| && d != c ==> k'.event[d] == k.event[d]
  {
  }

  lemma SortedWithout(k: Kernel, s: seq<nat>, p: nat)
    requires p < |s| && Sorted(Keys(k, s))
    ensures Sorted(Keys(k, Without(s, p)))
  {
    var a, b := Keys(k, s), Keys(k, Without(s, p));
    forall i, j | 0 <= i < j < |b| ensures b[i] <= b[j] {
      assert a[if i < p then i else i + 1] <= a[if j < p then j else j + 1];
    }
  }

  lemma Parts(k: Kernel, c: nat, pl: Place)
    requires Contained(k) && c < |k.priority|
    ensures Sized(k) && Found(k, c) && Honest(k, pl)
  {
  }

  lemma SameOrder(k: Kernel, k': Kernel, i: nat)
    requires Items(k, Delay(i)) == Items(k', Delay(i)) && k.value == k'.value && InOrder(k, i)
    ensures InOrder(k', i)
  {
    assert Keys(k, Items(k, Delay(i))) == Keys(k', Items(k, Delay(i)));
  }

  lemma DetachedOrder(k: Kernel, c: nat, forEvents: bool, i: nat)
    requires Contained(k) && c < |k.priority| && PlaceOf(k, c, forEvents) != Nowhere && InOrder(k, i)
    ensures InOrder(Detach(k, c, forEvents), i)
  {
    hide Contained, Honest;
    var pl := PlaceOf(k, c, forEvents);
    Parts(k, c, pl);
    DetachKeeps(k, c, forEvents);
    ValuesKept(k, c, forEvents);
    var k' := Detach(k, c, forEvents);
    if pl == Delay(i) {
      var s := Items(k, pl);
      SortedWithout(k, s, IndexOf(s, c));
      DetachedItems(k, c, forEvents);
      assert Keys(k', Items(k', pl)) == Keys(k, Items(k', pl));
    } else {
      SameOrder(k, k', i);
    }
  }

  lemma DetachedItems(k: Kernel, c: nat, forEvents: bool)
    requires Contained(k) && c < |k.priority| && PlaceOf(k, c, forEvents) != Nowhere
    ensures var pl := PlaceOf(k, c, forEvents); var p := IndexOf(Items(k, pl), c);
            p < |Items(k, pl)| && Items(Detach(k, c, forEvents), pl) == Without(Items(k, pl), p)
  {
    assert Found(k, c) && Honest(k, PlaceOf(k, c, forEvents));
  }

  /** What Undelay leaves alone. */
  ghost predicate OnlyUndelayed(k: Kernel, k': Kernel, c: nat) {
    && k' == k.(lists := k'.lists, generic := k'.generic, event := k'.event)
    && |k'.generic| == |k.generic| && |k'.event| == |k.event| && k'.lists.Keys == k.lists.Keys
    && (forall d :: 0 <= d < |k.generic| && d != c ==> k'.generic[d] == k.generic[d])
    && (forall d :: 0 <= d < |k.event| && d != c ==> k'.event[d] == k.event[d])
    && (forall p :: Items(k', Ready(p)) == Items(k, Ready(p)))
  }

  lemma UndelayDetaches(k: Kernel, c: nat)
    requires Contained(k) && c < |k.priority| && PlaceOf(k, c, false).Delay? && InOrder(k, 0) && InOrder(k, 1)
    ensures var k' := Undelay(k, c);
            && Contained(k') && PlaceOf(k', c, false) == Nowhere == PlaceOf(k', c, true)
            && OnlyUndelayed(k, k', c) && InOrder(k', 0) && InOrder(k', 1)
  {
    hide InOrder, Contained, Honest;
    var k1 := Detach(k, c, false);
    DetachKeeps(k, c, false);
    ValuesKept(k, c, false);
    DetachedOrder(k, c, false, 0);
    DetachedOrder(k, c, false, 1);
    if PlaceOf(k1, c, true) != Nowhere {
      Parts(k1, c, Nowhere);
      DetachKeeps(k1, c, true);
      ValuesKept(k1, c, true);
      DetachedOrder(k1, c, true, 0);
      DetachedOrder(k1, c, true, 1);
    }
  }

  lemma UndelayKeeps(k: Kernel, c: nat)
    requires Invariant(k) && c < |k.priority| && PlaceOf(k, c, false).Delay?
    ensures var k' := Undelay(k, c);
            && Invariant(k') && PlaceOf(k', c, false) == Nowhere == PlaceOf(k', c, true)
            && OnlyUndelayed(k, k', c) && (Settled(k) ==> Settled(k'))
  {
    hide InOrder;
    UndelayDetaches(k, c);
    hide Contained;
    Parts(k, c, Nowhere);
    var k' := Undelay(k, c);
    Parts(k', c, Nowhere);
    forall d | 0 <= d < |k.priority| ensures Timed(k', d) && WaitsDelayed(k', d) {
      assert Timed(k, d) && WaitsDelayed(k, d);
    }
  }

  /** vListInsertEnd puts an item just before the index. */
  function EndPosition(r: Ring<nat>): (p: nat)
    requires r.Ok()
    ensures p <= |r.items|
    ensures forall x: nat :: Insert(r, p, x) == InsertEnd(r, x)
  {
    if r.cursor == 0 then |r.items| else r.cursor - 1
  }

  /** prvAddCoRoutineToReadyQueue */
  function MakeReady(k: Kernel, c: nat): Kernel {
    if c >= |k.priority| then k
    else
      var p := k.priority[c];
      var k' := k.(top := if p > k.top then p else k.top);
      if Ready(p) in k.lists && k.lists[Ready(p)].Ok() then
        Attach(k', c, Ready(p), EndPosition(k.lists[Ready(p)]))
      else k'
  }

  ghost predicate OnlyReadied(k: Kernel, k': Kernel, c: nat) {
    && c < |k.generic| == |k.priority|
    && k' == k.(lists := k'.lists, generic := k.generic[c := Ready(k.priority[c])], top := k'.top)
    && k'.lists.Keys == k.lists.Keys && k'.top >= k.top
    && (forall q: Place :: !q.Ready? ==> Items(k', q) == Items(k, q))
  }

  lemma MakeReadyListed(k: Kernel, c: nat)
    requires Invariant(k) && c < |k.priority| && PlaceOf(k, c, false) == Nowhere == PlaceOf(k, c, true)
    ensures var k' := MakeReady(k, c);
            && Contained(k') && HasLists(k') && OnlyReadied(k, k', c) && TopBounds(k')
            && InOrder(k', 0) && InOrder(k', 1)
  {
    hide InOrder;
    var p := k.priority[c];
    var k1 := k.(top := if p > k.top then p else k.top);
    assert Honest(k, Ready(p));
    TopIrrelevant(k, k1.top);
    AttachKeeps(k1, c, Ready(p), EndPosition(k.lists[Ready(p)]));
    hide Contained;
    SameOrder(k, MakeReady(k, c), 0);
    SameOrder(k, MakeReady(k, c), 1);
  }

  lemma MakeReadyKeeps(k: Kernel, c: nat)
    requires Invariant(k) && c < |k.priority| && PlaceOf(k, c, false) == Nowhere == PlaceOf(k, c, true)
    ensures var k' := MakeReady(k, c);
            Invariant(k') && OnlyReadied(k, k', c) && (Settled(k) ==> Settled(k'))
  {
    hide InOrder, Contained, MakeReady, TopBounds;
    MakeReadyListed(k, c);
    Parts(k, c, Nowhere);
    var k' := MakeReady(k, c);
    forall d | 0 <= d < |k.priority| ensures Timed(k', d) && WaitsDelayed(k', d) {
      assert Timed(k, d) && WaitsDelayed(k, d);
    }
  }

  lemma TopIrrelevant(k: Kernel, top: nat)
    requires Contained(k)
    ensures Contained(k.(top := top))
  {
    forall pl ensures Honest(k.(top := top), pl) { assert Honest(k, pl); }
    forall c | 0 <= c < |k.priority| ensures Found(k.(top := top), c) { assert Found(k, c); }
  }

  // --- the tick ---

  /** One more tick, and the delay lists swapped when the count wraps. */
  function TickOver(k: Kernel): Kernel {
    if k.tick + 1 == TICKS then k.(tick := 0, lap := k.lap + 1, current := if k.current == 0 then 1 else 0)
    else k.(tick := k.tick + 1)
  }

  lemma TickIrrelevant(k: Kernel, tick: Tick, lap: nat, current: nat)
    requires Contained(k)
    ensures Contained(k.(tick := tick, lap := lap, current := current))
  {
    var k' := k.(tick := tick, lap := lap, current := current);
    forall pl ensures Honest(k', pl) { assert Honest(k, pl); }
    forall c | 0 <= c < |k.priority| ensures Found(k', c) { assert Found(k, c); }
  }

  lemma Ahead(k: Kernel, c: nat)
    requires Settled(k) && c < |k.generic| && k.generic[c] == Delay(k.current)
    ensures Value(k, c) > k.tick
  {
  }

  /** When the count wraps the current delay list is empty. */
  lemma EmptyAtSwap(k: Kernel)
    requires Invariant(k) && Settled(k) && k.tick + 1 == TICKS
    ensures Items(k, Delay(k.current)) == []
  {
    var s := Items(k, Delay(k.current));
    assert Honest(k, Delay(k.current));
    if s != [] {
      assert s[0] in s;
      Ahead(k, s[0]);
    }
  }

  lemma TickOverKeeps(k: Kernel)
    requires Invariant(k) && Settled(k)
    ensures Invariant(TickOver(k)) && Now(TickOver(k)) == Now(k) + 1
  {
    hide InOrder;
    var k' := TickOver(k);
    TickIrrelevant(k, k'.tick, k'.lap, k'.current);
    hide Contained;
    if k.priority != [] { Parts(k, 0, Nowhere); }
    forall d | 0 <= d < |k.priority| ensures Timed(k', d) && WaitsDelayed(k', d) {
      Parts(k, d, Nowhere);
      assert Timed(k, d) && WaitsDelayed(k, d);
    }
    SameOrder(k, k', 0);
    SameOrder(k, k', 1);
  }

  // --- delaying the running co-routine ---

  /** Event items are sorted with the highest priority first. */
  function EventKeys(k: Kernel, s: seq<nat>): (keys: seq<Tick>)
    ensures |keys| == |s|
  {
    seq(|s|, i requires 0 <= i < |s| => EventKey(k, s[i]))
  }

  function EventKey(k: Kernel, c: nat): Tick {
    if c < |k.priority| && k.priority[c] < LEVELS then LEVELS - k.priority[c] else 0
  }

  /** The delay list for a wake time of d ticks from now: overflowed or not. */
  function Target(k: Kernel, d: Tick): Place
    requires k.current <= 1
  {
    Delay(if (k.tick + d) % TICKS < k.tick then 1 - k.current else k.current)
  }

  /** Out of the ready list, with the new time to wake. */
  function Retimed(k: Kernel, c: nat, d: Tick): Kernel
    requires c < |k.value| == |k.wakeLap|
  {
    var value: Tick := (k.tick + d) % TICKS;
    Detach(k, c, false).(value := k.value[c := value],
                         wakeLap := k.wakeLap[c := if value < k.tick then k.lap + 1 else k.lap])
  }

  /** The time to wake set, and the item in the list for this lap or for the next. */
  function Delayed(k: Kernel, c: nat, d: Tick): Kernel
    requires c < |k.value| == |k.wakeLap| && k.current <= 1
  {
    var k2 := Retimed(k, c, d);
    Attach(k2, c, Target(k, d), Position(Keys(k2, Items(k2, Target(k, d))), Value(k2, c)))
  }

  /** vCoRoutineAddToDelayedList, without and with an event list. */
  function AddToDelayed(k: Kernel, c: nat, d: Tick, e: Place): Kernel
    requires c < |k.value| == |k.wakeLap| && k.current <= 1
  {
    var k' := Delayed(k, c, d);
    if e.Event? then Attach(k', c, e, Position(EventKeys(k', Items(k', e)), EventKey(k', c))) else k'
  }

  ghost predicate OnlyDelayed(k: Kernel, k': Kernel, c: nat) {
    && c < |k.generic| == |k.value| == |k.wakeLap|
    && |k'.generic| == |k.generic| && |k'.value| == |k.value| && |k'.wakeLap| == |k.wakeLap|
    && k' == k.(lists := k'.lists, generic := k'.generic, value := k'.value, wakeLap := k'.wakeLap)
    && k'.lists.Keys == k.lists.Keys
    && (forall d :: 0 <= d < |k.generic| && d != c ==>
          k'.generic[d] == k.generic[d] && k'.value[d] == k.value[d] && k'.wakeLap[d] == k.wakeLap[d])
    && (forall p :: Ready(p) != k.generic[c] ==> Items(k', Ready(p)) == Items(k, Ready(p)))
  }

  lemma ValueIrrelevant(k: Kernel, value: seq<Tick>, wakeLap: seq<nat>)
    requires Contained(k) && |value| == |k.value| && |wakeLap| == |k.wakeLap|
    ensures Contained(k.(value := value, wakeLap := wakeLap))
  {
    var k' := k.(value := value, wakeLap := wakeLap);
    forall pl ensures Honest(k', pl) { assert Honest(k, pl); }
    forall c | 0 <= c < |k.priority| ensures Found(k', c) { assert Found(k, c); }
  }

  /** A key nobody in the list has does not disturb the order. */
  lemma OrderWithNewValue(k: Kernel, c: nat, value: seq<Tick>, wakeLap: seq<nat>, i: nat)
    requires InOrder(k, i) && c !in Items(k, Delay(i)) && |value| == |k.value|
    requires forall d :: 0 <= d < |value| && d != c ==> value[d] == k.value[d]
    ensures InOrder(k.(value := value, wakeLap := wakeLap), i)
  {
    var k' := k.(value := value, wakeLap := wakeLap);
    var s := Items(k, Delay(i));
    forall j | 0 <= j < |s| ensures Value(k', s[j]) == Value(k, s[j]) {
      assert s[j] in s;
    }
    assert Keys(k', s) == Keys(k, s);
  }

  lemma NotIn(k: Kernel, c: nat, i: nat)
    requires Contained(k) && PlaceOf(k, c, false) == Nowhere
    ensures c !in Items(k, Delay(i))
  {
    assert Honest(k, Delay(i));
  }

  /** In its own list a newcomer goes where its key belongs. */
  lemma SortedWith(k: Kernel, k': Kernel, s: seq<nat>, c: nat)
    requires Sorted(Keys(k, s)) && k'.value == k.value
    ensures var p := Position(Keys(k, s), Value(k, c)); Sorted(Keys(k', InsertAt(s, p, c)))
  {
    hide Position, Sorted;
    var p := Position(Keys(k, s), Value(k, c));
    SortedInsert(Keys(k, s), Value(k, c));
    assert Keys(k', InsertAt(s, p, c)) == InsertAt(Keys(k, s), p, Value(k, c));
  }

  lemma AttachedOrder(k: Kernel, c: nat, target: nat, i: nat)
    requires Contained(k) && c < |k.priority| && PlaceOf(k, c, false) == Nowhere && Delay(target) in k.lists
          && InOrder(k, i)
    ensures InOrder(Attach(k, c, Delay(target), Position(Keys(k, Items(k, Delay(target))), Value(k, c))), i)
  {
    hide Contained, Honest, Position;
    var s := Items(k, Delay(target));
    var p := Position(Keys(k, s), Value(k, c));
    AttachKeeps(k, c, Delay(target), p);
    var k' := Attach(k, c, Delay(target), p);
    if i == target { SortedWith(k, k', s, c); } else { SameOrder(k, k', i); }
  }

  /** The running co-routine out of its ready list, with its new wake time. */
  lemma Unlisted(k: Kernel, c: nat, value: seq<Tick>, wakeLap: seq<nat>)
    requires Invariant(k) && c < |k.priority| && PlaceOf(k, c, false).Ready?
    requires |value| == |k.value| && |wakeLap| == |k.wakeLap|
    requires forall d :: 0 <= d < |value| && d != c ==> value[d] == k.value[d]
    ensures var k2 := Detach(k, c, false).(value := value, wakeLap := wakeLap);
            && Contained(k2) && PlaceOf(k2, c, false) == Nowhere && InOrder(k2, 0) && InOrder(k2, 1)
            && k2.lists.Keys == k.lists.Keys
            && (forall q :: q != PlaceOf(k, c, false) ==> Items(k2, q) == Items(k, q))
  {
    hide InOrder;
    var k1 := Detach(k, c, false);
    DetachKeeps(k, c, false);
    ValuesKept(k, c, false);
    DetachedOrder(k, c, false, 0);
    DetachedOrder(k, c, false, 1);
    NotIn(k1, c, 0);
    NotIn(k1, c, 1);
    OrderWithNewValue(k1, c, value, wakeLap, 0);
    OrderWithNewValue(k1, c, value, wakeLap, 1);
    ValueIrrelevant(k1, value, wakeLap);
  }

  /** What Delayed does to the co-routine itself and leaves alone elsewhere. */
  predicate NewTimes(k: Kernel, k': Kernel, c: nat, d: Tick) {
    && c < |k'.wakeLap| && k.current <= 1
    && Value(k', c) == (k.tick + d) % TICKS
    && k'.wakeLap[c] == (if Value(k', c) < k.tick then k.lap + 1 else k.lap)
    && PlaceOf(k', c, false) == Target(k, d)
  }

  lemma AttachTouches(k: Kernel, c: nat, pl: Place, p: nat)
    ensures var k' := Attach(k, c, pl, p);
            && k' == k.(lists := k'.lists, generic := k'.generic, event := k'.event) && k'.lists.Keys == k.lists.Keys
            && |k'.generic| == |k.generic| && |k'.event| == |k.event|
            && (!ForEvents(pl) ==> k'.event == k.event) && (ForEvents(pl) ==> k'.generic == k.generic)
            && (forall u: nat :: u < |k.generic| && u != c ==> k'.generic[u] == k.generic[u])
            && (forall u: nat :: u < |k.event| && u != c ==> k'.event[u] == k.event[u])
  {
    hide Insert;
  }

  lemma RetimedKeeps(k: Kernel, c: nat, d: Tick)
    requires Invariant(k) && c < |k.priority| && PlaceOf(k, c, false).Ready?
    ensures c < |k.value| == |k.wakeLap|
    ensures var k2 := Retimed(k, c, d);
            && Contained(k2) && PlaceOf(k2, c, false) == Nowhere && InOrder(k2, 0) && InOrder(k2, 1)
            && k2.lists.Keys == k.lists.Keys && Target(k, d) in k2.lists
            && (forall q :: q != PlaceOf(k, c, false) ==> Items(k2, q) == Items(k, q))
  {
    hide InOrder, Contained, Detach;
    Parts(k, c, Nowhere);
    var k2 := Retimed(k, c, d);
    Unlisted(k, c, k2.value, k2.wakeLap);
  }

  lemma DelayedContained(k: Kernel, c: nat, d: Tick)
    requires Invariant(k) && c < |k.priority| && PlaceOf(k, c, false).Ready?
    ensures c < |k.value| == |k.wakeLap|
    ensures var k' := Delayed(k, c, d);
            Contained(k') && InOrder(k', 0) && InOrder(k', 1)
  {
    hide InOrder, Contained, Attach, Position, Retimed, Invariant;
    RetimedKeeps(k, c, d);
    RetimedFrame(k, c, d);
    var k2 := Retimed(k, c, d);
    var target := Target(k, d);
    AttachKeeps(k2, c, target, Position(Keys(k2, Items(k2, target)), Value(k2, c)));
    AttachedOrder(k2, c, target.i, 0);
    AttachedOrder(k2, c, target.i, 1);
  }

  lemma RetimedFrame(k: Kernel, c: nat, d: Tick)
    requires Invariant(k) && c < |k.priority| && PlaceOf(k, c, false).Ready?
    ensures c < |k.value| == |k.wakeLap|
    ensures var k2 := Retimed(k, c, d);
            && k2.priority == k.priority && k2.current == k.current <= 1 && Value(k2, c) == (k.tick + d) % TICKS
            && |k2.generic| == |k.generic| && |k.generic| == |k.priority| == |k.value| == |k.wakeLap|
                  && |k2.value| == |k.value|
            && k2 == k.(lists := k2.lists, generic := k2.generic, value := k2.value, wakeLap := k2.wakeLap)
            && (forall u: nat :: u < |k.generic| && u != c ==> k2.generic[u] == k.generic[u])
  {
    hide InOrder, Contained;
    Parts(k, c, Nowhere);
    ValuesKept(k, c, false);
  }

  lemma DelayedFrame(k: Kernel, c: nat, d: Tick)
    requires Invariant(k) && c < |k.priority| && PlaceOf(k, c, false).Ready?
    ensures c < |k.value| == |k.wakeLap| && k.current <= 1
    ensures OnlyDelayed(k, Delayed(k, c, d), c) && NewTimes(k, Delayed(k, c, d), c, d)
  {
    hide InOrder, Contained, Position, Insert, Detach, Invariant;
    RetimedKeeps(k, c, d);
    RetimedFrame(k, c, d);
    var k2 := Retimed(k, c, d);
    var target := Target(k, d);
    AttachKeeps(k2, c, target, Position(Keys(k2, Items(k2, target)), Value(k2, c)));
    AttachTouches(k2, c, target, Position(Keys(k2, Items(k2, target)), Value(k2, c)));
  }

  lemma DelayedStructure(k: Kernel, c: nat, d: Tick)
    requires Invariant(k) && c < |k.priority| && PlaceOf(k, c, false).Ready?
    ensures c < |k.value| == |k.wakeLap|
    ensures var k' := Delayed(k, c, d);
            Contained(k') && InOrder(k', 0) && InOrder(k', 1) && OnlyDelayed(k, k', c) && NewTimes(k, k', c, d)
  {
    hide Contained, InOrder, OnlyDelayed, NewTimes, Invariant, Delayed;
    DelayedContained(k, c, d);
    DelayedFrame(k, c, d);
  }

  lemma WakeSum(k: Kernel, k': Kernel, c: nat, d: Tick)
    requires NewTimes(k, k', c, d) && c < |k'.value| == |k'.wakeLap|
    ensures Wake(k', c) == Now(k) + d
  {
  }

  lemma DelayedWake(k: Kernel, c: nat, d: Tick)
    requires Invariant(k) && c < |k.priority| && PlaceOf(k, c, false).Ready?
    ensures c < |k.value| == |k.wakeLap| && Wake(Delayed(k, c, d), c) == Now(k) + d
  {
    hide Invariant, Delayed, Wake, NewTimes;
    DelayedFrame(k, c, d);
    WakeSum(k, Delayed(k, c, d), c, d);
  }

  lemma OtherTimed(k: Kernel, k': Kernel, c: nat, d: Tick, u: nat)
    requires OnlyDelayed(k, k', c) && NewTimes(k, k', c, d) && |k.priority| == |k.event| == |k.generic|
          && u < |k.generic|
    requires Timed(k, u) && WaitsDelayed(k, u)
    ensures Timed(k', u) && WaitsDelayed(k', u)
  {
  }

  lemma DelayedTimes(k: Kernel, c: nat, d: Tick)
    requires Invariant(k) && c < |k.priority| && PlaceOf(k, c, false).Ready?
    ensures c < |k.value| == |k.wakeLap| && k.current <= 1
    ensures forall u: nat :: u < |k.priority| ==> Timed(Delayed(k, c, d), u) && WaitsDelayed(Delayed(k, c, d), u)
  {
    Parts(k, c, Nowhere);
    hide Contained, InOrder, Delayed, OnlyDelayed, NewTimes, Timed, WaitsDelayed, TopBounds;
    DelayedFrame(k, c, d);
    forall u: nat | u < |k.priority| ensures Timed(Delayed(k, c, d), u) && WaitsDelayed(Delayed(k, c, d), u) {
      OtherTimed(k, Delayed(k, c, d), c, d, u);
    }
  }

  lemma LandsAhead(tick: Tick, d: Tick)
    ensures var v := (tick + d) % TICKS; (v < tick || v > tick <==> d > 0) && (d == 0 ==> v == tick)
  {
  }

  lemma SettledThen(k: Kernel, k': Kernel, c: nat, d: Tick)
    requires OnlyDelayed(k, k', c) && NewTimes(k, k', c, d) && Settled(k)
    ensures Settled(k') <==> d > 0
  {
    LandsAhead(k.tick, d);
    if d > 0 {
      forall u: nat | u < |k'.generic| && k'.generic[u] == Delay(k'.current) ensures Value(k', u) > k'.tick {}
    } else {
      assert k'.generic[c] == Delay(k'.current) && Value(k', c) == k'.tick;
    }
  }

  lemma DelayedSettled(k: Kernel, c: nat, d: Tick)
    requires Invariant(k) && Settled(k) && c < |k.priority| && PlaceOf(k, c, false).Ready?
    ensures c < |k.value| == |k.wakeLap| && k.current <= 1 && (Settled(Delayed(k, c, d)) <==> d > 0)
  {
    hide Invariant, Delayed, OnlyDelayed, NewTimes, Settled;
    DelayedFrame(k, c, d);
    SettledThen(k, Delayed(k, c, d), c, d);
  }

  lemma DelayedInvariant(k: Kernel, c: nat, d: Tick)
    requires Invariant(k) && c < |k.priority| && PlaceOf(k, c, false).Ready?
    ensures c < |k.value| == |k.wakeLap| && Invariant(Delayed(k, c, d))
  {
    DelayedStructure(k, c, d);
    DelayedTimes(k, c, d);
    assert Found(k, c);
    hide Contained, InOrder, Delayed, Timed, WaitsDelayed;
  }

  /** Delaying keeps the invariant; the co-routine is to wake exactly d ticks from now,
      and joins the event list if one is given. A delay of no ticks, which callers rule
      out, is the one that would leave a time already reached in the list. */
  lemma DelayKeeps(k: Kernel, c: nat, d: Tick, e: Place)
    requires Invariant(k) && Settled(k) && c < |k.priority|
    requires PlaceOf(k, c, false).Ready? && PlaceOf(k, c, true) == Nowhere
    requires e == Nowhere || (e.Event? && e in k.lists)
    ensures c < |k.value| == |k.wakeLap|
    ensures var k' := AddToDelayed(k, c, d, e);
            && Invariant(k') && (Settled(k') <==> d > 0)
            && Wake(k', c) == Now(k) + d && PlaceOf(k', c, false).Delay? && PlaceOf(k', c, true) == e
            && Now(k') == Now(k) && k'.tick == k.tick && k'.priority == k.priority && k'.lists.Keys == k.lists.Keys
            && forall u :: 0 <= u < |k.priority| && u != c ==> Left(k, k', {}, u)
  {
    hide InOrder, Timed, WaitsDelayed;
    DelayedStructure(k, c, d);
    DelayedTimes(k, c, d);
    DelayedWake(k, c, d);
    DelayedSettled(k, c, d);
    DelayedInvariant(k, c, d);
    if e.Event? { JoinsEvent(Delayed(k, c, d), c, e); }
  }

  lemma JoinsEvent(k: Kernel, c: nat, e: Place)
    requires Invariant(k) && c < |k.priority| && PlaceOf(k, c, false).Delay? && PlaceOf(k, c, true) == Nowhere
    requires e.Event? && e in k.lists
    ensures var k' := Attach(k, c, e, Position(EventKeys(k, Items(k, e)), EventKey(k, c)));
            && Invariant(k') && PlaceOf(k', c, true) == e && (Settled(k') <==> Settled(k))
            && k' == k.(lists := k'.lists, event := k.event[c := e])
  {
    hide InOrder;
    var p := Position(EventKeys(k, Items(k, e)), EventKey(k, c));
    AttachKeeps(k, c, e, p);
    var k' := Attach(k, c, e, p);
    hide Contained;
    Parts(k, c, e);
    forall u | 0 <= u < |k.priority| ensures Timed(k', u) && WaitsDelayed(k', u) {
      assert Timed(k, u) && WaitsDelayed(k, u);
    }
    SameOrder(k, k', 0);
    SameOrder(k, k', 1);
  }

  /** The call co-routines must not make: a delay of no ticks at the last tick of a lap
      is in the list that is about to become the one for the next lap. */
  lemma ZeroDelayStrays(k: Kernel, c: nat)
    requires Invariant(k) && Settled(k) && c < |k.priority| && PlaceOf(k, c, false).Ready? && k.tick + 1 == TICKS
    ensures c < |k.value| == |k.wakeLap|
    ensures var k' := TickOver(Delayed(k, c, 0));
            Wake(k', c) < Now(k') && PlaceOf(k', c, false) == Delay(1 - k'.current)
  {
    DelayedStructure(k, c, 0);
    DelayedWake(k, c, 0);
    hide Contained, InOrder, Delayed;
  }

  /** Every item is in just the list it says, once. */
  lemma OnePlace(k: Kernel, c: nat, pl: Place)
    requires Contained(k) && c < |k.priority| && pl != Nowhere
    ensures multiset(Items(k, pl))[c] == if PlaceOf(k, c, ForEvents(pl)) == pl then 1 else 0
  {
    assert Found(k, c) && Honest(k, pl);
    CountDistinct(Items(k, pl), c);
  }

  lemma CountDistinct(s: seq<nat>, c: nat)
    requires Distinct(s)
    ensures multiset(s)[c] == if c in s then 1 else 0
  {
    if s != [] {
      CountDistinct(s[1..], c);
      assert s == [s[0]] + s[1..];
    }
  }
}
