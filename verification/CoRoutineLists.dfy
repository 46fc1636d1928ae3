/** The lists of the co-routine scheduler (arm/FreeRTOS/croutine.c): every co-routine
    owns two list items, and each item knows the list it is in. */
module CoRoutineLists {
  import opened Common
  import opened ListOrder

  // --- state ---

  /** The list an item is in (pvContainer). Delay(0) and Delay(1) are the two delay
      lists; which of them is the current one changes when the tick count wraps. */
  datatype Place = Nowhere | Ready(p: nat) | Delay(i: nat) | Event(e: nat) | Pending

  /** Event lists and the pending list hold event items, the others generic items. */
  predicate ForEvents(pl: Place) {
    pl.Event? || pl.Pending?
  }

  /** The globals of the scheduler. Absolute time is `lap` wraps of the tick count and
      `tick`; `lap` and the wake laps are not in the source. */
  datatype Kernel = Kernel(
    lists: map<Place, Ring<nat>>,
    priority: seq<nat>, generic: seq<Place>, event: seq<Place>,
    value: seq<Tick>, wakeLap: seq<nat>,
    current: nat, tick: Tick, lap: nat, top: nat)

  function Items(k: Kernel, pl: Place): seq<nat> {
    if pl in k.lists then k.lists[pl].items else []
  }

  function PlaceOf(k: Kernel, c: nat, forEvents: bool): Place {
    if forEvents then (if c < |k.event| then k.event[c] else Nowhere)
    else (if c < |k.generic| then k.generic[c] else Nowhere)
  }

  predicate Sized(k: Kernel) {
    && |k.generic| == |k.event| == |k.value| == |k.wakeLap| == |k.priority|
    && Nowhere !in k.lists
  }

  /** A list holds no item twice, and its items say they are in it. */
  predicate Honest(k: Kernel, pl: Place) {
    && (pl in k.lists ==> k.lists[pl].Ok())
    && Distinct(Items(k, pl))
    && forall c :: c in Items(k, pl) ==> c < |k.priority| && PlaceOf(k, c, ForEvents(pl)) == pl
  }

  /** An item that says it is in a list is in it. */
  predicate Found(k: Kernel, c: nat) {
    && (PlaceOf(k, c, false) != Nowhere ==> !ForEvents(PlaceOf(k, c, false)) && c in Items(k, PlaceOf(k, c, false)))
    && (PlaceOf(k, c, true) != Nowhere ==> ForEvents(PlaceOf(k, c, true)) && c in Items(k, PlaceOf(k, c, true)))
  }

  /** Nothing is lost and nothing is in two places. */
  ghost predicate Contained(k: Kernel) {
    && Sized(k)
    && (forall pl :: Honest(k, pl))
    && (forall c :: 0 <= c < |k.priority| ==> Found(k, c))
  }

  // --- taking an item out of its list, putting it into one ---

  function IndexOf(s: seq<nat>, c: nat): (p: nat)
    ensures p <= |s| && (c in s ==> p < |s| && s[p] == c)
  {
    if s == [] || s[0] == c then 0 else 1 + IndexOf(s[1..], c)
  }

  function SetPlace(k: Kernel, c: nat, forEvents: bool, pl: Place): Kernel {
    if forEvents then (if c < |k.event| then k.(event := k.event[c := pl]) else k)
    else (if c < |k.generic| then k.(generic := k.generic[c := pl]) else k)
  }

  /** uxListRemove: the container says which list. */
  function Detach(k: Kernel, c: nat, forEvents: bool): Kernel {
    var pl := PlaceOf(k, c, forEvents);
    if pl in k.lists && k.lists[pl].Ok() && c in k.lists[pl].items then
      SetPlace(k.(lists := k.lists[pl := Remove(k.lists[pl], IndexOf(k.lists[pl].items, c))]), c, forEvents, Nowhere)
    else k
  }

  /** Both kinds of insertion, once the position is known. */
  function Attach(k: Kernel, c: nat, pl: Place, p: nat): Kernel {
    if pl in k.lists && k.lists[pl].Ok() && p <= |k.lists[pl].items| then
      SetPlace(k.(lists := k.lists[pl := Insert(k.lists[pl], p, c)]), c, ForEvents(pl), pl)
    else k
  }

  lemma WithoutMembers(s: seq<nat>, p: nat)
    requires Distinct(s) && p < |s|
    ensures Distinct(Without(s, p)) && forall c :: c in Without(s, p) <==> c in s && c != s[p]
  {
    assert s == s[..p] + [s[p]] + s[p + 1..];
  }

  lemma InsertAtMembers(s: seq<nat>, p: nat, x: nat)
    requires Distinct(s) && p <= |s| && x !in s
    ensures Distinct(InsertAt(s, p, x)) && forall c :: c in InsertAt(s, p, x) <==> c in s || c == x
  {
    assert s == s[..p] + s[p..];
  }

  lemma DetachKeeps(k: Kernel, c: nat, forEvents: bool)
    requires Contained(k) && c < |k.priority| && PlaceOf(k, c, forEvents) != Nowhere
    ensures var k' := Detach(k, c, forEvents); var pl := PlaceOf(k, c, forEvents);
            && Contained(k') && PlaceOf(k', c, forEvents) == Nowhere
            && (forall q :: q != pl ==> Items(k', q) == Items(k, q))
            && (forall d :: d in Items(k', pl) <==> d in Items(k, pl) && d != c)
  {
    var pl := PlaceOf(k, c, forEvents);
    assert Found(k, c) && Honest(k, pl);
    var r := k.lists[pl];
    WithoutMembers(r.items, IndexOf(r.items, c));
    var k' := Detach(k, c, forEvents);
    forall q ensures Honest(k', q) { assert Honest(k, q); }
    forall d | 0 <= d < |k.priority| ensures Found(k', d) { assert Found(k, d); }
  }

  lemma AttachKeeps(k: Kernel, c: nat, pl: Place, p: nat)
    requires Contained(k) && c < |k.priority| && pl in k.lists && p <= |Items(k, pl)|
          && PlaceOf(k, c, ForEvents(pl)) == Nowhere
    ensures var k' := Attach(k, c, pl, p);
            && Contained(k') && PlaceOf(k', c, ForEvents(pl)) == pl
            && (forall q :: q != pl ==> Items(k', q) == Items(k, q))
            && Items(k', pl) == InsertAt(Items(k, pl), p, c)
  {
    assert Honest(k, pl);
    var r := k.lists[pl];
    InsertAtMembers(r.items, p, c);
    var k' := Attach(k, c, pl, p);
    forall q ensures Honest(k', q) { assert Honest(k, q); }
    forall d | 0 <= d < |k.priority| ensures Found(k', d) { assert Found(k, d); }
  }
}
