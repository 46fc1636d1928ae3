/** Event lists of co-routines (arm/FreeRTOS/croutine.c): kept in priority order, so that
    an event readies a co-routine of the highest priority among those waiting for it. */
module CoRoutineEvents {
  import opened ListOrder
  import opened CoRoutineLists
  import opened CoRoutines
  import opened CoRoutineSteps

  predicate Ranked(k: Kernel, e: nat) {
    Sorted(EventKeys(k, Items(k, Event(e))))
  }

  ghost predicate AllRanked(k: Kernel) {
    forall e: nat :: Ranked(k, e)
  }

  lemma SameRank(k: Kernel, k': Kernel, e: nat)
    requires Ranked(k, e) && Items(k', Event(e)) == Items(k, Event(e)) && k'.priority == k.priority
    ensures Ranked(k', e)
  {
    assert EventKeys(k', Items(k, Event(e))) == EventKeys(k, Items(k, Event(e)));
  }

  lemma RankedWithout(k: Kernel, s: seq<nat>, p: nat)
    requires p < |s| && Sorted(EventKeys(k, s))
    ensures Sorted(EventKeys(k, Without(s, p)))
  {
    var a, b := EventKeys(k, s), EventKeys(k, Without(s, p));
    forall i, j | 0 <= i < j < |b| ensures b[i] <= b[j] {
      assert a[if i < p then i else i + 1] <= a[if j < p then j else j + 1];
    }
  }

  lemma RankedWith(k: Kernel, s: seq<nat>, c: nat)
    requires Sorted(EventKeys(k, s))
    ensures var p := Position(EventKeys(k, s), EventKey(k, c)); Sorted(EventKeys(k, InsertAt(s, p, c)))
  {
    hide Position, Sorted;
    var p := Position(EventKeys(k, s), EventKey(k, c));
    SortedInsert(EventKeys(k, s), EventKey(k, c));
    assert EventKeys(k, InsertAt(s, p, c)) == InsertAt(EventKeys(k, s), p, EventKey(k, c));
  }

  /** Removing any item from any list leaves the event lists in order ... */
  lemma DetachRanked(k: Kernel, c: nat, forEvents: bool)
    requires Contained(k) && AllRanked(k) && c < |k.priority| && PlaceOf(k, c, forEvents) != Nowhere
    ensures AllRanked(Detach(k, c, forEvents))
  {
    hide Contained, Sorted;
    DetachKeeps(k, c, forEvents);
    DetachedItems(k, c, forEvents);
    ValuesKept(k, c, forEvents);
    var k' := Detach(k, c, forEvents);
    var pl := PlaceOf(k, c, forEvents);
    forall e: nat ensures Ranked(k', e) {
      assert Ranked(k, e);
      if pl == Event(e) {
        RankedWithout(k, Items(k, pl), IndexOf(Items(k, pl), c));
        assert EventKeys(k', Items(k', pl)) == EventKeys(k, Items(k', pl));
      } else {
        SameRank(k, k', e);
      }
    }
  }

  /** ... and so does inserting one elsewhere, or where its priority puts it. */
  lemma AttachRanked(k: Kernel, c: nat, pl: Place, p: nat)
    requires Contained(k) && AllRanked(k) && c < |k.priority| && pl in k.lists && p <= |Items(k, pl)|
    requires PlaceOf(k, c, ForEvents(pl)) == Nowhere
    requires pl.Event? ==> p == Position(EventKeys(k, Items(k, pl)), EventKey(k, c))
    ensures AllRanked(Attach(k, c, pl, p))
  {
    hide Contained, Sorted, Position;
    AttachKeeps(k, c, pl, p);
    AttachTouches(k, c, pl, p);
    var k' := Attach(k, c, pl, p);
    forall e: nat ensures Ranked(k', e) {
      assert Ranked(k, e);
      if pl == Event(e) {
        RankedWith(k, Items(k, pl), c);
        assert EventKeys(k', Items(k', pl)) == EventKeys(k, Items(k', pl));
      } else {
        SameRank(k, k', e);
      }
    }
  }

  lemma InterruptRanked(k: Kernel, e: nat)
    requires Invariant(k) && AllRanked(k)
    ensures AllRanked(Interrupt(k, e))
  {
    var waiting := Items(k, Event(e));
    if waiting != [] {
      var c := waiting[0];
      assert Honest(k, Event(e));
      assert c in waiting;
      DetachRanked(k, c, true);
      DetachKeeps(k, c, true);
      hide Contained, AllRanked;
      AttachRanked(Detach(k, c, true), c, Pending, |Items(k, Pending)|);
    }
  }

  lemma UndelayRanked(k: Kernel, c: nat)
    requires Invariant(k) && AllRanked(k) && c < |k.priority| && PlaceOf(k, c, false).Delay?
    ensures AllRanked(Undelay(k, c))
  {
    DetachRanked(k, c, false);
    DetachKeeps(k, c, false);
    ValuesKept(k, c, false);
    hide Contained, AllRanked;
    if PlaceOf(Detach(k, c, false), c, true) != Nowhere { DetachRanked(Detach(k, c, false), c, true); }
  }

  lemma MakeReadyRanked(k: Kernel, c: nat)
    requires Invariant(k) && AllRanked(k) && c < |k.priority| && PlaceOf(k, c, false) == Nowhere == PlaceOf(k, c, true)
    ensures AllRanked(MakeReady(k, c))
  {
    MakeReadyKeeps(k, c);
    var k' := MakeReady(k, c);
    forall e: nat ensures Ranked(k', e) {
      assert Ranked(k, e);
      SameRank(k, k', e);
    }
  }

  lemma DelayRanked(k: Kernel, c: nat, d: Tick, e: Place)
    requires Invariant(k) && Settled(k) && AllRanked(k) && c < |k.priority| && PlaceOf(k, c, false).Ready?
          && PlaceOf(k, c, true) == Nowhere
    requires e == Nowhere || (e.Event? && e in k.lists)
    ensures c < |k.value| == |k.wakeLap| && k.current <= 1 && AllRanked(AddToDelayed(k, c, d, e))
  {
    RetimedKeeps(k, c, d);
    RetimedFrame(k, c, d);
    DelayedContained(k, c, d);
    DelayedFrame(k, c, d);
    hide Invariant, Contained, Ranked, Position;
    var k2 := Retimed(k, c, d);
    forall i: nat ensures Ranked(k2, i) { assert Ranked(k, i); SameRank(k, k2, i); }
    AttachRanked(k2, c, Target(k, d), Position(Keys(k2, Items(k2, Target(k, d))), Value(k2, c)));
    if e.Event? {
      var k3 := Delayed(k, c, d);
      AttachRanked(k3, c, e, Position(EventKeys(k3, Items(k3, e)), EventKey(k3, c)));
    }
  }

  /** Ticks, the search for the top priority and the turn of a ready list move no
      event item. */
  lemma OthersRanked(k: Kernel, top: nat, pl: Place)
    requires Invariant(k) && AllRanked(k)
    ensures AllRanked(TickOver(k)) && AllRanked(k.(top := top)) && AllRanked(Turned(k, pl))
  {
    TurnKeeps(k, pl);
    forall e: nat ensures Ranked(TickOver(k), e) && Ranked(k.(top := top), e) && Ranked(Turned(k, pl), e) {
      assert Ranked(k, e);
      SameRank(k, TickOver(k), e);
      SameRank(k, k.(top := top), e);
      SameRank(k, Turned(k, pl), e);
    }
  }

  lemma NewcomerRanked(k: Kernel, priority: nat)
    requires Invariant(k) && AllRanked(k)
    ensures AllRanked(Newcomer(k, priority))
  {
    var k' := Newcomer(k, priority);
    forall e: nat ensures Ranked(k', e) {
      var s := Items(k, Event(e));
      assert Ranked(k, e) && Honest(k, Event(e));
      forall i | 0 <= i < |s| ensures EventKey(k', s[i]) == EventKey(k, s[i]) { assert s[i] in s; }
      assert EventKeys(k', s) == EventKeys(k, s);
    }
  }

  /** The co-routine an event readies has a priority no lower than any left waiting. */
  lemma HighestIsReadied(k: Kernel, e: nat, u: nat)
    requires Invariant(k) && AllRanked(k) && u in Items(k, Event(e))
    ensures var c := Items(k, Event(e))[0];
            c < |k.priority| && u < |k.priority| && k.priority[c] >= k.priority[u]
                  && PlaceOf(Interrupt(k, e), c, true) == Pending
  {
    var s := Items(k, Event(e));
    var c := s[0];
    assert Honest(k, Event(e)) && c in s;
    DetachKeeps(k, c, true);
    AttachKeeps(Detach(k, c, true), c, Pending, |Items(k, Pending)|);
    assert Ranked(k, e);
    var i :| 0 <= i < |s| && s[i] == u;
    if i > 0 { assert EventKeys(k, s)[0] <= EventKeys(k, s)[i]; }
    KeyOf(k, c);
    KeyOf(k, u);
  }

  lemma KeyOf(k: Kernel, c: nat)
    requires Invariant(k) && c < |k.priority|
    ensures EventKey(k, c) == LEVELS - k.priority[c]
  {
  }
}
