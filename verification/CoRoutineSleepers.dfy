/** Co-routines that are to wake at the same time (arm/FreeRTOS/croutine.c): in every run
    they are readied in the order in which they went to sleep. */
module CoRoutineSleepers {
  import opened Common
  import opened ListOrder
  import opened CoRoutineLists
  import opened CoRoutines
  import opened CoRoutineSteps
  import opened CoRoutineEvents
  import opened CoRoutineRuns
  import opened CoRoutineWakes

  /** b stands before c in the list. */
  predicate Precedes(s: seq<nat>, b: nat, c: nat) {
    exists i, j :: 0 <= i < j < |s| && s[i] == b && s[j] == c
  }

  lemma PrecedesWithout(s: seq<nat>, p: nat, b: nat, c: nat)
    requires p < |s| && Precedes(s, b, c) && s[p] != b && s[p] != c
    ensures Precedes(Without(s, p), b, c)
  {
    var i, j :| 0 <= i < j < |s| && s[i] == b && s[j] == c;
    var i', j' := if i < p then i else i - 1, if j < p then j else j - 1;
    var t := Without(s, p);
    assert 0 <= i' < j' < |t| && t[i'] == b && t[j'] == c;
  }

  lemma PrecedesInsert(s: seq<nat>, p: nat, x: nat, b: nat, c: nat)
    requires p <= |s| && Precedes(s, b, c)
    ensures Precedes(InsertAt(s, p, x), b, c)
  {
    var i, j :| 0 <= i < j < |s| && s[i] == b && s[j] == c;
    var i', j' := if i < p then i else i + 1, if j < p then j else j + 1;
    var t := InsertAt(s, p, x);
    assert 0 <= i' < j' < |t| && t[i'] == b && t[j'] == c;
  }

  lemma HeadHasNobodyBefore(s: seq<nat>, b: nat, c: nat)
    requires Distinct(s) && Precedes(s, b, c)
    ensures s != [] && s[0] != c && b in s && c in s && b != c
  {
  }

  // --- the delay lists in the steps of the machine ---

  lemma UndelayItems(k: Kernel, x: nat, i: nat)
    requires Invariant(k) && x < |k.priority| && PlaceOf(k, x, false).Delay?
    ensures var s := Items(k, Delay(i)); var p := IndexOf(s, x);
            if PlaceOf(k, x, false) == Delay(i) then
              p < |s| && s[p] == x && Items(Undelay(k, x), Delay(i)) == Without(s, p)
            else Items(Undelay(k, x), Delay(i)) == s
  {
    Parts(k, x, PlaceOf(k, x, false));
    var k1 := Detach(k, x, false);
    DetachKeeps(k, x, false);
    DetachedItems(k, x, false);
    ValuesKept(k, x, false);
    hide Contained, Detach, InOrder;
    if PlaceOf(k1, x, true) != Nowhere {
      Parts(k1, x, Nowhere);
      DetachKeeps(k1, x, true);
    }
  }

  lemma AttachElsewhere(k: Kernel, x: nat, pl: Place, p: nat, q: Place)
    requires q != pl
    ensures Items(Attach(k, x, pl, p), q) == Items(k, q)
  {
  }

  /** Where the delay lists have the running co-routine after its delay. */
  predicate DelayedInto(k: Kernel, k': Kernel, x: nat, d: Tick, i: nat)
    requires k.current <= 1 && x < |k.value| == |k.wakeLap|
  {
    var s := Items(k, Delay(i));
    if Target(k, d) == Delay(i) then
      var p := Position(Keys(Retimed(k, x, d), s), (k.tick + d) % TICKS);
      p <= |s| && Items(k', Delay(i)) == InsertAt(s, p, x)
    else Items(k', Delay(i)) == s
  }

  /** What Retimed leaves for the insertion. */
  lemma Unlists(k: Kernel, x: nat, d: Tick, i: nat)
    requires Invariant(k) && x < |k.priority| && IsReady(k, x)
    ensures x < |k.value| == |k.wakeLap| && k.current <= 1
    ensures var k2 := Retimed(k, x, d);
            && Contained(k2) && PlaceOf(k2, x, false) == Nowhere && Target(k, d) in k2.lists && x < |k2.priority|
            && Items(k2, Delay(i)) == Items(k, Delay(i)) && Value(k2, x) == (k.tick + d) % TICKS
  {
    hide Invariant, Contained, InOrder, Retimed, Target;
    RetimedKeeps(k, x, d);
    RetimedFrame(k, x, d);
  }

  lemma DelayedLists(k: Kernel, x: nat, d: Tick, i: nat)
    requires Invariant(k) && x < |k.priority| && IsReady(k, x)
    ensures x < |k.value| == |k.wakeLap| && k.current <= 1 && DelayedInto(k, Delayed(k, x, d), x, d, i)
  {
    hide Invariant, Contained, Attach, Position, Retimed, Keys, Value, Items;
    Sizes(k);
    var k2, target := Retimed(k, x, d), Target(k, d);
    Unlists(k, x, d, i);
    Unlists(k, x, d, target.i);
    AttachKeeps(k2, x, target, Position(Keys(k2, Items(k2, target)), Value(k2, x)));
  }

  lemma DelayItems(k: Kernel, x: nat, d: Tick, e: Place, i: nat)
    requires Invariant(k) && x < |k.priority| && IsReady(k, x) && !e.Delay?
    ensures x < |k.value| == |k.wakeLap| && k.current <= 1 && DelayedInto(k, AddToDelayed(k, x, d, e), x, d, i)
  {
    hide Invariant, Attach, Position, Delayed, Target, Retimed, Keys;
    DelayedLists(k, x, d, i);
    var k' := Delayed(k, x, d);
    if e.Event? {
      AttachElsewhere(k', x, e, Position(EventKeys(k', Items(k', e)), EventKey(k', x)), Delay(i));
    }
  }

  lemma InsertedOrder(s: seq<nat>, p: nat, x: nat, i: nat)
    requires p <= |s| && i < |s|
    ensures var t := InsertAt(s, p, x); if i < p then Precedes(t, s[i], x) else Precedes(t, x, s[i])
  {
    var t := InsertAt(s, p, x);
    assert t[p] == x && t[if i < p then i else i + 1] == s[i];
  }

  lemma InsertedBehind(k: Kernel, s: seq<nat>, v: Tick, x: nat, b: nat)
    requires Sorted(Keys(k, s)) && b in s
    ensures var t := InsertAt(s, Position(Keys(k, s), v), x);
            if Value(k, b) <= v then Precedes(t, b, x) else Precedes(t, x, b)
  {
    hide Position, Sorted, InsertAt, Precedes, Keys, Value;
    var i :| 0 <= i < |s| && s[i] == b;
    PositionSplits(Keys(k, s), v);
    InsertedOrder(s, Position(Keys(k, s), v), x, i);
  }

  lemma OtherValues(k: Kernel, x: nat, d: Tick, u: nat)
    requires x < |k.value| == |k.wakeLap| && u != x
    ensures Value(Retimed(k, x, d), u) == Value(k, u)
  {
  }

  lemma DelayedIsListed(k: Kernel, b: nat)
    requires Invariant(k) && b < |k.priority| && PlaceOf(k, b, false).Delay?
    ensures b in Items(k, PlaceOf(k, b, false))
  {
    Parts(k, b, Nowhere);
  }

  /** Setting the new wake time disturbs no delay list. */
  lemma StillSorted(k: Kernel, x: nat, d: Tick)
    requires Invariant(k) && x < |k.priority| && IsReady(k, x)
    ensures x < |k.value| == |k.wakeLap| && k.current <= 1
    ensures Sorted(Keys(Retimed(k, x, d), Items(k, Target(k, d))))
  {
    hide Invariant, Contained, Sorted, Retimed;
    Sizes(k);
    RetimedKeeps(k, x, d);
    assert InOrder(Retimed(k, x, d), Target(k, d).i);
  }

  /** A newcomer to a delay list goes behind all that wake no later, and before the rest. */
  lemma DelayedBehind(k: Kernel, x: nat, d: Tick, e: Place, b: nat)
    requires Invariant(k) && x < |k.priority| && IsReady(k, x) && !e.Delay?
    requires PlaceOf(k, b, false).Delay? && b < |k.priority|
    ensures x < |k.value| == |k.wakeLap| && k.current <= 1
    ensures PlaceOf(k, b, false) == Target(k, d) ==>
              var s := Items(AddToDelayed(k, x, d, e), Target(k, d));
              if Value(k, b) <= (k.tick + d) % TICKS then Precedes(s, b, x) else Precedes(s, x, b)
  {
    hide Invariant, Sorted, Position, Retimed, AddToDelayed, Precedes, Keys, Items, Value;
    Sizes(k);
    DelayItems(k, x, d, e, Target(k, d).i);
    if PlaceOf(k, b, false) == Target(k, d) {
      StillSorted(k, x, d);
      OtherValues(k, x, d, b);
      DelayedIsListed(k, b);
      InsertedBehind(Retimed(k, x, d), Items(k, Target(k, d)), (k.tick + d) % TICKS, x, b);
    }
  }

  /** Who stands before whom in a delay list stays so while both stay. */
  lemma UnlistStep(k: Kernel, x: nat, i: nat, b: nat, c: nat)
    requires Invariant(k) && x < |k.priority| && PlaceOf(k, x, false).Delay? && x != b && x != c
    requires Precedes(Items(k, Delay(i)), b, c)
    ensures Precedes(Items(Undelay(k, x), Delay(i)), b, c)
  {
    hide Invariant, Undelay, Precedes;
    UndelayItems(k, x, i);
    if PlaceOf(k, x, false) == Delay(i) {
      PrecedesWithout(Items(k, Delay(i)), IndexOf(Items(k, Delay(i)), x), b, c);
    }
  }

  lemma DelayStep(k: Kernel, x: nat, d: Tick, e: Place, i: nat, b: nat, c: nat)
    requires Invariant(k) && x < |k.priority| && IsReady(k, x) && !e.Delay?
    requires Precedes(Items(k, Delay(i)), b, c)
    ensures x < |k.value| == |k.wakeLap| && k.current <= 1
    ensures Precedes(Items(AddToDelayed(k, x, d, e), Delay(i)), b, c)
  {
    hide Invariant, AddToDelayed, Precedes, Position, Retimed;
    DelayItems(k, x, d, e, i);
    if Target(k, d) == Delay(i) {
      var s := Items(k, Delay(i));
      PrecedesInsert(s, Position(Keys(Retimed(k, x, d), s), (k.tick + d) % TICKS), x, b, c);
    }
  }

  lemma GoStep(s: Sys, i: nat, b: nat, c: nat)
    requires Ok(s) && Precedes(Items(s.k, Delay(i)), b, c)
    requires Subject(s, Go) != Some(c) && (Subject(s, Go) == Some(b) ==> s.pc.Pendings?)
    ensures Precedes(Items(Went(s).k, Delay(i)), b, c)
  {
    hide Invariant, AllRanked, Settled, Detach, Undelay, MakeReady, Turned, Precedes;
    Sizes(s.k);
    match s.pc
    case Pendings =>
      if Items(s.k, Pending) != [] {
        PendingHead(s.k);
        EventDetached(s.k, Items(s.k, Pending)[0]);
      }
    case Taken(x) => UnlistStep(s.k, x, i, b, c);
    case PendingUnlisted(x) => RelistOk(s, x);
    case Expiring(_) =>
      DueHead(s.k);
      if Due(s.k).Some? { UnlistStep(s.k, Due(s.k).value, i, b, c); }
    case ExpiredUnlisted(x, _) => RelistOk(s, x);
    case Choosing => TurnKeeps(s.k, Ready(s.k.top));
    case _ =>
  }

  lemma ListStep(s: Sys, call: Call, i: nat, b: nat, c: nat)
    requires Ok(s) && Precedes(Items(s.k, Delay(i)), b, c)
    requires Subject(s, call) != Some(c) && (Subject(s, call) == Some(b) ==> call.Go? && s.pc.Pendings?)
    ensures Precedes(Items(Next(s, call).k, Delay(i)), b, c)
  {
    hide Invariant, AllRanked, Settled, Interrupt, AddToDelayed, MakeReady, Went, Precedes, Subject;
    Sizes(s.k);
    match call
    case Isr(list) => InterruptKeeps(s.k, list);
    case Go => GoStep(s, i, b, c);
    case AddDelay(d, e) =>
      if MayDelay(s, d, e) { DelayStep(s.k, s.running.value, d, e, i, b, c); }
    case Create(priority) =>
      if s.pc == Idle {
        NewcomerKeeps(s.k, priority);
        MakeReadyKeeps(Newcomer(s.k, priority), |s.k.priority|);
      }
    case _ =>
  }

  // --- runs ---

  /** Both are to wake at w, in one delay list, and b stands before c. */
  predicate Behind(s: Sys, b: nat, c: nat, w: nat, e: Place) {
    && Asleep(s, c, w, e) && b < |s.k.priority| && PlaceOf(s.k, b, false) == PlaceOf(s.k, c, false)
    && Wake(s.k, b) == w && Precedes(Items(s.k, PlaceOf(s.k, c, false)), b, c)
  }

  /** b is on its way to its ready list, and c still sleeps. */
  predicate GoesFirst(s: Sys, b: nat, c: nat, w: nat, e: Place) {
    InTransit(s, b) && Asleep(s, c, w, e)
  }

  lemma HeadNotBehind(k: Kernel, i: nat, b: nat, c: nat)
    requires Invariant(k) && Precedes(Items(k, Delay(i)), b, c)
    ensures Items(k, Delay(i)) != [] && Items(k, Delay(i))[0] != c && b != c
  {
    HonestAt(k, Delay(i));
    HeadHasNobodyBefore(Items(k, Delay(i)), b, c);
  }

  /** Nothing moves c but its event or b's going first. */
  lemma NotTheSubject(s: Sys, call: Call, b: nat, c: nat, w: nat, e: Place)
    requires Ok(s) && Behind(s, b, c, w, e) && e != Pending
    ensures Subject(s, call) != Some(c) && b != c
  {
    hide Invariant, AllRanked, Settled, Precedes, Wake;
    Sizes(s.k);
    HeadNotBehind(s.k, PlaceOf(s.k, c, false).i, b, c);
    if call.Go? && s.pc.Pendings? && Items(s.k, Pending) != [] { PendingHead(s.k); }
    if call.Go? && s.pc.Expiring? { DueHead(s.k); }
  }

  /** c sleeps on. */
  lemma SleepsOn(s: Sys, call: Call, c: nat, w: nat, e: Place)
    requires Ok(s) && Asleep(s, c, w, e) && c !in HitsOf(s, call) && Subject(s, call) != Some(c)
    ensures Asleep(Next(s, call), c, w, e) && PlaceOf(Next(s, call).k, c, false) == PlaceOf(s.k, c, false)
  {
    hide Invariant, AllRanked, Settled, Detach, Undelay, MakeReady, TickOver, AddToDelayed, Wake;
    StepOk(s, call);
    ClockMoves(s, call);
    assert Left(s.k, Next(s, call).k, HitsOf(s, call), c);
  }

  /** The steps that move b itself. */
  lemma SubjectStep(s: Sys, call: Call, b: nat, c: nat, w: nat, e: Place)
    requires Ok(s) && Behind(s, b, c, w, e) && e != Pending && c !in HitsOf(s, call) && Subject(s, call) == Some(b)
    ensures Behind(Next(s, call), b, c, w, e) || GoesFirst(Next(s, call), b, c, w, e)
  {
    hide Invariant, AllRanked, Settled, Detach, Undelay, MakeReady, TickOver, AddToDelayed, Precedes;
    Sizes(s.k);
    NotTheSubject(s, call, b, c, w, e);
    SleepsOn(s, call, c, w, e);
    if call.Go? && s.pc.Pendings? {
      PendingHead(s.k);
      EventDetached(s.k, b);
      ListStep(s, call, PlaceOf(s.k, c, false).i, b, c);
    }
  }

  lemma BehindStep(s: Sys, call: Call, b: nat, c: nat, w: nat, e: Place)
    requires Ok(s) && Behind(s, b, c, w, e) && e != Pending && c !in HitsOf(s, call)
    ensures Behind(Next(s, call), b, c, w, e) || GoesFirst(Next(s, call), b, c, w, e)
  {
    hide Invariant, AllRanked, Settled, Next, Precedes, Wake, HitsOf, Subject;
    if Subject(s, call) == Some(b) {
      SubjectStep(s, call, b, c, w, e);
    } else {
      NotTheSubject(s, call, b, c, w, e);
      SleepsOn(s, call, c, w, e);
      StepOk(s, call);
      ClockMoves(s, call);
      ListStep(s, call, PlaceOf(s.k, c, false).i, b, c);
      assert Left(s.k, Next(s, call).k, HitsOf(s, call), b);
    }
  }

  lemma FirstStep(s: Sys, call: Call, b: nat, c: nat, w: nat, e: Place)
    requires Ok(s) && GoesFirst(s, b, c, w, e) && e != Pending && c !in HitsOf(s, call)
    ensures var s' := Next(s, call);
            GoesFirst(s', b, c, w, e) || (IsReady(s'.k, b) && Asleep(s', c, w, e))
  {
    hide Invariant, AllRanked, Settled, Detach, Undelay, MakeReady, TickOver, AddToDelayed, Wake, Asleep;
    Sizes(s.k);
    NotInHand(s, b, c, w, e);
    SleepsOn(s, call, c, w, e);
    if call.Go? { RelistOk(s, b); }
  }

  lemma NotInHand(s: Sys, b: nat, c: nat, w: nat, e: Place)
    requires Ok(s) && GoesFirst(s, b, c, w, e)
    ensures InHand(s.k, b) && b != c && forall call :: Subject(s, call) != Some(c)
  {
    hide Invariant, AllRanked, Settled, Wake;
  }

  /** At some state in between b is ready while c still sleeps. */
  predicate ReadyFirst(eventLists: nat, calls: seq<Call>, i: nat, j: nat, b: nat, c: nat, w: nat, e: Place)
    requires j <= |calls|
  {
    exists m :: && i < m <= j && IsReady(At(eventLists, calls, m).k, b) && Asleep(At(eventLists, calls, m), c, w, e)
  }

  /** With no event of its own, c is not taken off its list before b, who stands ahead of
      it, has been readied. */
  lemma {:induction false} KeepsBehind(eventLists: nat, calls: seq<Call>, i: nat, j: nat,
                                       b: nat, c: nat, w: nat, e: Place)
    requires i <= j <= |calls| && Behind(At(eventLists, calls, i), b, c, w, e) && e != Pending
    requires NoEventFor(eventLists, calls, i, j, c)
    ensures var s := At(eventLists, calls, j);
            || Behind(s, b, c, w, e) || GoesFirst(s, b, c, w, e)
            || ReadyFirst(eventLists, calls, i, j, b, c, w, e)
  {
    hide Ok, After, Next, Behind, GoesFirst, IsReady, Asleep, HitsOf;
    if i < j {
      KeepsBehind(eventLists, calls, i, j - 1, b, c, w, e);
      RunOk(eventLists, calls[..j - 1]);
      AtNext(eventLists, calls, j - 1);
      var r := At(eventLists, calls, j - 1);
      if ReadyFirst(eventLists, calls, i, j - 1, b, c, w, e) {
        var m :| && i < m <= j - 1 && IsReady(At(eventLists, calls, m).k, b)
                 && Asleep(At(eventLists, calls, m), c, w, e);
        assert i < m <= j;
      } else if Behind(r, b, c, w, e) {
        BehindStep(r, calls[j - 1], b, c, w, e);
      } else {
        FirstStep(r, calls[j - 1], b, c, w, e);
      }
    }
  }

  /** In every run, of two co-routines that are to wake at the same time the one that
      went to sleep first is readied first, unless an event readies the other: c delays
      itself until w while b is delayed until w; as long as no event of c happens, c
      sleeps until b has been readied. */
  lemma SleepersWakeInOrder(eventLists: nat, calls: seq<Call>, i: nat, j: nat, b: nat)
    requires i < j <= |calls| && calls[i].AddDelay?
    requires MayDelay(At(eventLists, calls, i), calls[i].d, calls[i].e)
    requires NoEventFor(eventLists, calls, i + 1, j, At(eventLists, calls, i).running.value)
    requires var s := At(eventLists, calls, i);
             && b < |s.k.priority| && PlaceOf(s.k, b, false).Delay? && Wake(s.k, b) == Now(s.k) + calls[i].d
    ensures var s, r, e := At(eventLists, calls, i), At(eventLists, calls, j), calls[i].e;
            var c, w := s.running.value, Now(s.k) + calls[i].d;
            || Behind(r, b, c, w, e) || GoesFirst(r, b, c, w, e)
            || ReadyFirst(eventLists, calls, i, j, b, c, w, e)
  {
    hide Ok, After, Next, Behind, GoesFirst, IsReady, Asleep, HitsOf, Wake, Now;
    var s, e := At(eventLists, calls, i), calls[i].e;
    RunOk(eventLists, calls[..i]);
    AtNext(eventLists, calls, i);
    StartsBehind(s, calls[i].d, e, b);
    var c, w := s.running.value, Now(s.k) + calls[i].d;
    KeepsBehind(eventLists, calls, i + 1, j, b, c, w, e);
    if ReadyFirst(eventLists, calls, i + 1, j, b, c, w, e) {
      var m :| && i + 1 < m <= j && IsReady(At(eventLists, calls, m).k, b) && Asleep(At(eventLists, calls, m), c, w, e);
      assert i < m <= j;
    }
  }

  lemma SameList(k: Kernel, b: nat, d: Tick)
    requires Invariant(k) && b < |k.priority| && PlaceOf(k, b, false).Delay? && Wake(k, b) == Now(k) + d
    ensures PlaceOf(k, b, false) == Target(k, d) && Value(k, b) == (k.tick + d) % TICKS
  {
    Sizes(k);
    assert Timed(k, b);
  }

  /** The same wake time is in the same delay list. */
  lemma SameLap(k: Kernel, b: nat, c: nat)
    requires Invariant(k) && b < |k.priority| && c < |k.priority| && Wake(k, b) == Wake(k, c)
    requires PlaceOf(k, b, false).Delay? && PlaceOf(k, c, false).Delay?
    ensures PlaceOf(k, b, false) == PlaceOf(k, c, false)
  {
    Sizes(k);
    assert Timed(k, b) && Timed(k, c);
  }

  lemma StartsBehind(s: Sys, d: Tick, e: Place, b: nat)
    requires Ok(s) && MayDelay(s, d, e)
    requires b < |s.k.priority| && PlaceOf(s.k, b, false).Delay? && Wake(s.k, b) == Now(s.k) + d
    ensures Behind(Next(s, AddDelay(d, e)), b, s.running.value, Now(s.k) + d, e) && e != Pending
  {
    hide Invariant, AllRanked, Settled, AddToDelayed, Wake, Now, Precedes;
    var c := s.running.value;
    Sizes(s.k);
    DelayStarts(s, d, e);
    ReadyHasNoEvent(s.k, c);
    DelayKeeps(s.k, c, d, e);
    SameList(s.k, b, d);
    DelayedBehind(s.k, c, d, e, b);
    var k' := AddToDelayed(s.k, c, d, e);
    assert Left(s.k, k', {}, b);
    SameLap(k', b, c);
  }
}
