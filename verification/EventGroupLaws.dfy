/** What each call does to the bits of an event group and to its waiting tasks
    (arm/FreeRTOS/event_groups.c), and over every run: bits come and go only by calls, or
    by released tasks, that name them. */
module EventGroupLaws {
  import opened EventGroups

  // --- bits ---

  /** Just the bits of mask are gone; every bit outside it is as it was. */
  ghost predicate JustCleared(bits: bv32, bits': bv32, mask: bv32) {
    && And(bits', mask) == 0
    && forall x: bv32 :: And(x, mask) == 0 ==> And(bits', x) == And(bits, x)
  }

  lemma LessOutside(bits: bv32, mask: bv32, x: bv32)
    requires And(x, mask) == 0
    ensures And(Less(bits, mask), x) == And(bits, x)
  {
  }

  lemma LessInside(bits: bv32, mask: bv32)
    ensures And(Less(bits, mask), mask) == 0
  {
  }

  lemma LessJustClears(bits: bv32, mask: bv32)
    ensures JustCleared(bits, Less(bits, mask), mask)
  {
    hide And, Less;
    LessInside(bits, mask);
    forall x: bv32 | And(x, mask) == 0 ensures And(Less(bits, mask), x) == And(bits, x) {
      LessOutside(bits, mask, x);
    }
  }

  lemma AndWithin(a: bv32, b: bv32)
    ensures Within(And(a, b), a) && Within(And(a, b), b)
  {
  }

  lemma WithinAnd(a: bv32, b: bv32, x: bv32)
    requires Within(x, a) && Within(x, b)
    ensures Within(x, And(a, b))
  {
  }

  lemma OnlyNothingWithin(x: bv32)
    ensures Within(x, 0) <==> x == 0
  {
  }

  lemma AllSoWithin(bits: bv32, mask: bv32)
    requires And(bits, mask) == mask
    ensures Within(mask, bits)
  {
  }

  lemma WithinSoAll(bits: bv32, mask: bv32)
    requires Within(mask, bits)
    ensures And(bits, mask) == mask
  {
  }

  /** The wait condition: every bit of the mask is set, or any of them is. */
  lemma MetMeans(bits: bv32, mask: bv32)
    ensures Met(bits, mask, true) <==> forall x: bv32 :: Within(x, mask) ==> Within(x, bits)
    ensures Met(bits, mask, false) <==> exists x: bv32 :: x != 0 && Within(x, mask) && Within(x, bits)
  {
    hide And, Within;
    if And(bits, mask) == mask { AllSoWithin(bits, mask); }
    if Within(mask, bits) { WithinSoAll(bits, mask); }
    WithinItself(mask);
    if Within(mask, bits) {
      forall x: bv32 | Within(x, mask) ensures Within(x, bits) { WithinTrans(x, mask, bits); }
    }
    AndWithin(bits, mask);
    if And(bits, mask) == 0 {
      forall x: bv32 | Within(x, mask) && Within(x, bits) ensures x == 0 {
        WithinAnd(bits, mask, x);
        OnlyNothingWithin(x);
      }
    }
  }

  // --- one call ---

  /** One more task waits, for what was asked, and nothing else has changed. */
  predicate Joins(g: Group, g': Group, task: nat, mask: bv32, all: bool, clear: bool) {
    && g'.bits == g.bits && g'.ready == g.ready
    && |g'.waiting| == |g.waiting| + 1 && g'.waiting[..|g.waiting|] == g.waiting
    && var item := g'.waiting[|g.waiting|];
       && item.task == task && Mask(item.value) == mask && All(item.value) == all && Clears(item.value) == clear
       && !ByBits(item.value)
  }

  /** A wait that is satisfied takes just its own bits if it clears on exit, and changes
      nothing if it does not. One that is not changes no bits, and its caller joins the
      waiting tasks exactly if it may block. */
  ghost predicate WaitLaw(g: Group, g': Group, task: nat, mask: bv32, all: bool, clear: bool, block: bool) {
    if Met(g.bits, mask, all) then
      && g'.waiting == g.waiting && g'.ready == g.ready
      && if clear then JustCleared(g.bits, g'.bits, mask) else g'.bits == g.bits
    else if block then Joins(g, g', task, mask, all, clear)
    else g' == g
  }

  lemma WaitObeys(g: Group, task: nat, mask: bv32, all: bool, clear: bool, block: bool)
    requires And(mask, CONTROL) == 0 && mask != 0
    ensures WaitLaw(g, Next(g, WaitBits(task, mask, all, clear, block)), task, mask, all, clear, block)
  {
    hide Met, And, Less, ItemValue, Mask, All, Clears, ByBits, JustCleared;
    LessJustClears(g.bits, mask);
    ItemValueReadsBack(mask, all, clear);
  }

  /** Back from a wait that timed out: as a satisfied wait if the condition has come to
      be met meanwhile, and otherwise without effect. Nobody is released, nobody joins. */
  ghost predicate ReturnLaw(g: Group, g': Group, mask: bv32, all: bool, clear: bool) {
    && g'.waiting == g.waiting && g'.ready == g.ready
    && if clear && Met(g.bits, mask, all) then JustCleared(g.bits, g'.bits, mask) else g'.bits == g.bits
  }

  lemma ReturnObeys(g: Group, mask: bv32, all: bool, clear: bool)
    ensures ReturnLaw(g, Next(g, AfterTimeout(mask, all, clear)), mask, all, clear)
  {
    hide Met, Less, JustCleared;
    LessJustClears(g.bits, mask);
  }

  lemma ClearObeys(g: Group, toClear: bv32)
    requires And(toClear, CONTROL) == 0
    ensures var g' := Next(g, ClearBits(toClear));
            g'.waiting == g.waiting && g'.ready == g.ready && JustCleared(g.bits, g'.bits, toClear)
  {
    hide And, Less, JustCleared;
    LessJustClears(g.bits, toClear);
  }

  // --- setting bits, and the waiting tasks it releases ---

  /** A waiting task that is satisfied by these bits and takes its own with it. */
  predicate TakesBits(w: Item, bits: bv32) {
    Satisfied(w.value, bits) && Clears(w.value)
  }

  lemma ApartSoOutside(x: bv32, m: bv32)
    requires And(x, m) == 0
    ensures Within(m, Less(0xFFFF_FFFF, x))
  {
  }

  lemma OutsideSoApart(x: bv32, m: bv32)
    requires Within(m, Less(0xFFFF_FFFF, x))
    ensures And(x, m) == 0
  {
  }

  lemma PartGone(bits: bv32, taken: bv32, m: bv32)
    requires Within(m, taken)
    ensures And(Less(bits, taken), m) == 0
  {
  }

  lemma TakenBits(w: Item, bits: bv32)
    ensures Taken(w.value, bits) == if TakesBits(w, bits) then Mask(w.value) else 0
  {
    hide Satisfied;
  }

  /** The bits that are left: the old and the set ones, without those of the tasks
      released that clear on exit. */
  ghost predicate LeftOver(waiting: seq<Item>, bits: bv32, bits': bv32) {
    && (forall w :: w in waiting && TakesBits(w, bits) ==> And(bits', Mask(w.value)) == 0)
    && forall x: bv32 :: (forall w :: w in waiting && TakesBits(w, bits) ==> And(x, Mask(w.value)) == 0)
                         ==> And(bits', x) == And(bits, x)
  }

  lemma TakenGone(waiting: seq<Item>, bits: bv32, w: Item)
    requires w in waiting && TakesBits(w, bits)
    ensures And(Less(bits, Cleared(waiting, bits)), Mask(w.value)) == 0
  {
    hide And, Less, Mask, Within, TakesBits, Taken, Cleared;
    ClearedIsUnion(waiting, bits, 0);
    TakenBits(w, bits);
    PartGone(bits, Cleared(waiting, bits), Mask(w.value));
  }

  lemma OthersLeft(waiting: seq<Item>, bits: bv32, x: bv32)
    requires forall w :: w in waiting && TakesBits(w, bits) ==> And(x, Mask(w.value)) == 0
    ensures And(Less(bits, Cleared(waiting, bits)), x) == And(bits, x)
  {
    hide And, Less, Mask, Within, TakesBits, Taken, Cleared;
    var u := Less(0xFFFF_FFFF, x);
    forall w | w in waiting ensures Within(Taken(w.value, bits), u) {
      TakenBits(w, bits);
      if TakesBits(w, bits) { ApartSoOutside(x, Mask(w.value)); } else { NothingWithin(u); }
    }
    ClearedIsUnion(waiting, bits, u);
    OutsideSoApart(x, Cleared(waiting, bits));
    LessOutside(bits, Cleared(waiting, bits), x);
  }

  lemma SetLeaves(waiting: seq<Item>, bits: bv32)
    ensures LeftOver(waiting, bits, Less(bits, Cleared(waiting, bits)))
  {
    hide And, Less, Mask, TakesBits, Cleared;
    var bits' := Less(bits, Cleared(waiting, bits));
    forall w | w in waiting && TakesBits(w, bits) ensures And(bits', Mask(w.value)) == 0 {
      TakenGone(waiting, bits, w);
    }
    forall x: bv32 | forall w :: w in waiting && TakesBits(w, bits) ==> And(x, Mask(w.value)) == 0
      ensures And(bits', x) == And(bits, x)
    {
      OthersLeft(waiting, bits, x);
    }
  }

  /** y is what becomes of w: released, to return the bits that satisfied it. */
  predicate ReturnsWith(w: Item, y: Item, bits: bv32) {
    && y.task == w.task && ByBits(y.value) && Less(y.value, CONTROL) == Less(bits, CONTROL)
    && (And(bits, CONTROL) == 0 ==> Less(y.value, CONTROL) == bits)
  }

  lemma ReleasedByBits(bits: bv32)
    ensures ByBits(Or(Or(bits, UNBLOCKED), IN_USE))
  {
  }

  lemma ReleasedValue(bits: bv32)
    ensures Less(Or(Or(bits, UNBLOCKED), IN_USE), CONTROL) == Less(bits, CONTROL)
  {
  }

  lemma NothingToTake(bits: bv32, mask: bv32)
    requires And(bits, mask) == 0
    ensures Less(bits, mask) == bits
  {
  }

  lemma ReleasedReturns(w: Item, bits: bv32)
    ensures ReturnsWith(w, Released(w, bits), bits)
  {
    hide Or, And, Less, ByBits;
    ReleasedByBits(bits);
    ReleasedValue(bits);
    if And(bits, CONTROL) == 0 { NothingToTake(bits, CONTROL); }
  }

  /** Setting bits releases exactly the tasks satisfied by the old and the new bits
      together. Each returns those bits; what the others wait for is not met. */
  ghost predicate SetLaw(g: Group, g': Group, toSet: bv32) {
    var bits := Or(g.bits, toSet);
    && LeftOver(g.waiting, bits, g'.bits)
    && (forall w :: multiset(g'.waiting)[w] == if Satisfied(w.value, bits) then 0 else multiset(g.waiting)[w])
    && |g'.ready| == |g.ready| + |g.waiting| - |g'.waiting| && |g.ready| <= |g'.ready|
    && g'.ready[..|g.ready|] == g.ready
    && (forall y :: y in g'.ready[|g.ready|..] ==> exists w :: w in g.waiting && Satisfied(w.value, bits)
                                                               && ReturnsWith(w, y, bits))
    && (forall w :: w in g.waiting && Satisfied(w.value, bits) ==> exists y :: y in g'.ready[|g.ready|..]
                                                                               && ReturnsWith(w, y, bits))
  }

  lemma FreedReturn(ws: seq<Item>, bits: bv32)
    ensures |Freed(ws, bits)| + |Kept(ws, bits)| == |ws|
    ensures forall y :: y in Freed(ws, bits) ==>
              exists w :: w in ws && Satisfied(w.value, bits) && ReturnsWith(w, y, bits)
    ensures forall w :: w in ws && Satisfied(w.value, bits) ==>
              exists y :: y in Freed(ws, bits) && ReturnsWith(w, y, bits)
  {
    hide Freed, Kept, Satisfied, ReturnsWith, Released;
    FreedExactly(ws, bits, Item(0, 0));
    forall y | y in Freed(ws, bits)
      ensures exists w :: w in ws && Satisfied(w.value, bits) && ReturnsWith(w, y, bits)
    {
      FreedExactly(ws, bits, y);
      var w :| w in ws && Satisfied(w.value, bits) && y == Released(w, bits);
      ReleasedReturns(w, bits);
    }
    forall w | w in ws && Satisfied(w.value, bits) ensures exists y :: y in Freed(ws, bits) && ReturnsWith(w, y, bits) {
      FreedExactly(ws, bits, Released(w, bits));
      ReleasedReturns(w, bits);
    }
  }

  lemma SetObeys(g: Group, toSet: bv32)
    requires And(toSet, CONTROL) == 0
    ensures SetLaw(g, Next(g, SetBits(toSet)), toSet)
  {
    hide Or, Less, And, Freed, Kept, Cleared, Satisfied, ReturnsWith, LeftOver;
    var bits := Or(g.bits, toSet);
    var g' := Next(g, SetBits(toSet));
    SetLeaves(g.waiting, bits);
    FreedReturn(g.waiting, bits);
    forall w ensures multiset(g'.waiting)[w] == if Satisfied(w.value, bits) then 0 else multiset(g.waiting)[w] {
      KeptExactly(g.waiting, bits, w);
    }
    assert g'.ready[|g.ready|..] == Freed(g.waiting, bits);
  }

  /** A rendezvous sets its bits as any task would; then it is a wait for all of its mask
      that clears on exit, decided on the bits before any were taken. */
  ghost predicate SyncLaw(g: Group, g': Group, task: nat, toSet: bv32, mask: bv32, block: bool) {
    var g1 := Next(g, SetBits(toSet));
    if Met(Or(g.bits, toSet), mask, true) then
      g'.waiting == g1.waiting && g'.ready == g1.ready && JustCleared(g1.bits, g'.bits, mask)
    else if block then Joins(g1, g', task, mask, true, true)
    else g' == g1
  }

  lemma SyncObeys(g: Group, task: nat, toSet: bv32, mask: bv32, block: bool)
    requires And(toSet, CONTROL) == 0 && And(mask, CONTROL) == 0 && mask != 0
    ensures SyncLaw(g, Next(g, Sync(task, toSet, mask, block)), task, toSet, mask, block)
  {
    hide Met, And, Or, Less, ItemValue, Mask, All, Clears, ByBits, JustCleared, WithBits;
    LessJustClears(WithBits(g, toSet).bits, mask);
    ItemValueReadsBack(mask, true, true);
  }

  // --- timing out ---

  /** A timeout takes a task off the list with its item as it is, and nothing else. */
  ghost predicate TimeoutLaw(g: Group, g': Group, task: nat) {
    && g'.bits == g.bits && |g.ready| <= |g'.ready| && g'.ready[..|g.ready|] == g.ready
    && (forall w :: multiset(g'.waiting)[w] == if w.task == task then 0 else multiset(g.waiting)[w])
    && (forall w :: multiset(g'.ready[|g.ready|..])[w] == if w.task == task then multiset(g.waiting)[w] else 0)
  }

  lemma {:induction false} OthersExactly(ws: seq<Item>, task: nat, w: Item)
    ensures multiset(Others(ws, task))[w] == if w.task == task then 0 else multiset(ws)[w]
  {
    if ws != [] {
      var front, last := ws[..|ws| - 1], ws[|ws| - 1];
      OthersExactly(front, task, w);
      assert ws == front + [last];
    }
  }

  lemma {:induction false} OwnExactly(ws: seq<Item>, task: nat, w: Item)
    ensures multiset(Own(ws, task))[w] == if w.task == task then multiset(ws)[w] else 0
  {
    if ws != [] {
      var front, last := ws[..|ws| - 1], ws[|ws| - 1];
      OwnExactly(front, task, w);
      assert ws == front + [last];
    }
  }

  lemma TimeoutObeys(g: Group, task: nat)
    ensures TimeoutLaw(g, Next(g, Timeout(task)), task)
  {
    hide Others, Own;
    var g' := Next(g, Timeout(task));
    assert g'.ready[|g.ready|..] == Own(g.waiting, task);
    forall w ensures multiset(g'.waiting)[w] == if w.task == task then 0 else multiset(g.waiting)[w] {
      OthersExactly(g.waiting, task, w);
    }
    forall w
      ensures multiset(g'.ready[|g.ready|..])[w] == if w.task == task then multiset(g.waiting)[w] else 0
    {
      OwnExactly(g.waiting, task, w);
    }
  }

  /** The call ends this wait: bits are set that satisfy it, or its time is over. */
  predicate EndsWait(g: Group, e: Event, w: Item) {
    Asserted(e) && match e
      case SetBits(toSet) => Satisfied(w.value, Or(g.bits, toSet))
      case Sync(_, toSet, _, _) => Satisfied(w.value, Or(g.bits, toSet))
      case Timeout(task) => w.task == task
      case _ => false
  }

  lemma SatisfiedMeans(w: Item, bits: bv32, mask: bv32, all: bool, clear: bool)
    requires And(mask, CONTROL) == 0 && w.value == ItemValue(mask, all, clear)
    ensures Satisfied(w.value, bits) <==> Met(bits, mask, all)
  {
    hide And, Met, ItemValue, Mask, All, Clears;
    ItemValueReadsBack(mask, all, clear);
  }

  lemma InMultiset(s: seq<Item>, w: Item)
    ensures w in s <==> multiset(s)[w] > 0
  {
  }

  /** Exactly which calls take a waiting task off the list. */
  lemma WaitsUntil(g: Group, e: Event, w: Item)
    requires w in g.waiting
    ensures w !in Next(g, e).waiting <==> EndsWait(g, e, w)
  {
    hide And, Or, Met, Satisfied, WithBits, TimedOut, ItemValue;
    InMultiset(g.waiting, w);
    InMultiset(Next(g, e).waiting, w);
    if Asserted(e) {
      match e
      case SetBits(toSet) => SetObeys(g, toSet);
      case Sync(task, toSet, mask, _) =>
        InMultiset(WithBits(g, toSet).waiting, w);
        SetObeys(g, toSet);
        if w.value == ItemValue(mask, true, true) { SatisfiedMeans(w, Or(g.bits, toSet), mask, true, true); }
      case Timeout(task) => TimeoutObeys(g, task);
      case _ =>
    }
  }

  // --- where every bit comes from and goes to ---

  predicate OneBit(x: bv32) {
    x != 0 && And(x, x - 1) == 0
  }

  predicate Has(bits: bv32, x: bv32) {
    And(bits, x) != 0
  }

  lemma WholeBit(x: bv32, mask: bv32)
    requires OneBit(x) && And(x, mask) != 0
    ensures Within(x, mask)
  {
  }

  lemma PartOfNothing(bits: bv32, mask: bv32, x: bv32)
    requires Within(x, mask) && And(bits, mask) == 0
    ensures And(bits, x) == 0
  {
  }

  lemma NeitherHas(a: bv32, b: bv32, x: bv32)
    requires And(a, x) == 0 && And(x, b) == 0
    ensures And(Or(a, b), x) == 0
  {
  }

  lemma BothLack(a: bv32, b: bv32, x: bv32)
    requires And(Or(a, b), x) == 0
    ensures And(a, x) == 0 && And(x, b) == 0
  {
  }

  lemma EitherHas(a: bv32, b: bv32, x: bv32)
    ensures Has(Or(a, b), x) <==> Has(a, x) || And(x, b) != 0
  {
    hide And, Or;
    if And(a, x) == 0 && And(x, b) == 0 { NeitherHas(a, b, x); }
    if And(Or(a, b), x) == 0 { BothLack(a, b, x); }
  }

  /** The call is given this bit to set. */
  predicate Sets(e: Event, x: bv32) {
    Asserted(e) && match e
      case SetBits(toSet) => And(x, toSet) != 0
      case Sync(_, toSet, _, _) => And(x, toSet) != 0
      case _ => false
  }

  ghost predicate SomeTakes(waiting: seq<Item>, bits: bv32, x: bv32) {
    exists w :: w in waiting && TakesBits(w, bits) && And(x, Mask(w.value)) != 0
  }

  /** The call clears this bit itself, or releases a task that takes it. */
  ghost predicate Takes(g: Group, e: Event, x: bv32) {
    Asserted(e) && match e
      case ClearBits(toClear) => And(x, toClear) != 0
      case WaitBits(_, mask, all, clear, _) => clear && Met(g.bits, mask, all) && And(x, mask) != 0
      case AfterTimeout(mask, all, clear) => clear && Met(g.bits, mask, all) && And(x, mask) != 0
      case SetBits(toSet) => SomeTakes(g.waiting, Or(g.bits, toSet), x)
      case Sync(_, toSet, mask, _) =>
        SomeTakes(g.waiting, Or(g.bits, toSet), x) || (Met(Or(g.bits, toSet), mask, true) && And(x, mask) != 0)
      case Timeout(_) => false
  }

  lemma BitAfterClearing(bits: bv32, bits': bv32, mask: bv32, x: bv32)
    requires OneBit(x) && JustCleared(bits, bits', mask)
    ensures Has(bits', x) <==> Has(bits, x) && And(x, mask) == 0
  {
    hide OneBit, And;
    if And(x, mask) != 0 {
      WholeBit(x, mask);
      PartOfNothing(bits', mask, x);
    }
  }

  lemma BitAfterSetting(g: Group, toSet: bv32, x: bv32)
    requires OneBit(x) && And(toSet, CONTROL) == 0
    ensures Has(Next(g, SetBits(toSet)).bits, x)
            <==> (Has(g.bits, x) || And(x, toSet) != 0) && !SomeTakes(g.waiting, Or(g.bits, toSet), x)
  {
    hide OneBit, And, Or, TakesBits, Mask, Next;
    var bits, bits' := Or(g.bits, toSet), Next(g, SetBits(toSet)).bits;
    SetObeys(g, toSet);
    EitherHas(g.bits, toSet, x);
    assert LeftOver(g.waiting, bits, bits');
    if SomeTakes(g.waiting, bits, x) {
      var w :| w in g.waiting && TakesBits(w, bits) && And(x, Mask(w.value)) != 0;
      WholeBit(x, Mask(w.value));
      PartOfNothing(bits', Mask(w.value), x);
    }
  }

  /** Every bit after every call: it was set or the call sets it, and neither the call
      nor a task it releases takes it. */
  lemma BitExact(g: Group, e: Event, x: bv32)
    requires OneBit(x)
    ensures Has(Next(g, e).bits, x) <==> (Has(g.bits, x) || Sets(e, x)) && !Takes(g, e, x)
  {
    hide OneBit, Has, And, Or, Met, JustCleared, SomeTakes, WithBits, Joins;
    if Asserted(e) {
      var g' := Next(g, e);
      match e
      case SetBits(toSet) => BitAfterSetting(g, toSet, x);
      case ClearBits(toClear) => ClearObeys(g, toClear); BitAfterClearing(g.bits, g'.bits, toClear, x);
      case WaitBits(task, mask, all, clear, block) => BitAfterWait(g, task, mask, all, clear, block, x);
      case Sync(task, toSet, mask, block) => BitAfterSync(g, task, toSet, mask, block, x);
      case Timeout(task) => TimeoutObeys(g, task);
      case AfterTimeout(mask, all, clear) =>
        ReturnObeys(g, mask, all, clear);
        if clear && Met(g.bits, mask, all) { BitAfterClearing(g.bits, g'.bits, mask, x); }
    }
  }

  lemma BitAfterWait(g: Group, task: nat, mask: bv32, all: bool, clear: bool, block: bool, x: bv32)
    requires OneBit(x) && Asserted(WaitBits(task, mask, all, clear, block))
    ensures var e := WaitBits(task, mask, all, clear, block);
            Has(Next(g, e).bits, x) <==> Has(g.bits, x) && !Takes(g, e, x)
  {
    hide OneBit, Has, And, Met, JustCleared, Next;
    var g' := Next(g, WaitBits(task, mask, all, clear, block));
    WaitObeys(g, task, mask, all, clear, block);
    if clear && Met(g.bits, mask, all) { BitAfterClearing(g.bits, g'.bits, mask, x); }
  }

  lemma BitAfterSync(g: Group, task: nat, toSet: bv32, mask: bv32, block: bool, x: bv32)
    requires OneBit(x) && Asserted(Sync(task, toSet, mask, block))
    ensures var e := Sync(task, toSet, mask, block);
            Has(Next(g, e).bits, x) <==> (Has(g.bits, x) || Sets(e, x)) && !Takes(g, e, x)
  {
    hide OneBit, Has, And, Or, Met, JustCleared, SomeTakes, Next;
    var g1, g' := Next(g, SetBits(toSet)), Next(g, Sync(task, toSet, mask, block));
    SyncObeys(g, task, toSet, mask, block);
    BitAfterSetting(g, toSet, x);
    if Met(Or(g.bits, toSet), mask, true) { BitAfterClearing(g1.bits, g'.bits, mask, x); }
  }

  /** In every run a bit that was set and is not any more was taken in between, by a call
      or a released task that names it. */
  lemma {:induction false} TakenInBetween(g: Group, events: seq<Event>, i: nat, k: nat, x: bv32) returns (j: nat)
    requires OneBit(x) && i <= k <= |events|
    requires Has(After(g, events, i).bits, x) && !Has(After(g, events, k).bits, x)
    ensures i <= j < k && Takes(After(g, events, j), events[j], x)
  {
    hide OneBit, Has, Next, Takes, Sets;
    BitExact(After(g, events, k - 1), events[k - 1], x);
    if Has(After(g, events, k - 1).bits, x) { j := k - 1; } else { j := TakenInBetween(g, events, i, k - 1, x); }
  }

  /** And one that is set and was not was set in between, by a call that names it. */
  lemma {:induction false} SetInBetween(g: Group, events: seq<Event>, i: nat, k: nat, x: bv32) returns (j: nat)
    requires OneBit(x) && i <= k <= |events|
    requires !Has(After(g, events, i).bits, x) && Has(After(g, events, k).bits, x)
    ensures i <= j < k && Sets(events[j], x)
  {
    hide OneBit, Has, Next, Takes, Sets;
    BitExact(After(g, events, k - 1), events[k - 1], x);
    if !Has(After(g, events, k - 1).bits, x) { j := k - 1; } else { j := SetInBetween(g, events, i, k - 1, x); }
  }
}
