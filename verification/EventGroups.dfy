/** Event groups (arm/FreeRTOS/event_groups.c): tasks waiting for any or all of some
    bits, and the rendezvous built on them. */
module EventGroups {

  // --- bits ---

  const CLEAR_ON_EXIT: bv32 := 0x0100_0000
  const UNBLOCKED: bv32 := 0x0200_0000
  const WAIT_FOR_ALL: bv32 := 0x0400_0000
  const CONTROL: bv32 := 0xFF00_0000
  const IN_USE: bv32 := 0x8000_0000

  function And(a: bv32, b: bv32): bv32 { a & b }
  function Or(a: bv32, b: bv32): bv32 { a | b }
  function Less(a: bv32, b: bv32): bv32 { a & !b }

  /** Every bit of a is in b. */
  predicate Within(a: bv32, b: bv32) { a & !b == 0 }

  /** prvTestWaitCondition */
  predicate Met(bits: bv32, mask: bv32, all: bool) {
    if all then And(bits, mask) == mask else And(bits, mask) != 0
  }

  // --- the value of a waiting task's event list item ---

  function ItemValue(mask: bv32, all: bool, clear: bool): bv32 {
    Or(Or(mask, Or(if clear then CLEAR_ON_EXIT else 0, if all then WAIT_FOR_ALL else 0)), IN_USE)
  }

  function Mask(value: bv32): bv32 { Less(value, CONTROL) }
  predicate All(value: bv32) { And(value, WAIT_FOR_ALL) != 0 }
  predicate Clears(value: bv32) { And(value, CLEAR_ON_EXIT) != 0 }
  predicate ByBits(value: bv32) { And(value, UNBLOCKED) != 0 }

  /** The condition of a waiter is met by these bits. */
  predicate Satisfied(value: bv32, bits: bv32) {
    Met(bits, Mask(value), All(value))
  }

  /** What was stored is what is read back, and no waiter looks as if unblocked. */
  lemma ItemValueReadsBack(mask: bv32, all: bool, clear: bool)
    requires And(mask, CONTROL) == 0
    ensures var v := ItemValue(mask, all, clear);
            Mask(v) == mask && All(v) == all && Clears(v) == clear && !ByBits(v)
  {
  }

  // --- the group ---

  /** A task's event list item. */
  datatype Item = Item(task: nat, value: bv32)

  /** `ready`: tasks released, with the value left in their items. */
  datatype Group = Group(bits: bv32, waiting: seq<Item>, ready: seq<Item>)

  /** Those who stay, those who go, and the bits that go with them. */
  function Kept(ws: seq<Item>, bits: bv32): seq<Item> {
    if ws == [] then []
    else Kept(ws[..|ws| - 1], bits) + (if Satisfied(ws[|ws| - 1].value, bits) then [] else [ws[|ws| - 1]])
  }

  function Freed(ws: seq<Item>, bits: bv32): seq<Item> {
    if ws == [] then []
    else Freed(ws[..|ws| - 1], bits)
         + (if Satisfied(ws[|ws| - 1].value, bits) then [Released(ws[|ws| - 1], bits)] else [])
  }

  /** xTaskRemoveFromUnorderedEventList leaves the bits in the task's item. */
  function Released(w: Item, bits: bv32): Item {
    Item(w.task, Or(Or(bits, UNBLOCKED), IN_USE))
  }

  function Cleared(ws: seq<Item>, bits: bv32): bv32 {
    if ws == [] then 0
    else Or(Cleared(ws[..|ws| - 1], bits), Taken(ws[|ws| - 1].value, bits))
  }

  function Taken(value: bv32, bits: bv32): bv32 {
    if Satisfied(value, bits) && Clears(value) then Mask(value) else 0
  }

  /** xEventGroupSetBits */
  function WithBits(g: Group, toSet: bv32): Group {
    var bits := Or(g.bits, toSet);
    Group(Less(bits, Cleared(g.waiting, bits)), Kept(g.waiting, bits), g.ready + Freed(g.waiting, bits))
  }

  /** xEventGroupWaitBits up to the point where the caller blocks or goes on. */
  function Waited(g: Group, task: nat, mask: bv32, all: bool, clear: bool, block: bool): Group {
    if Met(g.bits, mask, all) then g.(bits := if clear then Less(g.bits, mask) else g.bits)
    else if block then g.(waiting := g.waiting + [Item(task, ItemValue(mask, all, clear))])
    else g
  }

  /** xEventGroupSync up to the point where the caller blocks or goes on. */
  function Synced(g: Group, task: nat, toSet: bv32, mask: bv32, block: bool): Group {
    var g' := WithBits(g, toSet);
    if Met(Or(g.bits, toSet), mask, true) then g'.(bits := Less(g'.bits, mask))
    else if block then g'.(waiting := g'.waiting + [Item(task, ItemValue(mask, true, true))])
    else g'
  }

  // --- small facts about bits ---

  lemma MetMonotone(a: bv32, b: bv32, mask: bv32, all: bool)
    requires Within(a, b) && Met(a, mask, all)
    ensures Met(b, mask, all)
  {
  }

  lemma LessWithin(a: bv32, b: bv32)
    ensures Within(Less(a, b), a)
  {
  }

  lemma WithinTrans(a: bv32, b: bv32, c: bv32)
    requires Within(a, b) && Within(b, c)
    ensures Within(a, c)
  {
  }

  lemma Antisymmetric(a: bv32, b: bv32)
    requires Within(a, b) && Within(b, a)
    ensures a == b
  {
  }

  lemma NothingWithin(u: bv32)
    ensures Within(0, u)
  {
  }

  lemma OrAbove(a: bv32, b: bv32)
    ensures Within(a, Or(a, b)) && Within(b, Or(a, b))
  {
  }

  lemma OrLeast(a: bv32, b: bv32, u: bv32)
    requires Within(a, u) && Within(b, u)
    ensures Within(Or(a, b), u)
  {
  }

  // --- what setting bits does, whatever the order of the list ---

  /** The bits taken are the union (the least upper bound) of what the released waiters take. */
  lemma {:induction false} ClearedIsUnion(ws: seq<Item>, bits: bv32, u: bv32)
    ensures forall w :: w in ws ==> Within(Taken(w.value, bits), Cleared(ws, bits))
    ensures (forall w :: w in ws ==> Within(Taken(w.value, bits), u)) ==> Within(Cleared(ws, bits), u)
  {
    hide Taken, Or, Within;
    if ws == [] {
      NothingWithin(u);
    } else {
      var n := |ws| - 1;
      var a, b := Cleared(ws[..n], bits), Taken(ws[n].value, bits);
      ClearedIsUnion(ws[..n], bits, u);
      assert ws == ws[..n] + [ws[n]];
      OrAbove(a, b);
      if Within(a, u) && Within(b, u) { OrLeast(a, b, u); }
      forall w | w in ws[..n] ensures Within(Taken(w.value, bits), Or(a, b)) {
        WithinTrans(Taken(w.value, bits), a, Or(a, b));
      }
    }
  }

  lemma {:induction false} KeptExactly(ws: seq<Item>, bits: bv32, w: Item)
    ensures multiset(Kept(ws, bits))[w] == if Satisfied(w.value, bits) then 0 else multiset(ws)[w]
  {
    hide Satisfied;
    if ws != [] {
      KeptExactly(ws[..|ws| - 1], bits, w);
      assert ws == ws[..|ws| - 1] + [ws[|ws| - 1]];
    }
  }

  lemma {:induction false} FreedExactly(ws: seq<Item>, bits: bv32, y: Item)
    ensures |Freed(ws, bits)| + |Kept(ws, bits)| == |ws|
    ensures y in Freed(ws, bits) <==> exists w :: w in ws && Satisfied(w.value, bits) && y == Released(w, bits)
  {
    hide Satisfied, Released;
    if ws != [] {
      FreedExactly(ws[..|ws| - 1], bits, y);
      assert ws == ws[..|ws| - 1] + [ws[|ws| - 1]];
    }
  }

  /** What a waiter adds to the released ones. */
  function FreedOne(w: Item, bits: bv32): multiset<Item> {
    if Satisfied(w.value, bits) then multiset{Released(w, bits)} else multiset{}
  }

  lemma FreedLast(ws: seq<Item>, w: Item, bits: bv32)
    ensures multiset(Freed(ws + [w], bits)) == multiset(Freed(ws, bits)) + FreedOne(w, bits)
  {
    assert (ws + [w])[..|ws|] == ws;
  }

  /** It does not matter where in the list it is. */
  lemma {:induction false} FreedAnywhere(a: seq<Item>, w: Item, b: seq<Item>, bits: bv32)
    ensures multiset(Freed(a + [w] + b, bits)) == multiset(Freed(a + b, bits)) + FreedOne(w, bits)
  {
    hide Freed, FreedOne;
    if b == [] {
      FreedLast(a, w, bits);
      assert a + [w] + b == a + [w] && a + b == a;
    } else {
      var front, last := b[..|b| - 1], b[|b| - 1];
      FreedAnywhere(a, w, front, bits);
      FreedLast(a + [w] + front, last, bits);
      FreedLast(a + front, last, bits);
      assert a + [w] + b == (a + [w] + front) + [last] && a + b == (a + front) + [last];
    }
  }

  lemma Cancel(ws: seq<Item>, w: Item, a: seq<Item>, b: seq<Item>)
    requires multiset(ws + [w]) == multiset(a + [w] + b)
    ensures multiset(ws) == multiset(a + b)
  {
    assert multiset(ws + [w]) == multiset(ws) + multiset{w};
    assert multiset(a + [w] + b) == multiset(a + b) + multiset{w};
    forall x ensures multiset(ws)[x] == multiset(a + b)[x] {
      assert multiset(ws + [w])[x] == multiset(a + [w] + b)[x];
    }
  }

  lemma {:induction false} FreedSame(ws: seq<Item>, vs: seq<Item>, bits: bv32)
    requires multiset(ws) == multiset(vs)
    ensures multiset(Freed(ws, bits)) == multiset(Freed(vs, bits))
  {
    hide Freed, FreedOne;
    if ws == [] {
      assert |multiset(vs)| == |vs|;
    } else {
      var n := |ws| - 1;
      SameMembers(ws, vs);
      assert ws[n] in vs;
      var p :| 0 <= p < |vs| && vs[p] == ws[n];
      var a, b := vs[..p], vs[p + 1..];
      assert ws == ws[..n] + [ws[n]] && vs == a + [ws[n]] + b;
      Cancel(ws[..n], ws[n], a, b);
      FreedSame(ws[..n], a + b, bits);
      FreedLast(ws[..n], ws[n], bits);
      FreedAnywhere(a, ws[n], b, bits);
    }
  }

  /** Two lists of the same waiters in different orders: the same bits are left, the
      same waiters stay, the same tasks are released with the same values, all of them
      as often. */
  lemma OrderIrrelevant(bits: bv32, ws: seq<Item>, vs: seq<Item>)
    requires multiset(ws) == multiset(vs)
    ensures Cleared(ws, bits) == Cleared(vs, bits)
    ensures multiset(Kept(ws, bits)) == multiset(Kept(vs, bits))
    ensures multiset(Freed(ws, bits)) == multiset(Freed(vs, bits))
  {
    hide Satisfied, Released, Taken, Within;
    SameMembers(ws, vs);
    ClearedIsUnion(ws, bits, Cleared(vs, bits));
    ClearedIsUnion(vs, bits, Cleared(ws, bits));
    Antisymmetric(Cleared(ws, bits), Cleared(vs, bits));
    forall w ensures multiset(Kept(ws, bits))[w] == multiset(Kept(vs, bits))[w] {
      KeptExactly(ws, bits, w);
      KeptExactly(vs, bits, w);
    }
    FreedSame(ws, vs, bits);
  }

  lemma SameMembers(ws: seq<Item>, vs: seq<Item>)
    requires multiset(ws) == multiset(vs)
    ensures forall w :: w in ws <==> w in vs
  {
    assert forall w :: w in ws <==> w in multiset(ws);
    assert forall w :: w in vs <==> w in multiset(vs);
  }

  // --- no satisfied waiter stays blocked ---

  predicate Quiet(g: Group) {
    forall i :: 0 <= i < |g.waiting| ==> !Satisfied(g.waiting[i].value, g.bits)
  }

  datatype Event =
    | SetBits(toSet: bv32)
    | ClearBits(toClear: bv32)
    | WaitBits(task: nat, mask: bv32, all: bool, clear: bool, block: bool)
    | Sync(task: nat, toSet: bv32, mask: bv32, block: bool)
    | Timeout(task: nat)
    | AfterTimeout(mask: bv32, all: bool, clear: bool)

  /** What the calls assert of their arguments. */
  predicate Asserted(e: Event) {
    match e
    case SetBits(toSet) => And(toSet, CONTROL) == 0
    case ClearBits(toClear) => And(toClear, CONTROL) == 0
    case WaitBits(_, mask, _, _, _) => And(mask, CONTROL) == 0 && mask != 0
    case Sync(_, toSet, mask, _) => And(toSet, CONTROL) == 0 && And(mask, CONTROL) == 0 && mask != 0
    case _ => true
  }

  function TimedOut(g: Group, task: nat): Group {
    Group(g.bits, Others(g.waiting, task), g.ready + Own(g.waiting, task))
  }

  function Others(ws: seq<Item>, task: nat): seq<Item> {
    if ws == [] then [] else Others(ws[..|ws| - 1], task) + (if ws[|ws| - 1].task == task then [] else [ws[|ws| - 1]])
  }

  function Own(ws: seq<Item>, task: nat): seq<Item> {
    if ws == [] then [] else Own(ws[..|ws| - 1], task) + (if ws[|ws| - 1].task == task then [ws[|ws| - 1]] else [])
  }

  /** The critical section of a task back from a wait that timed out. */
  function Returning(g: Group, mask: bv32, all: bool, clear: bool): Group {
    g.(bits := if Met(g.bits, mask, all) && clear then Less(g.bits, mask) else g.bits)
  }

  /** A call whose arguments fail the assertions goes no further. */
  function Next(g: Group, e: Event): Group {
    if !Asserted(e) then g
    else match e
      case SetBits(toSet) => WithBits(g, toSet)
      case ClearBits(toClear) => g.(bits := Less(g.bits, toClear))
      case WaitBits(task, mask, all, clear, block) => Waited(g, task, mask, all, clear, block)
      case Sync(task, toSet, mask, block) => Synced(g, task, toSet, mask, block)
      case Timeout(task) => TimedOut(g, task)
      case AfterTimeout(mask, all, clear) => Returning(g, mask, all, clear)
  }

  function After(g: Group, events: seq<Event>, k: nat): Group
    requires k <= |events|
  {
    if k == 0 then g else Next(After(g, events, k - 1), events[k - 1])
  }

  lemma FewerBits(g: Group, bits: bv32)
    requires Quiet(g) && Within(bits, g.bits)
    ensures Quiet(g.(bits := bits))
  {
    hide Within, Met;
    forall i | 0 <= i < |g.waiting| ensures !Satisfied(g.waiting[i].value, bits) {
      var v := g.waiting[i].value;
      if Satisfied(v, bits) { MetMonotone(bits, g.bits, Mask(v), All(v)); }
    }
  }

  lemma {:induction false} KeptUnsatisfied(ws: seq<Item>, bits: bv32)
    ensures forall i :: 0 <= i < |Kept(ws, bits)| ==> !Satisfied(Kept(ws, bits)[i].value, bits)
  {
    hide Satisfied;
    if ws != [] { KeptUnsatisfied(ws[..|ws| - 1], bits); }
  }

  lemma {:induction false} OthersAmong(ws: seq<Item>, task: nat)
    ensures forall w :: w in Others(ws, task) ==> w in ws
  {
    if ws != [] {
      OthersAmong(ws[..|ws| - 1], task);
      assert ws == ws[..|ws| - 1] + [ws[|ws| - 1]];
    }
  }

  lemma SettingQuiets(g: Group, toSet: bv32)
    ensures Quiet(WithBits(g, toSet)) && Within(WithBits(g, toSet).bits, Or(g.bits, toSet))
  {
    hide Satisfied, Within, Cleared;
    var bits := Or(g.bits, toSet);
    var g' := WithBits(g, toSet);
    KeptUnsatisfied(g.waiting, bits);
    LessWithin(bits, Cleared(g.waiting, bits));
    FewerBits(g'.(bits := bits), g'.bits);
  }

  /** A newcomer whose condition is not met by at least the current bits. */
  lemma Joined(g: Group, task: nat, mask: bv32, all: bool, clear: bool, bits: bv32)
    requires Quiet(g) && And(mask, CONTROL) == 0 && Within(g.bits, bits) && !Met(bits, mask, all)
    ensures Quiet(g.(waiting := g.waiting + [Item(task, ItemValue(mask, all, clear))]))
  {
    hide Within, Met, ItemValue, And, Mask, All, Clears;
    ItemValueReadsBack(mask, all, clear);
    if Met(g.bits, mask, all) { MetMonotone(g.bits, bits, mask, all); }
  }

  lemma WithinItself(a: bv32)
    ensures Within(a, a)
  {
  }

  lemma StepQuiet(g: Group, e: Event)
    requires Quiet(g)
    ensures Quiet(Next(g, e))
  {
    hide Satisfied, Within, Met, ItemValue, And, Less, Or, WithBits, Quiet;
    if Asserted(e) {
      WithinItself(g.bits);
      match e
      case SetBits(toSet) => SettingQuiets(g, toSet);
      case ClearBits(toClear) => LessWithin(g.bits, toClear); FewerBits(g, Less(g.bits, toClear));
      case WaitBits(task, mask, all, clear, block) =>
        LessWithin(g.bits, mask);
        FewerBits(g, Less(g.bits, mask));
        if !Met(g.bits, mask, all) { Joined(g, task, mask, all, clear, g.bits); }
      case Sync(task, toSet, mask, block) =>
        var g' := WithBits(g, toSet);
        SettingQuiets(g, toSet);
        LessWithin(g'.bits, mask);
        FewerBits(g', Less(g'.bits, mask));
        if !Met(Or(g.bits, toSet), mask, true) { Joined(g', task, mask, true, true, Or(g.bits, toSet)); }
      case Timeout(task) => TimeoutQuiets(g, task);
      case AfterTimeout(mask, _, _) => LessWithin(g.bits, mask); FewerBits(g, Less(g.bits, mask));
    }
  }

  lemma TimeoutQuiets(g: Group, task: nat)
    requires Quiet(g)
    ensures Quiet(TimedOut(g, task))
  {
    hide Satisfied;
    OthersAmong(g.waiting, task);
    var os := Others(g.waiting, task);
    forall i | 0 <= i < |os| ensures !Satisfied(os[i].value, g.bits) {
      assert os[i] in os;
    }
  }

  /** In every run, no task on the list has a condition met by the current bits. */
  lemma {:induction false} RunQuiet(g: Group, events: seq<Event>, k: nat)
    requires g.waiting == [] && k <= |events|
    ensures Quiet(After(g, events, k))
  {
    if k > 0 {
      hide Next, Quiet;
      RunQuiet(g, events, k - 1);
      StepQuiet(After(g, events, k - 1), events[k - 1]);
    }
  }
}
