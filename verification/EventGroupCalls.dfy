/** The calls of arm/FreeRTOS/event_groups.c on the event group itself, with the loop
    that walks the list of waiting tasks while taking some of them off it. */
module EventGroupCalls {
  import opened EventGroups
  import opened EventGroupLaws

  /** What the walk has done when the first i of ws are behind it. */
  ghost predicate Walked(ws: seq<Item>, i: nat, bits: bv32, waiting: seq<Item>, at: nat,
                         ready0: seq<Item>, ready: seq<Item>, toClear: bv32)
  {
    && i <= |ws|
    && waiting == Kept(ws[..i], bits) + ws[i..] && at == |Kept(ws[..i], bits)|
    && ready == ready0 + Freed(ws[..i], bits)
    && toClear == Cleared(ws[..i], bits)
  }

  lemma NextItem(ws: seq<Item>, i: nat, bits: bv32)
    requires i < |ws|
    ensures Kept(ws[..i + 1], bits) == Kept(ws[..i], bits) + (if Satisfied(ws[i].value, bits) then [] else [ws[i]])
    ensures Freed(ws[..i + 1], bits) == Freed(ws[..i], bits)
          + (if Satisfied(ws[i].value, bits) then [Released(ws[i], bits)] else [])
    ensures Cleared(ws[..i + 1], bits) == Or(Cleared(ws[..i], bits), Taken(ws[i].value, bits))
  {
    hide Satisfied, Released, Taken, Or;
    assert ws[..i + 1][..i] == ws[..i];
  }

  lemma OrNone(a: bv32)
    ensures Or(a, 0) == a
  {
  }

  lemma ControlSplit(v: bv32)
    ensures And(And(v, CONTROL), WAIT_FOR_ALL) == And(v, WAIT_FOR_ALL)
    ensures And(And(v, CONTROL), CLEAR_ON_EXIT) == And(v, CLEAR_ON_EXIT)
  {
  }

  lemma AndSwap(a: bv32, b: bv32)
    ensures And(a, b) == And(b, a)
  {
  }

  /** One visit: the item moves to the ready list, or the walk moves past it. */
  lemma WalkOn(ws: seq<Item>, i: nat, bits: bv32, waiting: seq<Item>, at: nat,
               ready0: seq<Item>, ready: seq<Item>, toClear: bv32)
    requires Walked(ws, i, bits, waiting, at, ready0, ready, toClear) && at < |waiting|
    ensures i < |ws| && waiting[at] == ws[i]
    ensures Satisfied(waiting[at].value, bits)
      ==> Walked(ws, i + 1, bits, waiting[..at] + waiting[at + 1..], at, ready0, ready + [Released(waiting[at], bits)],
                 Or(toClear, Taken(waiting[at].value, bits)))
    ensures !Satisfied(waiting[at].value, bits) ==> Walked(ws, i + 1, bits, waiting, at + 1, ready0, ready, toClear)
  {
    hide Satisfied, Kept, Freed, Cleared, Or, Released;
    NextItem(ws, i, bits);
    var k := Kept(ws[..i], bits);
    assert ws[i..] == [ws[i]] + ws[i + 1..];
    assert waiting[..at] + waiting[at + 1..] == k + ws[i + 1..];
    if !Satisfied(ws[i].value, bits) {
      assert waiting == (k + [ws[i]]) + ws[i + 1..];
      UntakenIsNone(ws[i].value, bits);
      OrNone(toClear);
    } else {
      assert ready + [Released(ws[i], bits)] == ready0 + (Freed(ws[..i], bits) + [Released(ws[i], bits)]);
    }
  }

  lemma UntakenIsNone(value: bv32, bits: bv32)
    requires !Satisfied(value, bits)
    ensures Taken(value, bits) == 0
  {
  }

  lemma WalkStart(ws: seq<Item>, bits: bv32, ready0: seq<Item>)
    ensures Walked(ws, 0, bits, ws, 0, ready0, ready0, 0)
  {
    assert ws[..0] == [];
  }

  lemma WalkEnd(ws: seq<Item>, i: nat, bits: bv32, waiting: seq<Item>, at: nat,
                ready0: seq<Item>, ready: seq<Item>, toClear: bv32)
    requires Walked(ws, i, bits, waiting, at, ready0, ready, toClear) && at >= |waiting|
    ensures waiting == Kept(ws, bits) && ready == ready0 + Freed(ws, bits) && toClear == Cleared(ws, bits)
  {
    hide Kept, Freed, Cleared;
    assert ws[i..] == [];
    assert ws[..i] == ws;
  }

  lemma TakenIs(value: bv32, bits: bv32)
    requires Satisfied(value, bits)
    ensures Taken(value, bits) == if Clears(value) then Mask(value) else 0
  {
    hide Satisfied;
  }

  class EventGroup {
    var bits: bv32
    var waiting: seq<Item>
    var ready: seq<Item>

    function State(): Group
      reads this
    {
      Group(bits, waiting, ready)
    }

    constructor ()
      ensures State() == Group(0, [], [])
    {
      bits, waiting, ready := 0, [], [];
    }

    /** Does an item's condition hold? The control bits are split off first. */
    method Matches(value: bv32) returns (found: bool)
      ensures found == Satisfied(value, bits)
    {
      hide And, Less;
      ControlSplit(value);
      var control, waited := And(value, CONTROL), Less(value, CONTROL);
      AndSwap(waited, bits);
      found := false;
      if And(control, WAIT_FOR_ALL) == 0 {
        if And(waited, bits) != 0 { found := true; }
      } else if And(waited, bits) == waited {
        found := true;
      }
    }

    /** The body of the loop of xEventGroupSetBits. */
    method Visit(at: nat, toClear: bv32, ghost ws: seq<Item>, ghost i: nat, ghost ready0: seq<Item>)
      returns (next: nat, clear: bv32)
      requires at < |waiting| && Walked(ws, i, bits, waiting, at, ready0, ready, toClear)
      modifies this`waiting, this`ready
      ensures i < |ws| && Walked(ws, i + 1, bits, waiting, next, ready0, ready, clear)
    {
      hide *;
      var w := waiting[at];
      next, clear := at, toClear;
      WalkOn(ws, i, bits, waiting, at, ready0, ready, toClear);
      var found := Matches(w.value);
      if found {
        TakenIs(w.value, bits);
        OrNone(toClear);
        if Clears(w.value) {
          clear := Or(clear, Mask(w.value));
        }
        waiting := waiting[..at] + waiting[at + 1..];
        ready := ready + [Released(w, bits)];
      } else {
        next := at + 1;
      }
    }

    /** xEventGroupSetBits. */
    method SetBits(toSet: bv32) returns (r: bv32)
      requires And(toSet, CONTROL) == 0
      modifies this
      ensures State() == WithBits(old(State()), toSet) && r == bits
      ensures SetLaw(old(State()), State(), toSet)
    {
      hide And, Or, Less, Kept, Freed, Cleared, Walked, SetLaw;
      SetObeys(State(), toSet);
      ghost var ws, ready0 := waiting, ready;
      bits := Or(bits, toSet);
      var at: nat := 0;
      var toClear: bv32 := 0;
      ghost var i: nat := 0;
      WalkStart(ws, bits, ready0);
      while at < |waiting|
        invariant bits == Or(old(bits), toSet) && Walked(ws, i, bits, waiting, at, ready0, ready, toClear)
        decreases |ws| - i
      {
        at, toClear := Visit(at, toClear, ws, i, ready0);
        i := i + 1;
      }
      WalkEnd(ws, i, bits, waiting, at, ready0, ready, toClear);
      bits := Less(bits, toClear);
      r := bits;
    }

    /** xEventGroupClearBits returns the bits as they were. */
    method ClearBits(clear: bv32) returns (r: bv32)
      requires And(clear, CONTROL) == 0
      modifies this`bits
      ensures State() == Next(old(State()), Event.ClearBits(clear)) && r == old(bits)
      ensures JustCleared(old(bits), bits, clear)
    {
      hide And, Less, JustCleared;
      ClearObeys(State(), clear);
      r := bits;
      bits := Less(bits, clear);
    }

    /** xEventGroupWaitBits, up to the point where the caller blocks. */
    method WaitBits(task: nat, mask: bv32, all: bool, clear: bool, block: bool) returns (blocked: bool, r: bv32)
      requires And(mask, CONTROL) == 0 && mask != 0
      modifies this`bits, this`waiting
      ensures State() == Waited(old(State()), task, mask, all, clear, block)
      ensures blocked <==> block && !Met(old(bits), mask, all)
      ensures !blocked ==> r == old(bits)
      ensures WaitLaw(old(State()), State(), task, mask, all, clear, block)
    {
      hide And, Met, Less, ItemValue, WaitLaw;
      WaitObeys(State(), task, mask, all, clear, block);
      blocked, r := false, bits;
      if Met(bits, mask, all) {
        if clear {
          bits := Less(bits, mask);
        }
      } else if block {
        waiting := waiting + [Item(task, ItemValue(mask, all, clear))];
        blocked := true;
      }
    }

    /** xEventGroupSync, up to the point where the caller blocks. */
    method Sync(task: nat, toSet: bv32, mask: bv32, block: bool) returns (blocked: bool, r: bv32)
      requires And(toSet, CONTROL) == 0 && And(mask, CONTROL) == 0 && mask != 0
      modifies this
      ensures State() == Synced(old(State()), task, toSet, mask, block)
      ensures blocked <==> block && !Met(Or(old(bits), toSet), mask, true)
      ensures !blocked ==> r == if Met(Or(old(bits), toSet), mask, true) then Or(old(bits), toSet) else bits
      ensures SyncLaw(old(State()), State(), task, toSet, mask, block)
    {
      hide Or, Less, ItemValue, WithBits, SyncLaw, SetLaw;
      SyncObeys(State(), task, toSet, mask, block);
      var original := bits;
      blocked, r := false, 0;
      r := SetBits(toSet);
      if And(Or(original, toSet), mask) == mask {
        r := Or(original, toSet);
        bits := Less(bits, mask);
      } else if block {
        waiting := waiting + [Item(task, ItemValue(mask, true, true))];
        blocked := true;
      }
    }

    /** A task back from a wait: released by bits, or timed out and looking once more. */
    method Return(value: bv32, mask: bv32, all: bool, clear: bool) returns (r: bv32)
      modifies this`bits
      ensures ByBits(value) ==> State() == old(State()) && r == Less(value, CONTROL)
      ensures !ByBits(value) ==> State() == Returning(old(State()), mask, all, clear) && r == Less(old(bits), CONTROL)
      ensures !ByBits(value) ==> ReturnLaw(old(State()), State(), mask, all, clear)
    {
      hide Met, Less, ByBits, ReturnLaw;
      ReturnObeys(State(), mask, all, clear);
      r := value;
      if !ByBits(value) {
        r := bits;
        if Met(bits, mask, all) && clear {
          bits := Less(bits, mask);
        }
      }
      r := Less(r, CONTROL);
    }
  }
}
