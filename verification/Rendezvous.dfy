/** The rendezvous of arm/FreeRTOS/event_groups.c: tasks that call xEventGroupSync, each
    with its own bits and all with the same mask. */
module Rendezvous {
  import opened EventGroups

  /** A task and the bits it brings. */
  datatype Arrival = Arrival(task: nat, bits: bv32)

  /** What the first k arrivals bring. */
  function Brought(party: seq<Arrival>, k: nat): bv32
    requires k <= |party|
  {
    if k == 0 then 0 else Or(Brought(party, k - 1), party[k - 1].bits)
  }

  /** The group after the first k calls. */
  function Run(g: Group, party: seq<Arrival>, mask: bv32, k: nat): Group
    requires k <= |party|
  {
    if k == 0 then g else Synced(Run(g, party, mask, k - 1), party[k - 1].task, party[k - 1].bits, mask, true)
  }

  /** What xEventGroupSync returns when it does not block. */
  function DirectReturn(g: Group, a: Arrival): bv32 {
    Or(g.bits, a.bits)
  }

  /** What it returns once it has been released by others setting bits. */
  function ReleasedReturn(w: Item): bv32 {
    Less(w.value, CONTROL)
  }

  function Waiters(party: seq<Arrival>, mask: bv32, k: nat): seq<Item>
    requires k <= |party|
  {
    if k == 0 then [] else Waiters(party, mask, k - 1) + [Item(party[k - 1].task, ItemValue(mask, true, true))]
  }

  /** Every task has a bit of its own, and together they bring just the mask. */
  predicate Meeting(party: seq<Arrival>, mask: bv32) {
    && party != [] && And(mask, CONTROL) == 0
    && Brought(party, |party|) == mask
    && (forall i :: 0 <= i < |party| ==> party[i].bits != 0)
    && (forall i, j :: 0 <= i < j < |party| ==> And(party[i].bits, party[j].bits) == 0)
  }

  /** Nobody waits and no bit of the mask is set; tasks released before may be yet to run. */
  predicate Fresh(g: Group, mask: bv32) {
    g.waiting == [] && And(g.bits, mask) == 0 && And(g.bits, CONTROL) == 0
  }

  // --- bits ---

  lemma OrApart(a: bv32, b: bv32, c: bv32)
    requires And(a, c) == 0 && And(b, c) == 0
    ensures And(Or(a, b), c) == 0
  {
  }

  lemma OrAssoc(a: bv32, b: bv32, c: bv32)
    ensures Or(Or(a, b), c) == Or(a, Or(b, c))
  {
  }

  lemma ApartFromPart(g: bv32, b: bv32, mask: bv32)
    requires And(g, mask) == 0 && Within(b, mask)
    ensures And(g, b) == 0
  {
  }

  lemma PartMissing(x: bv32, b: bv32, mask: bv32)
    requires And(x, b) == 0 && Within(b, mask) && b != 0
    ensures And(x, mask) != mask
  {
  }

  /** Bits that bring something new to part of the mask show that it was not full. */
  lemma NotFull(g: bv32, u: bv32, b: bv32, mask: bv32)
    requires And(g, mask) == 0 && And(u, b) == 0 && b != 0 && Within(b, mask)
    ensures And(Or(g, u), mask) != mask
  {
    hide *;
    ApartFromPart(g, b, mask);
    OrApart(g, u, b);
    PartMissing(Or(g, u), b, mask);
  }

  lemma FullAtLast(g: bv32, mask: bv32)
    ensures And(Or(g, mask), mask) == mask
  {
  }

  lemma RemovedAgain(g: bv32, mask: bv32)
    requires And(g, mask) == 0
    ensures Less(Or(g, mask), mask) == g
  {
  }

  lemma NothingToRemove(g: bv32, mask: bv32)
    requires And(g, mask) == 0
    ensures Less(g, mask) == g
  {
  }

  lemma {:induction false} BroughtApart(party: seq<Arrival>, mask: bv32, k: nat, j: nat)
    requires Meeting(party, mask) && k <= j < |party|
    ensures And(Brought(party, k), party[j].bits) == 0
  {
    hide And, Or;
    if k == 0 {
      NothingShared(party[j].bits);
    } else {
      BroughtApart(party, mask, k - 1, j);
      OrApart(Brought(party, k - 1), party[k - 1].bits, party[j].bits);
    }
  }

  lemma NothingShared(b: bv32)
    ensures And(0, b) == 0
  {
  }

  lemma {:induction false} BroughtWithin(party: seq<Arrival>, k: nat, j: nat)
    requires k < j <= |party|
    ensures Within(party[k].bits, Brought(party, j))
  {
    hide Within, Or;
    OrAbove(Brought(party, j - 1), party[j - 1].bits);
    if k < j - 1 {
      BroughtWithin(party, k, j - 1);
      WithinTrans(party[k].bits, Brought(party, j - 1), Brought(party, j));
    }
  }

  // --- all wait for the last ---

  /** Before the last arrival the mask is not full. */
  lemma StillOpen(g: bv32, party: seq<Arrival>, mask: bv32, k: nat)
    requires Meeting(party, mask) && And(g, mask) == 0 && k < |party|
    ensures And(Or(g, Brought(party, k)), mask) != mask
  {
    hide And, Or, Within;
    BroughtApart(party, mask, k, k);
    BroughtWithin(party, k, |party|);
    NotFull(g, Brought(party, k), party[k].bits, mask);
  }

  lemma SameItem(mask: bv32, bits: bv32)
    requires And(mask, CONTROL) == 0
    ensures var v := ItemValue(mask, true, true);
            (Satisfied(v, bits) <==> And(bits, mask) == mask) && (Satisfied(v, bits) ==> Taken(v, bits) == mask)
  {
    hide And, ItemValue, Mask, All, Clears;
    ItemValueReadsBack(mask, true, true);
  }

  lemma WaitersPrefix(party: seq<Arrival>, mask: bv32, k: nat)
    requires 0 < k <= |party|
    ensures var ws := Waiters(party, mask, k);
            |ws| == k && ws[..k - 1] == Waiters(party, mask, k - 1) && ws[k - 1].value == ItemValue(mask, true, true)
  {
    hide ItemValue;
    WaitersLength(party, mask, k - 1);
  }

  /** With an unfilled mask nobody is released ... */
  lemma {:induction false} WaitersStay(party: seq<Arrival>, mask: bv32, k: nat, bits: bv32)
    requires k <= |party| && And(mask, CONTROL) == 0 && And(bits, mask) != mask
    ensures var ws := Waiters(party, mask, k);
            Kept(ws, bits) == ws && Freed(ws, bits) == [] && Cleared(ws, bits) == 0
  {
    hide And, Or, ItemValue, Satisfied;
    if k > 0 {
      WaitersStay(party, mask, k - 1, bits);
      SameItem(mask, bits);
      WaitersPrefix(party, mask, k);
      OrZero(mask);
    }
  }

  /** ... and with a full one everybody. */
  lemma WaitersGo(party: seq<Arrival>, mask: bv32, k: nat, bits: bv32)
    requires k <= |party| && And(mask, CONTROL) == 0 && And(bits, mask) == mask
    ensures var ws := Waiters(party, mask, k);
            && Kept(ws, bits) == [] && Cleared(ws, bits) == (if k == 0 then 0 else mask)
            && |Freed(ws, bits)| == k
            && forall i :: 0 <= i < k ==> Freed(ws, bits)[i] == Item(party[i].task, Or(Or(bits, UNBLOCKED), IN_USE))
  {
    hide *;
    AllGo(party, mask, k, bits);
    forall i | 0 <= i < k
      ensures Freed(Waiters(party, mask, k), bits)[i] == Item(party[i].task, Or(Or(bits, UNBLOCKED), IN_USE))
    {
      EachGoes(party, mask, k, bits, i);
    }
  }

  lemma {:induction false} AllGo(party: seq<Arrival>, mask: bv32, k: nat, bits: bv32)
    requires k <= |party| && And(mask, CONTROL) == 0 && And(bits, mask) == mask
    ensures var ws := Waiters(party, mask, k);
            && Kept(ws, bits) == [] && Cleared(ws, bits) == (if k == 0 then 0 else mask) && |Freed(ws, bits)| == k
  {
    hide And, Or, ItemValue, Satisfied, Taken, Released;
    if k > 0 {
      AllGo(party, mask, k - 1, bits);
      SameItem(mask, bits);
      WaitersPrefix(party, mask, k);
      OrZero(mask);
    }
  }

  lemma {:induction false} EachGoes(party: seq<Arrival>, mask: bv32, k: nat, bits: bv32, i: nat)
    requires i < k <= |party| && And(mask, CONTROL) == 0 && And(bits, mask) == mask
    ensures var freed := Freed(Waiters(party, mask, k), bits);
            |freed| == k && freed[i] == Item(party[i].task, Or(Or(bits, UNBLOCKED), IN_USE))
  {
    hide And, Or, ItemValue, Satisfied, Taken, Kept, Cleared, Freed, Waiters;
    AllGo(party, mask, k, bits);
    AllGo(party, mask, k - 1, bits);
    SameItem(mask, bits);
    WaitersPrefix(party, mask, k);
    WaitersLength(party, mask, k);
    LastFreed(Waiters(party, mask, k), bits);
    if i < k - 1 { EachGoes(party, mask, k - 1, bits, i); }
  }

  lemma LastFreed(ws: seq<Item>, bits: bv32)
    requires ws != [] && Satisfied(ws[|ws| - 1].value, bits)
    ensures Freed(ws, bits) == Freed(ws[..|ws| - 1], bits) + [Released(ws[|ws| - 1], bits)]
  {
    hide Satisfied, Released;
  }

  lemma OrZero(mask: bv32)
    ensures Or(0, 0) == 0 && Or(0, mask) == mask && Or(mask, mask) == mask && Or(mask, 0) == mask
  {
  }

  lemma {:induction false} WaitersLength(party: seq<Arrival>, mask: bv32, k: nat)
    requires k <= |party|
    ensures |Waiters(party, mask, k)| == k
    ensures forall i :: 0 <= i < k ==> Waiters(party, mask, k)[i] == Item(party[i].task, ItemValue(mask, true, true))
  {
    hide ItemValue;
    if k > 0 { WaitersLength(party, mask, k - 1); }
  }

  lemma UnfilledStep(g: Group, party: seq<Arrival>, mask: bv32, k: nat)
    requires k < |party| && And(mask, CONTROL) == 0
    requires g.waiting == Waiters(party, mask, k) && And(Or(g.bits, party[k].bits), mask) != mask
    ensures Synced(g, party[k].task, party[k].bits, mask, true)
            == Group(Or(g.bits, party[k].bits), Waiters(party, mask, k + 1), g.ready)
  {
    hide And, Or, Less, ItemValue, Kept, Freed, Cleared, Waiters;
    var bits := Or(g.bits, party[k].bits);
    WaitersStay(party, mask, k, bits);
    assert Waiters(party, mask, k + 1) == Waiters(party, mask, k)
          + [Item(party[k].task, ItemValue(mask, true, true))] by {
      NextWaiter(party, mask, k);
    }
    LessNothing(bits);
  }

  lemma NextWaiter(party: seq<Arrival>, mask: bv32, k: nat)
    requires k < |party|
    ensures Waiters(party, mask, k + 1) == Waiters(party, mask, k) + [Item(party[k].task, ItemValue(mask, true, true))]
  {
  }

  lemma LessNothing(bits: bv32)
    ensures Less(bits, 0) == bits
  {
  }

  /** Until the last task arrives every caller blocks and nobody is released. */
  lemma {:induction false} NoneReturnsEarly(g: Group, party: seq<Arrival>, mask: bv32, k: nat)
    requires Meeting(party, mask) && Fresh(g, mask) && k < |party|
    ensures Run(g, party, mask, k) == Group(Or(g.bits, Brought(party, k)), Waiters(party, mask, k), g.ready)
  {
    hide And, Or, ItemValue, Synced;
    if k == 0 {
      OrWithZero(g.bits);
    } else {
      NoneReturnsEarly(g, party, mask, k - 1);
      StillOpen(g.bits, party, mask, k);
      OrAssoc(g.bits, Brought(party, k - 1), party[k - 1].bits);
      UnfilledStep(Run(g, party, mask, k - 1), party, mask, k - 1);
    }
  }

  lemma OrWithZero(a: bv32)
    ensures Or(a, 0) == a
  {
  }

  lemma FilledStep(g: Group, party: seq<Arrival>, mask: bv32, k: nat, base: bv32)
    requires k < |party| && And(mask, CONTROL) == 0 && And(base, mask) == 0
    requires g.waiting == Waiters(party, mask, k) && Or(g.bits, party[k].bits) == Or(base, mask)
    ensures var r := Synced(g, party[k].task, party[k].bits, mask, true); var m := |g.ready|;
            && r.bits == base && r.waiting == [] && |r.ready| == m + k && r.ready[..m] == g.ready
            && forall i :: 0 <= i < k ==>
                 r.ready[m..][i] == Item(party[i].task, Or(Or(Or(base, mask), UNBLOCKED), IN_USE))
  {
    hide And, Or, Less, ItemValue, Kept, Freed, Cleared, Waiters;
    FullAtLast(base, mask);
    WaitersGo(party, mask, k, Or(base, mask));
    RemovedAgain(base, mask);
    NothingToRemove(base, mask);
    LessNothing(Or(base, mask));
    var freed := Freed(Waiters(party, mask, k), Or(base, mask));
    assert (g.ready + freed)[|g.ready|..] == freed;
  }

  lemma StrippedReturn(bits: bv32)
    requires And(bits, CONTROL) == 0
    ensures Less(Or(Or(bits, UNBLOCKED), IN_USE), CONTROL) == bits
  {
  }

  /** All of the party return the same bits: those there were, with the whole mask and no
      control bits. Those released come after the ones released before, in their order. */
  ghost predicate MetTogether(g: Group, party: seq<Arrival>, mask: bv32) {
    && party != []
    && var n, m := |party|, |g.ready|; var r := Run(g, party, mask, n);
       && |r.ready| == m + n - 1 && r.ready[..m] == g.ready
       && (forall i :: 0 <= i < n - 1 ==>
             r.ready[m..][i].task == party[i].task && ReleasedReturn(r.ready[m..][i]) == Or(g.bits, mask))
       && DirectReturn(Run(g, party, mask, n - 1), party[n - 1]) == Or(g.bits, mask)
       && And(Or(g.bits, mask), mask) == mask && And(Or(g.bits, mask), CONTROL) == 0
  }

  /** When the last task arrives, in whatever order, all return the same bits, and bits
      and list are as they were found, ready for the next meeting. */
  lemma AllReturnTogether(g: Group, party: seq<Arrival>, mask: bv32)
    requires Meeting(party, mask) && Fresh(g, mask)
    ensures MetTogether(g, party, mask)
    ensures var r := Run(g, party, mask, |party|);
            r.bits == g.bits && r.waiting == [] && Fresh(r, mask)
  {
    hide And, Or, Less, ItemValue, Synced, Waiters;
    var n := |party|;
    NoneReturnsEarly(g, party, mask, n - 1);
    OrAssoc(g.bits, Brought(party, n - 1), party[n - 1].bits);
    FilledStep(Run(g, party, mask, n - 1), party, mask, n - 1, g.bits);
    FullAtLast(g.bits, mask);
    OrApart(g.bits, mask, CONTROL);
    StrippedReturn(Or(g.bits, mask));
  }

  // --- one meeting after another ---

  /** Who meets, in what order, and by which bits. */
  datatype Date = Date(party: seq<Arrival>, mask: bv32)

  /** The group after the first k meetings. */
  function AfterMeetings(g: Group, dates: seq<Date>, k: nat): Group
    requires k <= |dates|
  {
    if k == 0 then g
    else
      var d := dates[k - 1];
      Run(AfterMeetings(g, dates, k - 1), d.party, d.mask, |d.party|)
  }

  /** Any number of meetings in a row on one group, each with its own tasks, order and
      mask: every one of them meets as if it were the only one. */
  lemma {:induction false} AllMeetingsMeet(g: Group, dates: seq<Date>, k: nat)
    requires k <= |dates| && forall i :: 0 <= i < |dates| ==>
               Meeting(dates[i].party, dates[i].mask) && Fresh(g, dates[i].mask)
    ensures AfterMeetings(g, dates, k).bits == g.bits && AfterMeetings(g, dates, k).waiting == g.waiting
    ensures forall i :: 0 <= i < k ==> MetTogether(AfterMeetings(g, dates, i), dates[i].party, dates[i].mask)
  {
    hide And, Meeting, MetTogether, Run;
    if k > 0 {
      AllMeetingsMeet(g, dates, k - 1);
      var d := dates[k - 1];
      assert Fresh(g, d.mask);
      AllReturnTogether(AfterMeetings(g, dates, k - 1), d.party, d.mask);
    }
  }
}
