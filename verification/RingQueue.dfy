/** The storage of a FreeRTOS queue (arm/FreeRTOS/queue.c): a byte array written at
    both ends, proved to be a double-ended queue of items of any size. */
module RingQueue {
  import opened Common

  type Item = seq<bv8>

  datatype Position = Back | Front | Overwrite

  // --- the ring on values: slots, the slot last read, the number of items ---

  /** A slot number that is at most two laps ahead, brought back into the ring. */
  function Wrap(x: nat, len: nat): (s: nat)
    requires 0 < len && x <= 2 * len
    ensures s < len
  {
    if x < len then x else if x < 2 * len then x - len else x - 2 * len
  }

  lemma WrapIsModulo(x: nat, len: nat)
    requires 0 < len && x <= 2 * len
    ensures Wrap(x, len) == x % len
  {
    if x == 2 * len { assert 2 * len % len == 0; }
  }

  lemma WrapNext(r: nat, n: nat, len: nat)
    requires r < len && n < len
    ensures Wrap(Wrap(r + 1 + n, len) + 1, len) == Wrap(r + 1 + (n + 1), len)
  {
  }

  /** The n items after slot r, oldest first. */
  function Items(slots: seq<Item>, r: nat, n: nat): (q: seq<Item>)
    requires r < |slots| && n <= |slots|
    ensures |q| == n
    ensures forall k :: 0 <= k < n ==> q[k] == slots[Wrap(r + 1 + k, |slots|)]
  {
    seq(n, k requires 0 <= k < n => slots[Wrap(r + 1 + k, |slots|)])
  }

  lemma AppendAt(slots: seq<Item>, r: nat, n: nat, w: nat, x: Item)
    requires r < |slots| && n < |slots| && w == Wrap(r + 1 + n, |slots|)
    ensures Items(slots[w := x], r, n + 1) == Items(slots, r, n) + [x]
  {
  }

  lemma PrependAt(slots: seq<Item>, r: nat, n: nat, x: Item)
    requires r < |slots| && n < |slots|
    ensures Items(slots[r := x], Wrap(r + |slots| - 1, |slots|), n + 1) == [x] + Items(slots, r, n)
  {
    var len := |slots|;
    var r' := Wrap(r + len - 1, len);
    forall k | 0 <= k <= n
      ensures Items(slots[r := x], r', n + 1)[k] == ([x] + Items(slots, r, n))[k]
    {
      if k > 0 {
        assert Wrap(r' + 1 + k, len) == Wrap(r + 1 + (k - 1), len) != r;
      }
    }
  }

  lemma DropAt(slots: seq<Item>, r: nat, n: nat)
    requires r < |slots| && 0 < n <= |slots|
    ensures Items(slots, Wrap(r + 1, |slots|), n - 1) == Items(slots, r, n)[1..]
  {
  }

  /** What a send makes of the items in the queue. */
  function Sent(q: seq<Item>, x: Item, pos: Position): seq<Item> {
    match pos
    case Back => q + [x]
    case Front => [x] + q
    case Overwrite => [x]
  }

  lemma SentEmpty(slots: seq<Item>, r: nat, n: nat, x: Item, pos: Position)
    requires r < |slots| && n < |slots| && (forall i :: 0 <= i < |slots| ==> slots[i] == []) && x == []
    requires pos.Overwrite? ==> n == 0
    ensures Items(slots, r, n + 1) == Sent(Items(slots, r, n), x, pos)
  {
  }

  function Head(q: seq<Item>): Option<Item> {
    if q == [] then None else Some(q[0])
  }

  function Tail(q: seq<Item>): seq<Item> {
    if q == [] then [] else q[1..]
  }

  // --- the bytes that hold the slots ---

  function ByteAt(bytes: seq<bv8>, k: nat): bv8 {
    if k < |bytes| then bytes[k] else 0
  }

  /** Slot i lies at bytes i * size up to (i + 1) * size. */
  ghost predicate Holds(bytes: seq<bv8>, size: nat, slots: seq<Item>) {
    && |bytes| == |slots| * size
    && (forall i :: 0 <= i < |slots| ==> |slots[i]| == size)
    && forall i, j :: 0 <= i < |slots| && 0 <= j < |slots[i]| ==> ByteAt(bytes, i * size + j) == slots[i][j]
  }

  ghost function SlotsOf(bytes: seq<bv8>, size: nat, n: nat): (slots: seq<Item>)
    ensures |bytes| == n * size ==> Holds(bytes, size, slots)
  {
    seq(n, i requires 0 <= i => seq(size, j requires 0 <= j => ByteAt(bytes, i * size + j)))
  }

  lemma {:induction false} SlotOrder(a: nat, b: nat, size: nat)
    requires a < b
    ensures 0 <= a * size && a * size + size <= b * size
  {
    NextSlot(b - 1, size);
    if a < b - 1 { SlotOrder(a, b - 1, size); }
  }

  lemma NextSlot(a: nat, size: nat)
    ensures 0 <= a * size && (a + 1) * size == a * size + size
  {
  }

  /** Moving a byte offset on by one slot, and back to the start at the end. */
  lemma NextOffset(slot: nat, len: nat, size: nat)
    requires slot < len && size > 0
    ensures var o := slot * size + size;
            Wrap(slot + 1, len) * size == if o >= len * size then 0 else o
    ensures 0 <= Wrap(slot + 1, len) * size && Wrap(slot + 1, len) * size + size <= len * size
  {
    NextSlot(slot, size);
    SlotOrder(Wrap(slot + 1, len), len, size);
    if slot + 1 < len { SlotOrder(slot + 1, len, size); }
  }

  /** Moving it back by one slot, and to the last slot from the start. */
  lemma PreviousOffset(slot: nat, len: nat, size: nat)
    requires slot < len && size > 0
    ensures var o := slot * size - size;
            Wrap(slot + len - 1, len) * size == if o < 0 then len * size - size else o
  {
    if slot > 0 { NextSlot(slot - 1, size); } else { NextSlot(len - 1, size); }
  }

  lemma Apart(i: nat, j: nat, k: nat, size: nat)
    requires i != k && j < size
    ensures i * size + j < k * size || k * size + size <= i * size + j
  {
    if i < k { SlotOrder(i, k, size); } else { SlotOrder(k, i, size); }
  }

  lemma StoreSlot(bytes: seq<bv8>, bytes': seq<bv8>, size: nat, slots: seq<Item>, k: nat, x: Item)
    requires Holds(bytes, size, slots) && k < |slots| && |x| == size
    requires 0 <= k * size && k * size + size <= |bytes| && bytes' == bytes[..k * size] + x + bytes[k * size + size..]
    ensures Holds(bytes', size, slots[k := x])
  {
    var slots' := slots[k := x];
    forall i, j | 0 <= i < |slots| && 0 <= j < |slots'[i]|
      ensures ByteAt(bytes', i * size + j) == slots'[i][j]
    {
      SlotOrder(i, |slots|, size);
      if i != k {
        Apart(i, j, k, size);
        assert ByteAt(bytes, i * size + j) == slots[i][j];
      }
    }
  }

  lemma LoadSlot(bytes: seq<bv8>, size: nat, slots: seq<Item>, k: nat)
    requires Holds(bytes, size, slots) && k < |slots|
    requires 0 <= k * size && k * size + size <= |bytes|
    ensures bytes[k * size..k * size + size] == slots[k]
  {
    forall j | 0 <= j < size
      ensures bytes[k * size..k * size + size][j] == slots[k][j]
    {
      assert ByteAt(bytes, k * size + j) == slots[k][j];
    }
  }

  lemma NoBytes(bytes: seq<bv8>, slots: seq<Item>)
    requires Holds(bytes, 0, slots)
    ensures forall i :: 0 <= i < |slots| ==> slots[i] == []
  {
  }

  // --- runs of the queue as a sequence: first in, first out ---

  datatype Op = SendBack(x: Item) | Take | Look

  /** The items put in and the items taken out by a run, in order. */
  datatype Trace = Trace(q: seq<Item>, sent: seq<Item>, taken: seq<Item>)

  function Step(t: Trace, op: Op, length: nat): Trace {
    match op
    case SendBack(x) => if |t.q| < length then Trace(Sent(t.q, x, Back), t.sent + [x], t.taken) else t
    case Take => if t.q == [] then t else Trace(Tail(t.q), t.sent, t.taken + [t.q[0]])
    case Look => t
  }

  function Run(t: Trace, ops: seq<Op>, length: nat): Trace {
    if ops == [] then t else Step(Run(t, ops[..|ops| - 1], length), ops[|ops| - 1], length)
  }

  lemma StepInOrder(t: Trace, op: Op, length: nat, q: seq<Item>)
    requires t.taken + t.q == q + t.sent
    ensures var t' := Step(t, op, length);
            t'.taken + t'.q == q + t'.sent
  {
    match op
    case SendBack(x) =>
      assert t.taken + (t.q + [x]) == (t.taken + t.q) + [x] == q + (t.sent + [x]);
    case Take =>
      if t.q != [] { assert (t.taken + [t.q[0]]) + t.q[1..] == t.taken + t.q; }
    case Look =>
  }

  /** Whatever the interleaving of sends, receives and peeks, the items come out in
      the order they were put in, none lost, none twice, and never more than fit. */
  lemma {:induction false} FirstInFirstOut(q: seq<Item>, ops: seq<Op>, length: nat)
    requires |q| <= length
    ensures var t := Run(Trace(q, [], []), ops, length);
            t.taken + t.q == q + t.sent && |t.q| <= length
  {
    if ops == [] {
      assert [] + q == q + [];
    } else {
      FirstInFirstOut(q, ops[..|ops| - 1], length);
      StepInOrder(Run(Trace(q, [], []), ops[..|ops| - 1], length), ops[|ops| - 1], length, q);
    }
  }

  /** xQUEUE without its event lists: the storage, two byte offsets and a count. */
  class Queue {
    const length: nat
    const itemSize: nat
    const storage: array<bv8>
    var writeTo: int
    var readFrom: int
    var messages: nat
    ghost var slots: seq<Item>
    ghost var w: nat
    ghost var r: nat

    /** Everything but the bound on the count, which only one call can break. */
    ghost predicate Aligned()
      reads this, storage
    {
      && 0 < length == |slots|
      && Holds(storage[..], itemSize, slots)
      && r < length && w < length
      && writeTo == w * itemSize && readFrom == r * itemSize
    }

    ghost predicate Valid()
      reads this, storage
    {
      && Aligned()
      && messages <= length
      && w == Wrap(r + 1 + messages, length)
    }

    /** The items in the queue, oldest first. */
    ghost function Contents(): seq<Item>
      requires Valid()
      reads this, storage
    {
      Items(slots, r, messages)
    }

    /** prvInitialiseNewQueue. */
    constructor (uxLength: nat, uxItemSize: nat)
      requires 0 < uxLength
      ensures Valid() && fresh(storage) && length == uxLength && itemSize == uxItemSize
      ensures Contents() == []
    {
      length, itemSize := uxLength, uxItemSize;
      storage := new bv8[uxLength * uxItemSize];
      writeTo, readFrom, messages := 0, (uxLength - 1) * uxItemSize, 0;
      w, r := 0, uxLength - 1;
      new;
      slots := SlotsOf(storage[..], itemSize, length);
    }

    /** The data part of xQueueGenericReset. */
    method Reset()
      requires Valid()
      modifies this`writeTo, this`readFrom, this`messages, this`w, this`r
      ensures Valid() && Contents() == []
    {
      messages := 0;
      writeTo := 0;
      readFrom := (length - 1) * itemSize;
      w, r := 0, length - 1;
    }

    method MemCopyIn(at: int, x: Item, ghost k: nat)
      requires Aligned() && |x| == itemSize && k < length && at == k * itemSize
      modifies storage, this`slots
      ensures slots == old(slots)[k := x] && Holds(storage[..], itemSize, slots)
    {
      SlotOrder(k, length, itemSize);
      ghost var was := storage[..];
      forall i | 0 <= i < itemSize { storage[at + i] := x[i]; }
      assert storage[..] == was[..at] + x + was[at + itemSize..];
      StoreSlot(was, storage[..], itemSize, slots, k, x);
      slots := slots[k := x];
    }

    method PutBack(x: Item, ghost n: nat)
      requires Aligned() && |x| == itemSize && itemSize > 0 && n < length && w == Wrap(r + 1 + n, length)
      modifies storage, this`slots, this`writeTo, this`w
      ensures Aligned() && w == Wrap(r + 1 + (n + 1), length)
      ensures Items(slots, r, n + 1) == old(Items(slots, r, n)) + [x]
    {
      AppendAt(slots, r, n, w, x);
      NextOffset(w, length, itemSize);
      MemCopyIn(writeTo, x, w);
      writeTo := writeTo + itemSize;
      if writeTo >= storage.Length {
        writeTo := 0;
      }
      w := Wrap(w + 1, length);
    }

    method PutFront(x: Item, ghost n: nat)
      requires Aligned() && |x| == itemSize && itemSize > 0 && n < length && w == Wrap(r + 1 + n, length)
      modifies storage, this`slots, this`readFrom, this`r
      ensures Aligned() && w == Wrap(r + 1 + (n + 1), length)
      ensures Items(slots, r, n + 1) == [x] + old(Items(slots, r, n))
    {
      PrependAt(slots, r, n, x);
      PreviousOffset(r, length, itemSize);
      MemCopyIn(readFrom, x, r);
      readFrom := readFrom - itemSize;
      if readFrom < 0 {
        readFrom := storage.Length - itemSize;
      }
      r := Wrap(r + length - 1, length);
    }

    /** Nothing to store: both pointers stay where they are. */
    ghost method PutNothing(x: Item, pos: Position, n: nat)
      requires Aligned() && itemSize == 0 && x == [] && n <= length && w == Wrap(r + 1 + n, length)
      requires pos.Overwrite? ==> length == 1
      modifies this`w
      ensures Aligned()
      ensures n < length ==> w == Wrap(r + 1 + (n + 1), length)
      ensures n < length ==> Items(slots, r, n + 1) == Sent(Items(slots, r, n), x, pos)
    {
      NoBytes(storage[..], slots);
      if n < length {
        SentEmpty(slots, r, n, x, pos);
        WrapNext(r, n, length);
      }
      w := Wrap(w + 1, length);
    }

    /** prvCopyDataToQueue. A queue never takes more than it holds, except that
        overwriting a full semaphore (no data to overwrite) counts one too many. */
    method CopyDataToQueue(x: Item, pos: Position)
      requires Valid() && |x| == itemSize
      requires messages < length || pos.Overwrite?
      requires pos.Overwrite? ==> length == 1
      modifies this, storage
      ensures Valid() <==> !old(Overcounts(pos))
      ensures !old(Overcounts(pos)) ==> Contents() == Sent(old(Contents()), x, pos)
      ensures old(Overcounts(pos)) ==> messages == length + 1
    {
      hide Items, Holds, Wrap;
      var n := messages;
      if itemSize == 0 {
        PutNothing(x, pos, n);
      } else if pos.Back? {
        PutBack(x, n);
      } else {
        PutFront(x, if pos.Overwrite? then 0 else n);
        if pos.Overwrite? && n > 0 {
          n := n - 1;
        }
        assert [x] + [] == [x];
      }
      messages := n + 1;
    }

    ghost predicate Overcounts(pos: Position)
      reads this
    {
      itemSize == 0 && pos.Overwrite? && messages == length
    }

    /** prvCopyDataFromQueue: move to the next slot and copy it out. */
    method CopyDataFromQueue() returns (x: Item)
      requires Aligned()
      modifies this`readFrom, this`r
      ensures Aligned() && r == Wrap(old(r) + 1, length) && x == slots[r]
    {
      x := [];
      if itemSize > 0 { NextOffset(r, length, itemSize); }
      r := Wrap(r + 1, length);
      if itemSize != 0 {
        readFrom := readFrom + itemSize;
        if readFrom >= storage.Length {
          readFrom := 0;
        }
        LoadSlot(storage[..], itemSize, slots, r);
        x := storage[readFrom..readFrom + itemSize];
      }
    }

    /** xQueueGenericSend and xQueueGenericSendFromISR without the event lists. */
    method Send(x: Item, pos: Position) returns (ok: bool)
      requires Valid() && |x| == itemSize
      requires pos.Overwrite? ==> length == 1
      modifies this, storage
      ensures Valid() <==> !old(Overcounts(pos))
      ensures ok <==> |old(Contents())| < length || pos.Overwrite?
      ensures !old(Overcounts(pos)) ==> Contents() == if ok then Sent(old(Contents()), x, pos) else old(Contents())
      ensures old(Overcounts(pos)) ==> messages == length + 1
    {
      ok := messages < length || pos.Overwrite?;
      if ok {
        CopyDataToQueue(x, pos);
      }
    }

    /** xQueueGenericReceive, xQueueReceiveFromISR and xQueuePeekFromISR without the
        event lists. */
    method Receive(justPeeking: bool) returns (x: Option<Item>)
      requires Valid()
      modifies this`readFrom, this`r, this`messages
      ensures Valid()
      ensures x == Head(old(Contents()))
      ensures Contents() == if justPeeking then old(Contents()) else Tail(old(Contents()))
    {
      x := None;
      if messages > 0 {
        var original := readFrom;
        ghost var r0 := r;
        DropAt(slots, r, messages);
        var y := CopyDataFromQueue();
        x := Some(y);
        if justPeeking {
          readFrom := original;
          r := r0;
        } else {
          messages := messages - 1;
        }
      }
    }

    /** A whole run of sends, receives and peeks on the byte array: the items received,
        followed by those still in it, are those in it at first and then those sent. */
    method ServeAll(ops: seq<Op>) returns (taken: seq<Item>, ghost t: Trace)
      requires Valid() && forall op :: op in ops && op.SendBack? ==> |op.x| == itemSize
      modifies this, storage
      ensures Valid() && t == Run(Trace(old(Contents()), [], []), ops, length)
      ensures t.q == Contents() && t.taken == taken
      ensures taken + Contents() == old(Contents()) + t.sent && |Contents()| <= length
    {
      ghost var q := Contents();
      taken, t := [], Trace(q, [], []);
      for i := 0 to |ops|
        invariant Valid() && t == Run(Trace(q, [], []), ops[..i], length) && t.q == Contents() && t.taken == taken
      {
        taken := Serve(ops[i], taken);
        t := Step(t, ops[i], length);
        assert ops[..i + 1][..i] == ops[..i];
      }
      assert ops[..|ops|] == ops;
      FirstInFirstOut(q, ops, length);
    }

    /** One of these operations. */
    method Serve(op: Op, taken: seq<Item>) returns (taken': seq<Item>)
      requires Valid() && (op.SendBack? ==> |op.x| == itemSize)
      modifies this, storage
      ensures Valid()
      ensures forall sent :: var t := Step(Trace(old(Contents()), sent, taken), op, length);
                             t.q == Contents() && t.taken == taken'
    {
      taken' := taken;
      match op
      case SendBack(x) => var _ := Send(x, Back);
      case Look => var _ := Receive(true);
      case Take =>
        var y := Receive(false);
        if y.Some? { taken' := taken + [y.value]; }
    }
  }
}
