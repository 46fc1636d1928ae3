/** arm/FreeRTOS/list.c on the heap: an intrusive circular doubly linked list with
    an embedded end marker and a rotating index. */
module HeapList {
  import opened ListOrder

  class Item {
    var value: Tick
    var next: Item?
    var prev: Item?
    var container: List?

    /** vListInitialiseItem; the value is set by the item's owner. */
    constructor (v: Tick)
      ensures value == v && container == null && next == null && prev == null
    {
      value, container, next, prev := v, null, null, null;
    }
  }

  /** r is a circle of different items, each joined both ways to the next. */
  ghost predicate Linked(r: seq<Item>)
    reads r
  {
    && 0 < |r|
    && (forall i, j :: 0 <= i < j < |r| ==> r[i] != r[j])
    && (forall k {:trigger r[k].next} :: 0 <= k < |r| - 1 ==> r[k].next == r[k + 1])
    && r[|r| - 1].next == r[0]
    && (forall k {:trigger r[k].prev} :: 1 <= k < |r| ==> r[k].prev == r[k - 1])
    && r[0].prev == r[|r| - 1]
  }

  /** `ring[0]` is the end marker, the rest are the items from the head. */
  class List {
    var count: nat
    var index: Item
    const end: Item
    ghost var ring: seq<Item>
    ghost var cursor: nat

    ghost predicate Header()
      reads this, ring
    {
      && 0 < |ring| && ring[0] == end && end.value == MAX_DELAY
      && count == |ring| - 1 && cursor < |ring| && index == ring[cursor]
      && (forall k {:trigger ring[k].container} :: 1 <= k < |ring| ==> ring[k].container == this)
    }

    ghost predicate Valid()
      reads this, ring
    {
      Linked(ring) && Header()
    }

    ghost function View(): Ring<Item>
      requires 0 < |ring|
      reads this
    {
      Ring(ring[1..], cursor)
    }

    /** The values of the items from the head. */
    ghost function Keys(): (r: seq<Tick>)
      requires 0 < |ring|
      reads this, ring
      ensures |r| == |ring| - 1 && forall i :: 0 <= i < |r| ==> r[i] == ring[i + 1].value
    {
      seq(|ring| - 1, i requires 0 <= i < |ring| - 1 reads this, ring => ring[i + 1].value)
    }

    /** vListInitialise. */
    constructor ()
      ensures Valid() && fresh(end) && View() == Ring([], 0)
    {
      var e := new Item(MAX_DELAY);
      end, index, count := e, e, 0;
      ring, cursor := [e], 0;
      new;
      end.next, end.prev := end, end;
    }

    /** vListInsertEnd: in front of the index. */
    method PutEnd(x: Item)
      requires Valid() && x !in ring
      modifies `count, `ring, `cursor, ring`next, ring`prev, x`next, x`prev, x`container
      ensures Valid() && View() == InsertEnd(old(View()), x)
    {
      ghost var r, c := ring, cursor;
      ghost var p := if c == 0 then |r| - 1 else c - 1;
      LinkBeforeIndex(x, p);
      Enlist(x, p, if c == 0 then 0 else c + 1);
      SpliceItems(r, p, x);
    }

    /** The bookkeeping of an insertion: the item's container and the count. */
    method Enlist(x: Item, ghost p: nat, ghost c: nat)
      requires Header() && p < |ring| && x !in ring
      requires Linked(ring[..p + 1] + [x] + ring[p + 1..])
      requires c == if p < cursor then cursor + 1 else cursor
      modifies `count, `ring, `cursor, x`container
      ensures Valid() && ring == old(ring[..p + 1] + [x] + ring[p + 1..]) && cursor == c
    {
      x.container := this;
      count := count + 1;
      ring := ring[..p + 1] + [x] + ring[p + 1..];
      cursor := c;
    }

    method LinkBeforeIndex(x: Item, ghost p: nat)
      requires Linked(ring) && x !in ring && cursor < |ring| && index == ring[cursor]
      requires p == if cursor == 0 then |ring| - 1 else cursor - 1
      modifies ring`next, ring`prev, x`next, x`prev
      ensures Linked(ring[..p + 1] + [x] + ring[p + 1..])
    {
      ghost var q := ring[..p + 1] + [x] + ring[p + 1..];
      assert ring[p] == index.prev;
      x.next := index;
      x.prev := index.prev;
      index.prev.next := x;
      index.prev := x;
      SplicePlaces(ring, p, x);
      forall k {:trigger q[k].prev} | 1 <= k < |q| ensures q[k].prev == q[k - 1] {}
      forall k {:trigger q[k].next} | 0 <= k < |q| - 1 ensures q[k].next == q[k + 1] {}
    }

    /** vListInsert: in value order, after all equal values. */
    method Put(x: Item)
      requires Valid() && x !in ring
      modifies `count, `ring, `cursor, ring`next, ring`prev, x`next, x`prev, x`container
      ensures Valid() && View() == Insert(old(View()), Position(old(Keys()), x.value), x)
      ensures old(Sorted(Keys())) ==> Sorted(Keys())
    {
      ghost var keys := Keys();
      var place: Item;
      ghost var p: nat;
      place, p := FindPlace(x.value);
      PutAfter(x, place, p);
      if Sorted(keys) {
        SortedInsert(keys, x.value);
      }
    }

    method PutAfter(x: Item, before: Item, ghost p: nat)
      requires Valid() && x !in ring && p < |ring| && before == ring[p]
      modifies `count, `ring, `cursor, ring`next, ring`prev, x`next, x`prev, x`container
      ensures Valid() && View() == Insert(old(View()), p, x)
      ensures Keys() == InsertAt(old(Keys()), p, x.value)
    {
      ghost var r, c := ring, cursor;
      ghost var keys := Keys();
      LinkAfter(x, before, p);
      Enlist(x, p, if p < c then c + 1 else c);
      SpliceItems(r, p, x);
      assert Keys() == InsertAt(keys, p, x.value) by {
        hide Linked, Header, View, Insert, InsertAt;
        forall i | 0 <= i < |Keys()| ensures Keys()[i] == KeyAfter(keys, p, x.value, i) {
          assert ring[i + 1] == if i < p then r[i + 1] else if i == p then x else r[i];
        }
        KeysAfter(keys, p, x.value, Keys());
      }
    }

    /** The iteration of vListInsert. It ends for every value, the end marker
        holding the largest one, which has a branch of its own. */
    method FindPlace(v: Tick) returns (place: Item, ghost p: nat)
      requires Valid()
      ensures place == ring[Position(Keys(), v)] && p == Position(Keys(), v) && p < |ring|
    {
      if v == MAX_DELAY {
        place, p := end.prev, |ring| - 1;
      } else {
        place, p := end, 0;
        assert Keys()[0..] == Keys();
        while place.next.value <= v
          invariant p < |ring| && place == ring[p]
          invariant Position(Keys(), v) == p + Position(Keys()[p..], v)
          decreases |ring| - p
        {
          assert place.next == ring[p + 1];
          assert Keys()[p..][1..] == Keys()[p + 1..];
          place, p := place.next, p + 1;
        }
      }
    }

    method LinkAfter(x: Item, before: Item, ghost p: nat)
      requires Linked(ring) && x !in ring && p < |ring| && before == ring[p]
      modifies ring`next, ring`prev, x`next, x`prev
      ensures Linked(ring[..p + 1] + [x] + ring[p + 1..])
    {
      ghost var q := ring[..p + 1] + [x] + ring[p + 1..];
      assert before.next == if p + 1 < |ring| then ring[p + 1] else ring[0];
      x.next := before.next;
      x.next.prev := x;
      x.prev := before;
      before.next := x;
      SplicePlaces(ring, p, x);
      forall k {:trigger q[k].prev} | 1 <= k < |q| ensures q[k].prev == q[k - 1] {}
      forall k {:trigger q[k].next} | 0 <= k < |q| - 1 ensures q[k].next == q[k + 1] {}
    }

    /** uxListRemove of an item of this list; returns how many remain. */
    method Take(x: Item, ghost p: nat) returns (left: nat)
      requires Valid() && p + 1 < |ring| && x == ring[p + 1]
      modifies `count, `ring, `cursor, `index, ring`next, ring`prev, x`container
      ensures Valid() && View() == Remove(old(View()), p) && left == count == |ring| - 1 && x.container == null
    {
      ghost var r, c := ring, cursor;
      Unlink(x, p + 1);
      left := Delist(x, p);
      DropItems(r, p);
    }

    /** The bookkeeping of a removal: an index on the item steps back. */
    method Delist(x: Item, ghost p: nat) returns (left: nat)
      requires Header() && p + 1 < |ring| && x == ring[p + 1] && x.prev == ring[p]
      requires Linked(ring[..p + 1] + ring[p + 2..]) && forall k :: 0 <= k < |ring| && k != p + 1 ==> ring[k] != x
      modifies `count, `ring, `cursor, `index, x`container
      ensures Valid() && ring == old(ring[..p + 1] + ring[p + 2..])
      ensures cursor == (if p < old(cursor) then old(cursor) - 1 else old(cursor)) && left == count
            && x.container == null
    {
      if index == x {
        index := x.prev;
      }
      x.container := null;
      count := count - 1;
      ring := ring[..p + 1] + ring[p + 2..];
      cursor := if p < cursor then cursor - 1 else cursor;
      left := count;
    }

    method Unlink(x: Item, ghost k: nat)
      requires Linked(ring) && 1 <= k < |ring| && x == ring[k]
      modifies ring`next, ring`prev
      ensures Linked(ring[..k] + ring[k + 1..]) && x.prev == ring[k - 1] && x.next == old(x.next)
    {
      ghost var q := ring[..k] + ring[k + 1..];
      x.next.prev := x.prev;
      x.prev.next := x.next;
      assert forall i :: 0 <= i < k ==> q[i] == ring[i];
      assert forall i :: k <= i < |q| ==> q[i] == ring[i + 1];
      forall i {:trigger q[i].prev} | 1 <= i < |q| ensures q[i].prev == q[i - 1] {}
      forall i {:trigger q[i].next} | 0 <= i < |q| - 1 ensures q[i].next == q[i + 1] {}
    }

    /** listGET_OWNER_OF_NEXT_ENTRY, for a list with items. */
    method Next() returns (x: Item)
      requires Valid() && count > 0
      modifies `index, `cursor
      ensures Valid() && View() == Advance(old(View())) && x == Current(View()) && x == old(View()).Order()[0]
    {
      AdvanceRotates(View());
      index := index.next;
      cursor := if cursor + 1 < |ring| then cursor + 1 else 0;
      if index == end {
        index := index.next;
        cursor := 1;
      }
      x := index;
    }
  }

  lemma SplicePlaces(r: seq<Item>, p: nat, x: Item)
    requires p < |r|
    ensures var q := r[..p + 1] + [x] + r[p + 1..];
            && (forall k :: 0 <= k <= p ==> q[k] == r[k]) && q[p + 1] == x
            && (forall k :: p + 1 < k < |q| ==> q[k] == r[k - 1])
  {
  }

  lemma DropItems(r: seq<Item>, p: nat)
    requires p + 1 < |r|
    ensures var q := r[..p + 1] + r[p + 2..];
            && q[1..] == Without(r[1..], p)
            && (forall k :: 0 <= k <= p ==> q[k] == r[k]) && (forall k :: p < k < |q| ==> q[k] == r[k + 1])
  {
  }

  function KeyAfter(keys: seq<Tick>, p: nat, v: Tick, i: nat): Tick
    requires p <= |keys| && i <= |keys|
  {
    if i < p then keys[i] else if i == p then v else keys[i - 1]
  }

  lemma KeysAfter(keys: seq<Tick>, p: nat, v: Tick, keys': seq<Tick>)
    requires p <= |keys| && |keys'| == |keys| + 1
    requires forall i :: 0 <= i < |keys'| ==> keys'[i] == KeyAfter(keys, p, v, i)
    ensures keys' == InsertAt(keys, p, v)
  {
  }

  lemma SpliceItems(r: seq<Item>, p: nat, x: Item)
    requires p < |r|
    ensures (r[..p + 1] + [x] + r[p + 1..])[1..] == InsertAt(r[1..], p, x)
    ensures p + 1 == |r| ==> (r[..p + 1] + [x] + r[p + 1..])[1..] == r[1..] + [x]
  {
  }
}
