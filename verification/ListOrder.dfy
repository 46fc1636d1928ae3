/** What a kernel list (arm/FreeRTOS/list.c) is to its users: its items from the
    head, and the rotating index. `cursor == 0` is the end marker, `k` is item k - 1. */
module ListOrder {
  type Tick = x: int | 0 <= x < 0x1_0000_0000
  const MAX_DELAY: Tick := 0xFFFF_FFFF

  datatype Ring<T> = Ring(items: seq<T>, cursor: nat) {
    predicate Ok() { cursor <= |items| }

    /** The items in the order the rotating index will visit them. */
    function Order(): seq<T>
      requires Ok()
    {
      items[cursor..] + items[..cursor]
    }
  }

  function Without<T>(s: seq<T>, p: nat): seq<T>
    requires p < |s|
  {
    s[..p] + s[p + 1..]
  }

  function InsertAt<T>(s: seq<T>, p: nat, x: T): seq<T>
    requires p <= |s|
  {
    s[..p] + [x] + s[p..]
  }

  lemma WithoutConcat<T>(a: seq<T>, b: seq<T>, p: nat)
    requires p < |a| + |b|
    ensures Without(a + b, p) == if p < |a| then Without(a, p) + b else a + Without(b, p - |a|)
  {
  }

  // --- the operations ---

  /** vListInsertEnd: just before the index. */
  function InsertEnd<T>(r: Ring<T>, x: T): Ring<T>
    requires r.Ok()
  {
    if r.cursor == 0 then Ring(r.items + [x], 0)
    else Ring(InsertAt(r.items, r.cursor - 1, x), r.cursor + 1)
  }

  /** vListInsert, once the position is found. */
  function Insert<T>(r: Ring<T>, p: nat, x: T): Ring<T>
    requires r.Ok() && p <= |r.items|
  {
    Ring(InsertAt(r.items, p, x), if p < r.cursor then r.cursor + 1 else r.cursor)
  }

  /** uxListRemove: an index standing on the item steps back. */
  function Remove<T>(r: Ring<T>, p: nat): Ring<T>
    requires r.Ok() && p < |r.items|
  {
    Ring(Without(r.items, p), if p < r.cursor then r.cursor - 1 else r.cursor)
  }

  /** listGET_OWNER_OF_NEXT_ENTRY: advance, skipping the end marker. */
  function Advance<T>(r: Ring<T>): Ring<T>
    requires r.Ok() && r.items != []
  {
    r.(cursor := if r.cursor < |r.items| then r.cursor + 1 else 1)
  }

  function Current<T>(r: Ring<T>): T
    requires r.Ok() && r.cursor > 0
  {
    r.items[r.cursor - 1]
  }

  // --- fairness of the rotating index ---

  /** One step visits the first item of the order and moves it to the back. */
  lemma AdvanceRotates<T>(r: Ring<T>)
    requires r.Ok() && r.items != []
    ensures Current(Advance(r)) == r.Order()[0]
    ensures Advance(r).Order() == r.Order()[1..] + [r.Order()[0]]
  {
  }

  function AdvanceBy<T>(r: Ring<T>, n: nat): (q: Ring<T>)
    requires r.Ok() && r.items != []
    ensures q.Ok() && q.items == r.items
  {
    if n == 0 then r else Advance(AdvanceBy(r, n - 1))
  }

  function Visits<T>(r: Ring<T>, n: nat): (v: seq<T>)
    requires r.Ok() && r.items != []
    ensures |v| == n
  {
    if n == 0 then [] else Visits(r, n - 1) + [Current(AdvanceBy(r, n))]
  }

  lemma RotateOnce<T>(s: seq<T>, n: nat)
    requires n < |s|
    ensures var t := s[n..] + s[..n];
            t[0] == s[n] && t[1..] + [t[0]] == s[n + 1..] + s[..n + 1] && s[..n] + [t[0]] == s[..n + 1]
  {
  }

  lemma {:induction false} VisitsPrefix<T>(r: Ring<T>, n: nat)
    requires r.Ok() && r.items != [] && n <= |r.items|
    ensures Visits(r, n) == r.Order()[..n]
    ensures AdvanceBy(r, n).Order() == r.Order()[n..] + r.Order()[..n]
  {
    if n > 0 {
      VisitsPrefix(r, n - 1);
      AdvanceRotates(AdvanceBy(r, n - 1));
      RotateOnce(r.Order(), n - 1);
    }
  }

  lemma OrderPermutes<T>(r: Ring<T>)
    requires r.Ok()
    ensures multiset(r.Order()) == multiset(r.items) && |r.Order()| == |r.items|
  {
    assert r.items == r.items[..r.cursor] + r.items[r.cursor..];
  }

  /** Round robin: over as many steps as there are items each is visited exactly
      once, and the order of the next round is the same. */
  lemma RoundRobin<T>(r: Ring<T>)
    requires r.Ok() && r.items != []
    ensures Visits(r, |r.items|) == r.Order() && multiset(Visits(r, |r.items|)) == multiset(r.items)
    ensures AdvanceBy(r, |r.items|).Order() == r.Order()
  {
    OrderPermutes(r);
    VisitsPrefix(r, |r.items|);
    assert r.Order()[..|r.items|] == r.Order();
    assert r.Order()[|r.items|..] + r.Order()[..|r.items|] == r.Order();
  }

  /** An item added at the end is visited only after every other item, except the
      one the index stands on. */
  lemma InsertEndOrder<T>(r: Ring<T>, x: T)
    requires r.Ok()
    ensures InsertEnd(r, x).Ok()
    ensures InsertEnd(r, x).Order()
            == if r.cursor == 0 then r.Order() + [x]
               else r.Order()[..|r.items| - 1] + [x] + [Current(r)]
  {
    if r.cursor == 0 {
      assert (r.items + [x])[0..] == r.items + [x];
    } else {
      var q, c := InsertEnd(r, x), r.cursor;
      assert q.items[c + 1..] == r.items[c..];
      assert q.items[..c + 1] == r.items[..c - 1] + [x] + [r.items[c - 1]];
      assert r.Order()[..|r.items| - 1] == r.items[c..] + r.items[..c - 1];
    }
  }

  /** Where item p stands in the visiting order. */
  function Turn<T>(r: Ring<T>, p: nat): nat
    requires r.Ok() && p < |r.items|
  {
    if p < r.cursor then |r.items| - r.cursor + p else p - r.cursor
  }

  /** Removing any item, even the one the index stands on, leaves the visiting
      order of the others unchanged. */
  lemma RemoveOrder<T>(r: Ring<T>, p: nat)
    requires r.Ok() && p < |r.items|
    ensures Remove(r, p).Ok() && r.Order()[Turn(r, p)] == r.items[p]
    ensures Remove(r, p).Order() == Without(r.Order(), Turn(r, p))
  {
    var c, n := r.cursor, |r.items|;
    var front, back := r.items[..c], r.items[c..];
    assert r.items == front + back;
    WithoutConcat(front, back, p);
    WithoutConcat(back, front, Turn(r, p));
    if p < c {
      assert Remove(r, p).Order() == back + Without(front, p);
    } else {
      assert Remove(r, p).Order() == Without(back, p - c) + front;
    }
  }

  /** Taking out what was just put in restores the list and its index. */
  lemma InsertThenRemove<T>(r: Ring<T>, p: nat, x: T)
    requires r.Ok() && p <= |r.items|
    ensures Remove(Insert(r, p, x), p) == r
  {
    assert Without(InsertAt(r.items, p, x), p) == r.items;
  }

  lemma InsertEndThenRemove<T>(r: Ring<T>, x: T)
    requires r.Ok()
    ensures Remove(InsertEnd(r, x), if r.cursor == 0 then |r.items| else r.cursor - 1) == r
  {
    var p := if r.cursor == 0 then |r.items| else r.cursor - 1;
    assert Without(InsertEnd(r, x).items, p) == r.items;
  }

  // --- sorted insertion ---

  predicate Sorted(keys: seq<Tick>) {
    forall i, j :: 0 <= i < j < |keys| ==> keys[i] <= keys[j]
  }

  /** The position vListInsert chooses: before the first larger value, or at the
      very end for the largest value of all. */
  function Position(keys: seq<Tick>, v: Tick): (p: nat)
    ensures p <= |keys|
    ensures v != MAX_DELAY ==> forall i :: 0 <= i < p ==> keys[i] <= v
    ensures v != MAX_DELAY && p < |keys| ==> keys[p] > v
    ensures v == MAX_DELAY ==> p == |keys|
  {
    if keys == [] then 0
    else if v != MAX_DELAY && keys[0] > v then 0
    else 1 + Position(keys[1..], v)
  }

  lemma PositionSplits(keys: seq<Tick>, v: Tick)
    requires Sorted(keys)
    ensures forall i :: 0 <= i < |keys| ==> (i < Position(keys, v) <==> keys[i] <= v)
  {
    var p := Position(keys, v);
    forall i | 0 <= i < |keys| ensures i < p <==> keys[i] <= v {
      if p < |keys| && p < i { assert keys[p] <= keys[i]; }
    }
  }

  /** In a sorted list the position splits the smaller and equal values from the
      larger: the list stays sorted and the newcomer goes after its equals. */
  lemma SortedInsert(keys: seq<Tick>, v: Tick)
    requires Sorted(keys)
    ensures var p := Position(keys, v);
            && Sorted(InsertAt(keys, p, v))
            && (forall i :: 0 <= i < |keys| ==> (i < p <==> keys[i] <= v))
  {
    hide Position;
    PositionSplits(keys, v);
    var p := Position(keys, v);
    var r := InsertAt(keys, p, v);
    forall i, j | 0 <= i < j < |r| ensures r[i] <= r[j] {
      assert i != p ==> r[i] == keys[if i < p then i else i - 1];
      assert j != p ==> r[j] == keys[if j < p then j else j - 1];
    }
  }
}
