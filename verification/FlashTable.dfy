/** The layout of one flash block (arm/FLASH/flashstore.c): a status byte and
    then a table of four-byte entries `size, key, hi, lo`, ended by blank flash.
    `Holds` ties the bytes to the entries and `Contents` says what they mean. */
module FlashTable {
  import opened Common

  const BLOCK_SIZE: nat := 2048
  const ELEMENT_SIZE: u8 := 2
  const BLANK: u8 := 0xFF
  const DEAD: u8 := 0x00
  const MAX_ENTRIES: nat := 511

  /** The bytes of one block. */
  type Bytes = s: seq<u8> | |s| == BLOCK_SIZE witness seq(BLOCK_SIZE, _ => BLANK)

  function Word(hi: u8, lo: u8): nat { hi * 256 + lo }

  /** `key` is the caller's id plus one; 0x00 marks a replaced entry and 0xFF
      one whose programming never reached its commit byte. */
  datatype Entry = Entry(key: u8, hi: u8, lo: u8) {
    predicate Live() { key != DEAD && key != BLANK }
    function Value(): nat { Word(hi, lo) }
  }

  const UNCOMMITTED := Entry(BLANK, BLANK, BLANK)

  predicate EntryAt(b: Bytes, i: nat, e: Entry)
    requires i < MAX_ENTRIES
  {
    b[1 + 4 * i] == ELEMENT_SIZE && b[2 + 4 * i] == e.key && b[3 + 4 * i] == e.hi && b[4 + 4 * i] == e.lo
  }

  /** The block `b` stores exactly the entries `es`, and the rest is erased. */
  ghost predicate Holds(b: Bytes, es: seq<Entry>) {
    && |es| <= MAX_ENTRIES
    && (forall i :: 0 <= i < |es| ==> EntryAt(b, i, es[i]))
    && (forall j :: 1 + 4 * |es| <= j < BLOCK_SIZE ==> b[j] == BLANK)
  }

  /** The number of entries, found by stepping over them until blank flash. */
  function Scan(b: Bytes, i: nat): (n: nat)
    requires i <= MAX_ENTRIES
    ensures i <= n <= MAX_ENTRIES
    decreases MAX_ENTRIES - i
  {
    if i == MAX_ENTRIES || b[1 + 4 * i] == BLANK then i else Scan(b, i + 1)
  }

  function Entries(b: Bytes): seq<Entry> {
    seq(Scan(b, 0), i requires 0 <= i < Scan(b, 0) => Entry(b[2 + 4 * i], b[3 + 4 * i], b[4 + 4 * i]))
  }

  ghost predicate Table(b: Bytes) {
    Holds(b, Entries(b))
  }

  lemma {:induction false} ScanHolds(b: Bytes, es: seq<Entry>, i: nat)
    requires Holds(b, es) && i <= |es|
    ensures Scan(b, i) == |es|
    decreases |es| - i
  {
    if i < |es| {
      assert EntryAt(b, i, es[i]);
      ScanHolds(b, es, i + 1);
    }
  }

  /** The bytes determine the entries. */
  lemma HoldsUnique(b: Bytes, es: seq<Entry>)
    requires Holds(b, es)
    ensures Entries(b) == es && Table(b)
  {
    ScanHolds(b, es, 0);
    forall i | 0 <= i < |es| ensures Entries(b)[i] == es[i] {
      assert EntryAt(b, i, es[i]);
    }
  }

  /** What a table means: for each id, the value of the last live entry. */
  function Contents(es: seq<Entry>): map<u8, nat> {
    if es == [] then map[]
    else
      var rest := Contents(es[..|es| - 1]);
      var e := es[|es| - 1];
      if e.Live() then rest[e.key - 1 := e.Value()] else rest
  }

  function LiveCount(es: seq<Entry>): nat {
    if es == [] then 0 else LiveCount(es[..|es| - 1]) + (if es[|es| - 1].Live() then 1 else 0)
  }

  function LiveOnly(es: seq<Entry>): (r: seq<Entry>)
    ensures |r| <= |es|
  {
    if es == [] then []
    else LiveOnly(es[..|es| - 1]) + (if es[|es| - 1].Live() then [es[|es| - 1]] else [])
  }

  /** Index of the first entry with this key; the table length when there is none. */
  function FirstWith(es: seq<Entry>, key: u8): (q: nat)
    ensures q <= |es|
    ensures q < |es| ==> es[q].key == key
    ensures forall i :: 0 <= i < q ==> es[i].key != key
  {
    if es == [] then 0
    else
      var q := FirstWith(es[..|es| - 1], key);
      if q < |es| - 1 || es[|es| - 1].key == key then q else |es|
  }

  /** The newest entry with this key, which is the one that counts. */
  function LastWith(es: seq<Entry>, key: u8): (q: nat)
    ensures q <= |es|
    ensures q < |es| ==> es[q].key == key
    ensures forall i :: 0 <= i < |es| && (q == |es| || q < i) ==> es[i].key != key
  {
    if es == [] then 0
    else if es[|es| - 1].key == key then |es| - 1
    else
      var q := LastWith(es[..|es| - 1], key);
      if q == |es| - 1 then |es| else q
  }

  function Kill(es: seq<Entry>, q: nat): (r: seq<Entry>)
    requires q < |es|
    ensures |r| == |es|
  {
    es[q := es[q].(key := DEAD)]
  }

  lemma AppendContents(es: seq<Entry>, e: Entry)
    ensures Contents(es + [e]) == if e.Live() then Contents(es)[e.key - 1 := e.Value()] else Contents(es)
    ensures LiveCount(es + [e]) == LiveCount(es) + (if e.Live() then 1 else 0)
  {
    assert (es + [e])[..|es|] == es;
  }

  /** Replacing an entry that does not count by another that does not count. */
  lemma {:induction false} SetDead(es: seq<Entry>, q: nat, e: Entry)
    requires q < |es| && !es[q].Live() && !e.Live()
    ensures Contents(es[q := e]) == Contents(es) && LiveCount(es[q := e]) == LiveCount(es)
  {
    var n := |es| - 1;
    if q < n {
      SetDead(es[..n], q, e);
      assert es[q := e][..n] == es[..n][q := e];
    } else {
      assert es[q := e][..n] == es[..n];
    }
  }

  /** Killing an entry that a later one with the same key shadows changes no
      value; it frees one live slot. */
  lemma {:induction false} KillShadowed(es: seq<Entry>, q: nat, later: nat)
    requires q < later < |es| && es[q].key == es[later].key && es[q].Live()
    ensures Contents(Kill(es, q)) == Contents(es)
    ensures LiveCount(Kill(es, q)) == LiveCount(es) - 1
  {
    var n := |es| - 1;
    assert Kill(es, q)[..n] == Kill(es[..n], q);
    if later < n {
      KillShadowed(es[..n], q, later);
    } else {
      KillErases(es[..n], q);
      var id := es[q].key - 1;
      assert Contents(es[..n])[id := es[n].Value()] == Contents(Kill(es[..n], q))[id := es[n].Value()];
    }
  }

  ghost predicate AgreeExcept(a: map<u8, nat>, b: map<u8, nat>, id: u8) {
    forall x :: x != id ==> (x in a <==> x in b) && (x in a ==> a[x] == b[x])
  }

  /** Killing an entry touches the value of its own id only. */
  lemma {:induction false} KillErases(es: seq<Entry>, q: nat)
    requires q < |es| && es[q].Live()
    ensures AgreeExcept(Contents(Kill(es, q)), Contents(es), es[q].key - 1)
    ensures LiveCount(Kill(es, q)) == LiveCount(es) - 1
  {
    var n := |es| - 1;
    if q < n {
      KillErases(es[..n], q);
      assert Kill(es, q)[..n] == Kill(es[..n], q);
    } else {
      assert Kill(es, q)[..n] == es[..n];
    }
  }

  /** An id has a value exactly when some entry carries it, and the value is
      that of the last one. */
  lemma {:induction false} ContentsIsLast(es: seq<Entry>, id: u8)
    requires id <= 253
    ensures id in Contents(es) <==> LastWith(es, id + 1) < |es|
    ensures id in Contents(es) ==> Contents(es)[id] == es[LastWith(es, id + 1)].Value()
  {
    if es != [] {
      ContentsIsLast(es[..|es| - 1], id);
    }
  }

  lemma {:induction false} ContentsIds(es: seq<Entry>)
    ensures forall id :: id in Contents(es) ==> id <= 253
  {
    if es != [] {
      ContentsIds(es[..|es| - 1]);
    }
  }

  lemma {:induction false} LiveOnlyKeepsContents(es: seq<Entry>)
    ensures Contents(LiveOnly(es)) == Contents(es)
    ensures |LiveOnly(es)| == LiveCount(es) == LiveCount(LiveOnly(es)) <= |es|
  {
    if es != [] {
      var front := es[..|es| - 1];
      LiveOnlyKeepsContents(front);
      assert LiveOnly(front) + [] == LiveOnly(front);
      AppendContents(LiveOnly(front), es[|es| - 1]);
    }
  }

  /** A table that loses nothing by dropping what is not live is live throughout. */
  lemma {:induction false} AllLive(es: seq<Entry>)
    requires |LiveOnly(es)| == |es|
    ensures LiveOnly(es) == es
  {
    if es != [] { AllLive(es[..|es| - 1]); }
  }

  /** Live entries that some later live entry with the same key shadows. Only a
      power loss can leave any. */
  function Duplicates(es: seq<Entry>): int {
    LiveCount(es) - |Contents(es)|
  }

  lemma {:induction false} DuplicatesNonNegative(es: seq<Entry>)
    ensures Duplicates(es) >= 0
  {
    if es != [] {
      DuplicatesNonNegative(es[..|es| - 1]);
    }
  }

  lemma {:induction false} SmallIds(s: set<u8>, n: nat)
    requires forall x :: x in s ==> x < n
    ensures |s| <= n
  {
    if n > 0 {
      SmallIds(s - {n - 1}, n - 1);
    } else {
      assert s == {};
    }
  }

  /** There are 254 ids, so live entries beyond 254 are all duplicates. */
  lemma LiveBound(es: seq<Entry>)
    ensures LiveCount(es) <= 254 + Duplicates(es)
  {
    ContentsIds(es);
    SmallIds(Contents(es).Keys, 254);
    assert |Contents(es)| == |Contents(es).Keys|;
  }

  // --- single byte programs, seen as changes of the entry list ---

  lemma ProgramSize(b: Bytes, es: seq<Entry>)
    requires Holds(b, es) && |es| < MAX_ENTRIES
    ensures Holds(b[1 + 4 * |es| := ELEMENT_SIZE], es + [UNCOMMITTED])
  {
    var c := b[1 + 4 * |es| := ELEMENT_SIZE];
    forall i | 0 <= i < |es| + 1 ensures EntryAt(c, i, (es + [UNCOMMITTED])[i]) {
      if i < |es| { assert EntryAt(b, i, es[i]); }
    }
  }

  /** Programming the key, high or low byte of entry q (field 0, 1, 2). */
  lemma ProgramField(b: Bytes, es: seq<Entry>, q: nat, field: nat, v: u8)
    requires Holds(b, es) && q < |es| && field < 3
    ensures Holds(b[2 + 4 * q + field := v], es[q := SetField(es[q], field, v)])
  {
    var c := b[2 + 4 * q + field := v];
    var r := es[q := SetField(es[q], field, v)];
    forall i | 0 <= i < |es| ensures EntryAt(c, i, r[i]) {
      assert EntryAt(b, i, es[i]);
    }
  }

  function SetField(e: Entry, field: nat, v: u8): Entry
    requires field < 3
  {
    if field == 0 then e.(key := v) else if field == 1 then e.(hi := v) else e.(lo := v)
  }

  lemma ProgramStatus(b: Bytes, es: seq<Entry>, v: u8)
    requires Holds(b, es)
    ensures Holds(b[0 := v], es)
  {
    forall i | 0 <= i < |es| ensures EntryAt(b[0 := v], i, es[i]) {
      assert EntryAt(b, i, es[i]);
    }
  }
}
