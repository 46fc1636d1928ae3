/** Storing a value: the byte programs of flash_write_no_recovery, and what a
    power loss after any of them leaves behind. */
module FlashWrite {
  import opened Common
  import opened FlashTable
  import opened FlashImage

  function Key(id: u8): u8 { (id + 1) % 256 }

  function NewEntry(id: u8, v: nat): Entry
    requires v < 0x1_0000
  {
    Entry(Key(id), v / 256, v % 256)
  }

  /** The entry the write will kill: the first with the key. The scan also looks
      at the blank key just past the table, which matters for key 0xFF only. */
  function OldEntry(es: seq<Entry>, key: u8): (r: seq<nat>)
    ensures |r| <= 1 && (r != [] ==> r[0] <= |es|)
  {
    var q := FirstWith(es, key);
    if q < |es| then [q] else if key == BLANK then [|es|] else []
  }

  /** The k-th program that appends `e` to a table of n entries: size, high byte,
      low byte, key (the commit), then the key of the old entry. */
  function WriteStep(b: Block, n: nat, e: Entry, prev: seq<nat>, k: nat): Step
    requires k < 4 + |prev|
  {
    if k == 0 then Program(b, 1 + 4 * n, ELEMENT_SIZE)
    else if k == 1 then Program(b, 3 + 4 * n, e.hi)
    else if k == 2 then Program(b, 4 + 4 * n, e.lo)
    else if k == 3 then Program(b, 2 + 4 * n, e.key)
    else Program(b, 2 + 4 * prev[k - 4], DEAD)
  }

  function StepsFor(b: Block, n: nat, e: Entry, prev: seq<nat>): (r: seq<Step>)
    requires |prev| <= 1
    ensures |r| == 4 + |prev|
    ensures forall k :: 0 <= k < |r| ==> r[k] == WriteStep(b, n, e, prev, k)
  {
    [WriteStep(b, n, e, prev, 0), WriteStep(b, n, e, prev, 1), WriteStep(b, n, e, prev, 2), WriteStep(b, n, e, prev, 3)]
    + (if prev == [] then [] else [WriteStep(b, n, e, prev, 4)])
  }

  function WriteSteps(b: Block, es: seq<Entry>, id: u8, v: nat): seq<Step>
    requires v < 0x1_0000
  {
    StepsFor(b, |es|, NewEntry(id, v), OldEntry(es, Key(id)))
  }

  /** The table after k of those programs. */
  function TableAfter(es: seq<Entry>, e: Entry, prev: seq<nat>, k: nat): seq<Entry>
    requires |prev| <= 1 && (prev != [] ==> prev[0] <= |es|) && k <= 4 + |prev|
  {
    if k == 0 then es
    else if k == 1 then es + [UNCOMMITTED]
    else if k == 2 then es + [Entry(BLANK, e.hi, BLANK)]
    else if k == 3 then es + [Entry(BLANK, e.hi, e.lo)]
    else if k == 4 then es + [e]
    else Kill(es + [e], prev[0])
  }

  function WrittenTable(es: seq<Entry>, id: u8, v: nat, k: nat): seq<Entry>
    requires v < 0x1_0000
    requires k <= 4 + |OldEntry(es, Key(id))|
  {
    TableAfter(es, NewEntry(id, v), OldEntry(es, Key(id)), k)
  }

  /** What storing should do to the map: ids 254 and 255 are not storable, their
      keys being the uncommitted and the dead mark. */
  function Put(m: map<u8, nat>, id: u8, v: nat): map<u8, nat> {
    if id <= 253 then m[id := v] else m
  }

  lemma WriteByte(bytes: Bytes, b: Block, es: seq<Entry>, e: Entry, prev: seq<nat>, k: nat)
    requires |es| < MAX_ENTRIES && |prev| <= 1 && (prev != [] ==> prev[0] <= |es|) && k < 4 + |prev|
    requires Holds(bytes, TableAfter(es, e, prev, k))
    ensures var s := WriteStep(b, |es|, e, prev, k);
            1 <= s.at < BLOCK_SIZE && Holds(bytes[s.at := s.val], TableAfter(es, e, prev, k + 1))
  {
    var t := TableAfter(es, e, prev, k);
    if k == 0 {
      ProgramSize(bytes, t);
    } else if k == 4 {
      ProgramField(bytes, t, prev[0], 0, DEAD);
    } else {
      var field := if k == 3 then 0 else k;
      var s := WriteStep(b, |es|, e, prev, k);
      ProgramField(bytes, t, |es|, field, s.val);
      assert t[|es| := SetField(t[|es|], field, s.val)] == TableAfter(es, e, prev, k + 1);
    }
  }

  lemma {:induction false} WriteBytes(img: Image, b: Block, es: seq<Entry>, e: Entry, prev: seq<nat>, k: nat)
    requires Holds(img.At(b), es) && |es| < MAX_ENTRIES
    requires |prev| <= 1 && (prev != [] ==> prev[0] <= |es|) && k <= 4 + |prev|
    ensures var r := Run(img, StepsFor(b, |es|, e, prev), k);
            && Holds(r.At(b), TableAfter(es, e, prev, k))
            && r.At(b.Other()) == img.At(b.Other()) && r.At(b)[0] == img.At(b)[0]
  {
    if k > 0 {
      var steps := StepsFor(b, |es|, e, prev);
      WriteBytes(img, b, es, e, prev, k - 1);
      WriteByte(Run(img, steps, k - 1).At(b), b, es, e, prev, k - 1);
    }
  }

  /** The commit point: before the key byte the map is the old one, after it the
      new one, and the final kill changes nothing. Only a power loss between
      commit and kill adds a duplicate. */
  lemma WriteContents(es: seq<Entry>, id: u8, v: nat, k: nat)
    requires v < 0x1_0000 && k <= 4 + |OldEntry(es, Key(id))|
    ensures Contents(WrittenTable(es, id, v, k)) == if k < 4 then Contents(es) else Put(Contents(es), id, v)
    ensures Duplicates(WrittenTable(es, id, v, k)) <= Duplicates(es) + (if k == 4
          && |OldEntry(es, Key(id))| == 1 then 1 else 0)
  {
    if k == 0 {
    } else if k < 4 {
      var e := NewEntry(id, v);
      var x := Entry(BLANK, if k >= 2 then e.hi else BLANK, if k == 3 then e.lo else BLANK);
      assert WrittenTable(es, id, v, k) == es + [x];
      AppendContents(es, x);
    } else {
      CommitContents(es, id, v);
      if k == 5 {
        KillContents(es, id, NewEntry(id, v));
      }
    }
  }

  lemma CommitContents(es: seq<Entry>, id: u8, v: nat)
    requires v < 0x1_0000
    ensures var t := es + [NewEntry(id, v)];
            && Contents(t) == Put(Contents(es), id, v)
            && Duplicates(t) == Duplicates(es) + (if id <= 253 && |OldEntry(es, Key(id))| == 1 then 1 else 0)
  {
    hide Contents, FirstWith;
    AppendContents(es, NewEntry(id, v));
    if id <= 253 {
      assert NewEntry(id, v).Value() == v;
      FirstIffStored(es, id);
    }
  }

  lemma KillContents(es: seq<Entry>, id: u8, e: Entry)
    requires e.key == Key(id) && |OldEntry(es, Key(id))| == 1
    ensures var t := es + [e]; var q := OldEntry(es, Key(id))[0];
            && Contents(Kill(t, q)) == Contents(t)
            && Duplicates(Kill(t, q)) == Duplicates(t) - (if id <= 253 then 1 else 0)
  {
    var q := OldEntry(es, Key(id))[0];
    if id <= 253 {
      KillShadowed(es + [e], q, |es|);
    } else {
      SetDead(es + [e], q, (es + [e])[q].(key := DEAD));
    }
  }

  lemma FirstIffStored(es: seq<Entry>, id: u8)
    requires id <= 253
    ensures id in Contents(es) <==> FirstWith(es, id + 1) < |es|
  {
    ContentsIsLast(es, id);
  }

  /** Crash-atomic write. Power may fail after any k of the programs; the next
      boot then finds the old map or the new one, never anything else, and which
      one is decided by the fourth program alone. */
  lemma WriteCrashAtomic(img: Image, ram: Ram, id: u8, v: nat, k: nat)
    requires Ready(img, ram) && |Stored(img)| < MAX_ENTRIES && v < 0x1_0000
    requires k <= |WriteSteps(ram.active, Stored(img), id, v)|
    ensures var r := Run(img, WriteSteps(ram.active, Stored(img), id, v), k);
            && Bootable(r) && Stored(r) == WrittenTable(Stored(img), id, v, k)
            && Meaning(r) == if k < 4 then Meaning(img) else Put(Meaning(img), id, v)
  {
    var es := Stored(img);
    WriteBytes(img, ram.active, es, NewEntry(id, v), OldEntry(es, Key(id)), k);
    WriteContents(es, id, v, k);
    SoleBlock(Run(img, WriteSteps(ram.active, es, id, v), k), ram.active, WrittenTable(es, id, v, k));
  }

  /** A completed write leaves the store ready, with its pointer on blank flash. */
  lemma WriteCompletes(img: Image, ram: Ram, id: u8, v: nat)
    requires Ready(img, ram) && |Stored(img)| < MAX_ENTRIES && v < 0x1_0000
    ensures var r := RunAll(img, WriteSteps(ram.active, Stored(img), id, v));
            && Ready(r, ram.(ptr := ram.ptr + 4)) && Meaning(r) == Put(Meaning(img), id, v)
            && Duplicates(Stored(r)) <= Duplicates(Stored(img)) && |Stored(r)| == |Stored(img)| + 1
  {
    var es := Stored(img);
    var steps := WriteSteps(ram.active, es, id, v);
    WriteBytes(img, ram.active, es, NewEntry(id, v), OldEntry(es, Key(id)), |steps|);
    WriteContents(es, id, v, |steps|);
    SoleBlock(RunAll(img, steps), ram.active, WrittenTable(es, id, v, |steps|));
    HoldsUnique(RunAll(img, steps).At(ram.active), WrittenTable(es, id, v, |steps|));
  }

  /** No program of a write needs an erase first. */
  lemma WriteLegal(img: Image, b: Block, es: seq<Entry>, e: Entry, prev: seq<nat>)
    requires Holds(img.At(b), es) && |es| < MAX_ENTRIES
    requires |prev| <= 1 && (prev != [] ==> prev[0] <= |es|)
    ensures Legal(img, StepsFor(b, |es|, e, prev))
  {
    var steps := StepsFor(b, |es|, e, prev);
    forall k | 0 <= k < |steps| ensures LegalAt(img, steps, k) {
      WriteBytes(img, b, es, e, prev, k);
      if 1 <= k <= 3 {
        assert EntryAt(Run(img, steps, k).At(b), |es|, TableAfter(es, e, prev, k)[|es|]);
      }
    }
  }
}
