/** The flash store as the code runs it: two byte arrays changed in place, a
    write pointer in RAM, and scans that step over entries. Every method says
    which steps it appended to the log, so the crash lemmas apply to it. */
module FlashStore {
  import opened Common
  import opened FlashTable
  import opened FlashImage
  import opened FlashWrite
  import opened FlashCollect
  import opened FlashRun

  class Store {
    const first: array<u8>
    const second: array<u8>
    var base: Block
    var unused: Block
    var ptr: nat
    var top: nat
    ghost const origin: Image
    ghost var log: seq<Step>

    function Part(b: Block): array<u8> { if b == First then first else second }

    ghost function Img(): Image
      requires Sized()
      reads first, second
    {
      Image(first[..], second[..])
    }

    ghost predicate Sized() {
      first != second && first.Length == BLOCK_SIZE && second.Length == BLOCK_SIZE
    }

    ghost function Regs(): Ram
      reads this
    {
      Ram(base, ptr, top)
    }

    /** The memory is what the logged steps made of the original image. */
    ghost predicate Logged()
      reads this, first, second
    {
      && Sized()
      && Img() == RunAll(origin, log)
    }

    ghost predicate Valid()
      reads this, first, second
    {
      Logged() && unused == base.Other() && Ready(Img(), Regs())
    }

    /** Power-up over whatever the flash holds; RAM is arbitrary. */
    constructor (f: array<u8>, s: array<u8>)
      requires f != s && f.Length == BLOCK_SIZE && s.Length == BLOCK_SIZE
      ensures Logged() && first == f && second == s && log == []
    {
      first, second := f, s;
      base, unused, ptr, top := First, First, 0, 0;
      origin := Image(f[..], s[..]);
      log := [];
    }

    method ProgramByte(b: Block, at: nat, val: u8)
      requires Logged() && at < BLOCK_SIZE
      requires Part(b)[at] == BLANK || val == 0
      modifies Part(b), `log
      ensures Logged() && log == old(log) + [Program(b, at, val)]
      ensures Part(b)[..] == old(Part(b)[..])[at := val]
    {
      Part(b)[at] := val;
      log := log + [Program(b, at, val)];
      RunLast(origin, old(log), Program(b, at, val));
    }

    method EraseBlock(b: Block)
      requires Logged()
      modifies Part(b), `log
      ensures Logged() && log == old(log) + [Erase(b)]
      ensures Img() == Apply(old(Img()), Erase(b))
    {
      var a := Part(b);
      for i := 0 to BLOCK_SIZE
        invariant forall j :: 0 <= j < i ==> a[j] == BLANK
        invariant log == old(log)
        invariant b == First ==> second[..] == old(second[..])
        invariant b == Second ==> first[..] == old(first[..])
      {
        a[i] := BLANK;
      }
      log := log + [Erase(b)];
      assert a[..] == Apply(old(Img()), Erase(b)).At(b);
      RunLast(origin, old(log), Erase(b));
    }

    /** Step over entries from the first to the blank that ends the table. */
    method FindTop(b: Block) returns (p: nat)
      requires Logged() && Table(Part(b)[..])
      ensures p == 1 + 4 * |Entries(Part(b)[..])|
    {
      ghost var es := Entries(Part(b)[..]);
      p := 1;
      ghost var i := 0;
      while p < BLOCK_SIZE && Part(b)[p] != BLANK
        invariant i <= |es| && p == 1 + 4 * i
        invariant i < |es| ==> EntryAt(Part(b)[..], i, es[i])
        decreases |es| - i
      {
        p := p + Part(b)[p] + 2;
        i := i + 1;
      }
    }

    /** The choice between the two blocks, and the retirement of the loser. */
    method ChooseBlock()
      requires Logged() && Bootable(Img())
      modifies this, first, second
      ensures Logged() && log == old(log) + BootSteps(old(Img()))
      ensures base == Chosen(old(Img())) && unused == base.Other()
    {
      if first[0] == IN_USE && second[0] == IN_USE {
        var size1 := FindTop(First);
        var size2 := FindTop(Second);
        if size2 <= size1 {
          base, unused := Second, First;
          ProgramByte(First, 0, INVALID);
        } else {
          base, unused := First, Second;
          ProgramByte(Second, 0, INVALID);
        }
      } else if first[0] == IN_USE {
        base, unused := First, Second;
      } else if second[0] == IN_USE {
        base, unused := Second, First;
      } else {
        base, unused := First, Second;
        ProgramByte(First, 0, IN_USE);
      }
    }

    /** flash_set_block: choose the block, retire the other, find the top. It
        needs nothing of the RAM, so it is also the recovery after a power loss. */
    method SetBlock()
      requires Logged() && Bootable(Img())
      modifies this, first, second
      ensures Valid() && log == old(log) + BootSteps(old(Img())) && Regs() == BootRam(old(Img()))
      ensures Meaning(Img()) == old(Meaning(Img()))
    {
      ghost var img, steps := Img(), BootSteps(Img());
      ChooseBlock();
      RunAllAppend(origin, old(log), steps);
      BootCrashSafe(img, |steps|);
      ptr := FindTop(base);
      top := 1 + BLOCK_SIZE;
    }

    /** The first entry with the key, or the blank key beyond the table. */
    method FindOld(key: u8, ghost es: seq<Entry>) returns (scan: nat)
      requires Logged() && Holds(Part(base)[..], es) && |es| < MAX_ENTRIES
      ensures scan == 1 + 4 * FirstWith(es, key) && scan + 1 < BLOCK_SIZE
      ensures Part(base)[scan + 1] == key <==> OldEntry(es, key) != []
    {
      var a := Part(base);
      ghost var i, q := 0, FirstWith(es, key);
      scan := 1;
      while a[scan + 1] != key && a[scan] != BLANK
        invariant i <= q && scan == 1 + 4 * i
        decreases |es| - i
      {
        assert i < |es| && EntryAt(a[..], i, es[i]);
        scan := scan + a[scan] + 2;
        i := i + 1;
      }
      assert i < |es| ==> EntryAt(a[..], i, es[i]);
    }

    /** flash_write_no_recovery; its own check for room never fails here. */
    method WriteNoRecovery(id: u8, hi: u8, lo: u8, ghost v: u16) returns (ok: bool)
      requires v == hi * 256 + lo && Valid() && ptr < 1 + 4 * MAX_ENTRIES
      modifies this, first, second
      ensures ok && Valid() && Regs() == old(Regs()).(ptr := old(ptr) + 4)
      ensures log == old(log) + WriteSteps(base, old(Stored(Img())), id, v)
      ensures Meaning(Img()) == Put(old(Meaning(Img())), id, v)
    {
      ok := ptr <= top - (ELEMENT_SIZE + 1);
      if ok {
        ghost var img, es := Img(), Stored(Img());
        var scan := FindOld(Key(id), es);
        var hasOld := Part(base)[scan + 1] == Key(id);
        SplitValue(id, hi, lo, v);
        assert OldEntry(es, Key(id)) == if hasOld then [FirstWith(es, Key(id))] else [];
        Append(Key(id), hi, lo, hasOld, scan + 1, |es|, FirstWith(es, Key(id)));
        WriteLogged(origin, old(log), img, old(Regs()), id, v);
      }
    }

    /** The byte programs of a write: size, value, then the key that commits, then
        the kill of the old entry. The ghost n and q index entries. */
    method Append(key: u8, hi: u8, lo: u8, hasOld: bool, oldAt: nat, ghost n: nat, ghost q: nat)
      requires Logged() && ptr == 1 + 4 * n && ptr + 4 <= BLOCK_SIZE && oldAt == 2 + 4 * q < BLOCK_SIZE
      requires forall j :: ptr <= j < ptr + 4 ==> Part(base)[j] == BLANK
      modifies Part(base), `log, `ptr
      ensures Logged() && ptr == old(ptr) + 4
      ensures log == old(log) + StepsFor(base, n, Entry(key, hi, lo), if hasOld then [q] else [])
    {
      AppendEntry(key, hi, lo, n);
      if hasOld {
        ProgramByte(base, oldAt, DEAD);
      }
    }

    /** All of those but the kill. */
    method AppendEntry(key: u8, hi: u8, lo: u8, ghost n: nat)
      requires Logged() && ptr == 1 + 4 * n && ptr + 4 <= BLOCK_SIZE
      requires forall j :: ptr <= j < ptr + 4 ==> Part(base)[j] == BLANK
      modifies Part(base), `log, `ptr
      ensures Logged() && ptr == old(ptr) + 4
      ensures log == old(log) + StepsFor(base, n, Entry(key, hi, lo), [])
    {
      hide RunAll;
      ProgramByte(base, ptr, ELEMENT_SIZE);
      ptr := ptr + 2;
      ProgramByte(base, ptr, hi);
      ProgramByte(base, ptr + 1, lo);
      ptr := ptr + 2;
      ProgramByte(base, ptr - (ELEMENT_SIZE + 1), key);
    }

    /** Copy one entry of n value bytes: size, key, then the value. */
    method CopyOut(from: nat, to: nat, ghost m: nat, ghost e: Entry)
      requires Logged() && unused == base.Other() && from + 4 <= BLOCK_SIZE && to == 1 + 4 * m && to + 4 <= BLOCK_SIZE
      requires Part(base)[from] == ELEMENT_SIZE && Part(base)[from + 1] == e.key
      requires Part(base)[from + 2] == e.hi && Part(base)[from + 3] == e.lo
      requires forall j :: to <= j < BLOCK_SIZE ==> Part(unused)[j] == BLANK
      modifies Part(unused), `log
      ensures Logged() && log == old(log) + CopyEntry(unused, m, e)
      ensures forall j :: to + 4 <= j < BLOCK_SIZE ==> Part(unused)[j] == BLANK
      ensures Part(unused)[0] == old(Part(unused)[0])
    {
      var n := Part(base)[from];
      ProgramByte(unused, to, n);
      ProgramByte(unused, to + 1, Part(base)[from + 1]);
      CopyValue(from + 2, to + 2, n, e);
      assert CopyEntry(unused, m, e) == [Program(unused, to, ELEMENT_SIZE)] + [Program(unused, to + 1, e.key)]
                                        + [Program(unused, to + 2, e.hi), Program(unused, to + 3, e.lo)];
    }

    method CopyValue(from: nat, to: nat, n: u8, ghost e: Entry)
      requires Logged() && unused == base.Other() && n == ELEMENT_SIZE
      requires from + 2 <= BLOCK_SIZE && 1 <= to && to + 2 <= BLOCK_SIZE
      requires Part(base)[from] == e.hi && Part(base)[from + 1] == e.lo
      requires forall j :: to <= j < BLOCK_SIZE ==> Part(unused)[j] == BLANK
      modifies Part(unused), `log
      ensures Logged() && log == old(log) + [Program(unused, to, e.hi), Program(unused, to + 1, e.lo)]
      ensures forall j :: to + 2 <= j < BLOCK_SIZE ==> Part(unused)[j] == BLANK
      ensures Part(unused)[0] == old(Part(unused)[0])
    {
      for b := 0 to n
        invariant Logged()
        invariant log == if b == 0 then old(log) else if b == 1 then old(log) + [Program(unused, to, e.hi)]
                         else old(log) + [Program(unused, to, e.hi)] + [Program(unused, to + 1, e.lo)]
        invariant forall j :: to + b <= j < BLOCK_SIZE ==> Part(unused)[j] == BLANK
        invariant Part(unused)[0] == old(Part(unused)[0])
      {
        ProgramByte(unused, to + b, Part(base)[from + b]);
      }
    }

    /** flash_write_int: collect when the table is full, then append. At most 510
        live entries must be left, which PutStaysInside shows to be exact. */
    method WriteInt(id: u8, value: u16) returns (ok: bool)
      requires Valid() && LiveCount(Stored(Img())) <= 510
      modifies this, first, second
      ensures ok && Valid() && Meaning(Img()) == Put(old(Meaning(Img())), id, value)
      ensures log == old(log) + PutSteps(old(Img()), old(Regs()), id, value)
    {
      var hi: u8, lo: u8 := value / 256, value % 256;
      assert hi * 256 + lo == value;
      PutStepsParts(log, Img(), Regs(), id, value);
      MakeRoom();
      ok := WriteNoRecovery(id, hi, lo, value);
    }

    /** The first half of flash_write_int. */
    method MakeRoom()
      requires Valid() && LiveCount(Stored(Img())) <= 510
      modifies this, first, second
      ensures Valid() && Regs() == PutRam(old(Img()), old(Regs())) && ptr < 1 + 4 * MAX_ENTRIES
      ensures Meaning(Img()) == old(Meaning(Img()))
      ensures Stored(Img()) == if Full(old(Regs())) then LiveOnly(old(Stored(Img()))) else old(Stored(Img()))
      ensures log == if Full(old(Regs())) then old(log) + GcSteps(old(base), old(Stored(Img()))) else old(log)
    {
      if ptr >= top - (ELEMENT_SIZE + 2) {
        CollectGarbage();
      }
    }

    /** flash_read_int: the last entry with the key counts, and each earlier one is
        killed when the next is met. */
    method ReadInt(id: u8) returns (value: Option<nat>)
      requires Valid()
      modifies Part(base), `log
      ensures Valid() && Meaning(Img()) == old(Meaning(Img()))
      ensures log == old(log) + ReadSteps(base, old(Stored(Img())), Key(id))
      ensures value == Reported(old(Stored(Img())), id)
    {
      hide RunAll, ReadSteps, LastWith, EntryOffset, Contents, Reported;
      ghost var img, es, b: Bytes := Img(), Stored(Img()), Part(base)[..];
      ReadValue(b, es, id);
      var found := ScanLast(Key(id), es, b);
      value := if found == 0 then None else Some(Word(Part(base)[found + 2], Part(base)[found + 3]));
      assert value == Reported(es, id);
      ReadLogged(origin, old(log), img, Regs(), Key(id));
    }

    /** The state of the read's scan before entry i: `found` is the last match so
        far (0 stands for the null pointer), and what lies ahead is unchanged. */
    ghost predicate Scanned(key: u8, es: seq<Entry>, bytes: Bytes, log0: seq<Step>, i: nat, found: nat)
      reads this, first, second
    {
      && Logged() && i <= |es| && Holds(bytes, es)
      && log == log0 + ReadSteps(base, es[..i], key) && found == EntryOffset(es[..i], key)
      && (forall j :: 1 + 4 * i <= j < BLOCK_SIZE ==> Part(base)[j] == bytes[j])
      && (found != 0 ==>
            && found + 3 <= 4 * i
            && Part(base)[found + 2] == bytes[found + 2] && Part(base)[found + 3] == bytes[found + 3])
    }

    /** The scanning loop of the read. */
    method ScanLast(key: u8, ghost es: seq<Entry>, ghost bytes: Bytes) returns (found: nat)
      requires Logged() && Part(base)[..] == bytes && Holds(bytes, es) && BLOCK_SIZE <= top
      modifies Part(base), `log
      ensures Logged() && log == old(log) + ReadSteps(base, es, key) && found == EntryOffset(es, key)
      ensures found != 0 ==>
                && found + 3 < BLOCK_SIZE
                && Part(base)[found + 2] == bytes[found + 2] && Part(base)[found + 3] == bytes[found + 3]
    {
      hide ReadSteps, EntryOffset, EntryAt;
      ghost var i := 0;
      var scan := 1;
      found := 0;
      ScanStart(base, es, key);
      TableEnd(bytes, es, 0);
      while Part(base)[scan] != BLANK && scan < top
        invariant Scanned(key, es, bytes, old(log), i, found) && scan == 1 + 4 * i
        invariant bytes[scan] == BLANK <==> i == |es|
        decreases |es| - i
      {
        found, scan := VisitEntry(scan, found, key, es, bytes, old(log), i);
        i := i + 1;
        TableEnd(bytes, es, i);
      }
    }

    /** One entry of that scan: a match kills the previous match. */
    method VisitEntry(scan: nat, found: nat, key: u8, ghost es: seq<Entry>, ghost bytes: Bytes,
            ghost log0: seq<Step>, ghost i: nat)
      returns (found': nat, scan': nat)
      requires i < |es| && scan == 1 + 4 * i && Scanned(key, es, bytes, log0, i, found)
      modifies Part(base), `log
      ensures Scanned(key, es, bytes, log0, i + 1, found') && scan' == scan + 4
    {
      hide LastWith, ReadSteps, RunAll, EntryOffset;
      assert EntryAt(bytes, i, es[i]);
      ReadNext(log0, base, es, key, i);
      found' := found;
      if Part(base)[scan + 1] == key {
        if found != 0 {
          ProgramByte(base, found + 1, DEAD);
        }
        found' := scan;
      }
      scan' := scan + Part(base)[scan] + 2;
    }

    /** flash_garbage_collector: copy the live entries to the erased spare block
        and only then hand over. */
    method CollectGarbage()
      requires Valid()
      modifies this, first, second
      ensures Valid() && Regs() == GcRam(old(Regs()), old(Stored(Img())))
      ensures log == old(log) + GcSteps(old(base), old(Stored(Img())))
      ensures Meaning(Img()) == old(Meaning(Img())) && Stored(Img()) == LiveOnly(old(Stored(Img())))
    {
      ghost var img, es, ram := Img(), Stored(Img()), Regs();
      EraseBlock(unused);
      var code := CopyLive(es);
      HandOver(code);
      GcStepsParts(old(log), ram.active, es);
      GcLogged(origin, old(log), img, ram);
    }

    /** The copy becomes the table: RAM first, then its status byte, then the end
        of the old block. */
    method HandOver(code: nat)
      requires Logged() && unused == base.Other() && Part(unused)[0] == BLANK
      modifies this, first, second
      ensures Logged() && base == old(unused) && unused == old(base) && ptr == code && top == BLOCK_SIZE
      ensures log == old(log) + [Program(base, 0, IN_USE)] + [Program(unused, 0, INVALID)]
    {
      ptr := code;
      base, unused := unused, base;
      top := BLOCK_SIZE;
      ProgramByte(base, 0, IN_USE);
      ProgramByte(unused, 0, INVALID);
    }

    /** The state of the copying before entry i: `code` is the end of the copy. */
    ghost predicate Copied(es: seq<Entry>, bytes: Bytes, log0: seq<Step>, i: nat, code: nat)
      reads this, first, second
    {
      && Logged() && unused == base.Other() && i <= |es| && Holds(bytes, es) && Part(base)[..] == bytes
      && log == log0 + CopySteps(unused, es[..i]) && code == 1 + 4 * LiveCount(es[..i]) <= 1 + 4 * i
      && Part(unused)[0] == BLANK && (forall j :: code <= j < BLOCK_SIZE ==> Part(unused)[j] == BLANK)
    }

    /** The copying loop of the collector. */
    method CopyLive(ghost es: seq<Entry>) returns (code: nat)
      requires Logged() && unused == base.Other() && Holds(Part(base)[..], es)
      requires forall j :: 0 <= j < BLOCK_SIZE ==> Part(unused)[j] == BLANK
      modifies Part(unused), `log
      ensures Logged() && code == 1 + 4 * LiveCount(es) && Part(unused)[0] == BLANK
      ensures log == old(log) + CopySteps(unused, es)
    {
      hide RunAll, CopySteps, EntryAt, LiveCount;
      ghost var i, bytes: Bytes := 0, Part(base)[..];
      var scan := 1;
      code := 1;
      CopyStart(unused, es);
      TableEnd(bytes, es, 0);
      while scan < BLOCK_SIZE && Part(base)[scan] != BLANK
        invariant Copied(es, bytes, old(log), i, code) && scan == 1 + 4 * i
        invariant bytes[scan] == BLANK <==> i == |es|
        decreases |es| - i
      {
        scan, code := CopyOrSkip(scan, code, es, bytes, old(log), i);
        i := i + 1;
        TableEnd(bytes, es, i);
      }
    }

    /** One round of that loop: a live entry is copied, any other stepped over. */
    method CopyOrSkip(from: nat, to: nat, ghost es: seq<Entry>, ghost bytes: Bytes, ghost log0: seq<Step>, ghost i: nat)
      returns (scan: nat, code: nat)
      requires i < |es| && from == 1 + 4 * i && Copied(es, bytes, log0, i, to)
      modifies Part(unused), `log
      ensures Copied(es, bytes, log0, i + 1, code) && scan == from + 4
    {
      assert EntryAt(bytes, i, es[i]);
      CopyNext(log0, unused, es, i);
      if Part(base)[from + 1] != DEAD && Part(base)[from + 1] != BLANK {
        CopyOut(from, to, LiveCount(es[..i]), es[i]);
        scan, code := from + 4, to + 4;
      } else {
        scan, code := from + Part(base)[from] + 2, to;
      }
    }
  }

  lemma CopyStart(u: Block, es: seq<Entry>)
    ensures CopySteps(u, es[..0]) == [] && LiveCount(es[..0]) == 0 && es[..|es|] == es
  {
    assert es[..0] == [];
  }

  lemma CopyNext(log: seq<Step>, u: Block, es: seq<Entry>, i: nat)
    requires i < |es|
    ensures LiveCount(es[..i + 1]) == LiveCount(es[..i]) + (if es[i].Live() then 1 else 0) <= i + 1
    ensures log + CopySteps(u, es[..i + 1])
            == log + CopySteps(u, es[..i]) + (if es[i].Live() then CopyEntry(u, LiveCount(es[..i]), es[i]) else [])
  {
    assert es[..i + 1][..i] == es[..i];
    LiveOnlyKeepsContents(es[..i]);
  }

  lemma GcStepsParts(log: seq<Step>, a: Block, es: seq<Entry>)
    ensures log + GcSteps(a, es)
            == log + [Erase(a.Other())] + CopySteps(a.Other(), es) + [Program(a.Other(), 0, IN_USE)]
                  + [Program(a, 0, INVALID)]
  {
  }

  /** Where the last entry with the key starts, 0 when there is none. */
  function EntryOffset(es: seq<Entry>, key: u8): nat {
    var q := LastWith(es, key);
    if q < |es| then 1 + 4 * q else 0
  }

  /** The two value bytes of the found entry are the reported value. */
  lemma ReadValue(b: Bytes, es: seq<Entry>, id: u8)
    requires Holds(b, es)
    ensures var found := EntryOffset(es, Key(id));
            Reported(es, id) == if found != 0 then Some(Word(b[found + 2], b[found + 3])) else None
    ensures id <= 253 ==> Reported(es, id) == if id in Contents(es) then Some(Contents(es)[id]) else None
  {
    var q := LastWith(es, Key(id));
    if q < |es| {
      assert EntryAt(b, q, es[q]);
    }
    if id <= 253 {
      ReadReports(es, id);
    }
  }

  /** Blank flash where an entry could start is the end of the table. */
  lemma TableEnd(b: Bytes, es: seq<Entry>, i: nat)
    requires Holds(b, es) && i <= |es|
    ensures b[1 + 4 * i] == BLANK <==> i == |es|
  {
    assert i < |es| ==> EntryAt(b, i, es[i]);
  }

  lemma ScanStart(b: Block, es: seq<Entry>, key: u8)
    ensures ReadSteps(b, es[..0], key) == [] && EntryOffset(es[..0], key) == 0 && es[..|es|] == es
  {
    assert es[..0] == [];
  }

  lemma ReadNext(log: seq<Step>, b: Block, es: seq<Entry>, key: u8, i: nat)
    requires i < |es|
    ensures var found := EntryOffset(es[..i], key);
            && EntryOffset(es[..i + 1], key) == (if es[i].key == key then 1 + 4 * i else found)
            && log + ReadSteps(b, es[..i + 1], key)
               == (if es[i].key == key && found != 0 then
                     log + ReadSteps(b, es[..i], key) + [Program(b, found + 1, DEAD)]
                   else log + ReadSteps(b, es[..i], key))
            && found <= 1 + 4 * i && (found != 0 ==> found % 4 == 1)
  {
    ReadOneMore(b, es, key, i);
    assert es[..i + 1][..i] == es[..i];
  }

  lemma PutStepsParts(log: seq<Step>, img: Image, ram: Ram, id: u8, v: u16)
    ensures log + PutSteps(img, ram, id, v)
            == if Full(ram) then
                 log + GcSteps(ram.active, Stored(img)) + WriteSteps(ram.active.Other(), LiveOnly(Stored(img)), id, v)
               else log + WriteSteps(ram.active, Stored(img), id, v)
  {
  }

  lemma ReadLogged(origin: Image, log: seq<Step>, img: Image, ram: Ram, key: u8)
    requires img == RunAll(origin, log) && Ready(img, ram)
    ensures var r := RunAll(origin, log + ReadSteps(ram.active, Stored(img), key));
            Ready(r, ram) && Meaning(r) == Meaning(img)
  {
    var steps := ReadSteps(ram.active, Stored(img), key);
    RunAllAppend(origin, log, steps);
    ReadCrashSafe(img, ram, key, |steps|);
  }

  lemma GcLogged(origin: Image, log: seq<Step>, img: Image, ram: Ram)
    requires img == RunAll(origin, log) && Ready(img, ram)
    ensures var r := RunAll(origin, log + GcSteps(ram.active, Stored(img)));
            Ready(r, GcRam(ram, Stored(img))) && Stored(r) == LiveOnly(Stored(img)) && Meaning(r) == Meaning(img)
  {
    RunAllAppend(origin, log, GcSteps(ram.active, Stored(img)));
    GcCompletes(img, ram);
  }

  lemma SplitValue(id: u8, hi: u8, lo: u8, v: u16)
    requires v == hi * 256 + lo
    ensures NewEntry(id, v) == Entry(Key(id), hi, lo)
  {
  }

  lemma WriteLogged(origin: Image, log: seq<Step>, img: Image, ram: Ram, id: u8, v: u16)
    requires img == RunAll(origin, log) && Ready(img, ram) && |Stored(img)| < MAX_ENTRIES
    ensures var r := RunAll(origin, log + WriteSteps(ram.active, Stored(img), id, v));
            Ready(r, ram.(ptr := ram.ptr + 4)) && Meaning(r) == Put(Meaning(img), id, v)
  {
    RunAllAppend(origin, log, WriteSteps(ram.active, Stored(img), id, v));
    WriteCompletes(img, ram, id, v);
  }
}
