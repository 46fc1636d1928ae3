/** Whole runs of the flash store: any sequence of boots, reads and writes, each
    possibly cut short by a power loss after any number of flash steps. */
module FlashRun {
  import opened Common
  import opened FlashTable
  import opened FlashImage
  import opened FlashWrite
  import opened FlashCollect

  /** flash_table_full: no room below `top`. */
  predicate Full(ram: Ram) { ram.ptr >= ram.top - (ELEMENT_SIZE + 2) }

  /** The check inside flash_write_no_recovery that makes it return 0. */
  predicate Rejects(ram: Ram) { ram.ptr > ram.top - (ELEMENT_SIZE + 1) }

  /** flash_write_int: collect first if the table is full, then append. */
  function PutSteps(img: Image, ram: Ram, id: u8, v: u16): seq<Step>
  {
    var es := Stored(img);
    if Full(ram) then GcSteps(ram.active, es) + WriteSteps(ram.active.Other(), LiveOnly(es), id, v)
    else WriteSteps(ram.active, es, id, v)
  }

  /** The RAM just before the append. */
  function PutRam(img: Image, ram: Ram): Ram
  {
    if Full(ram) then GcRam(ram, Stored(img)) else ram
  }

  lemma PutUnroll(img: Image, ram: Ram, id: u8, v: u16, k: nat)
    requires Full(ram) && k <= |PutSteps(img, ram, id, v)|
    ensures var gc := GcSteps(ram.active, Stored(img)); var app := WriteSteps(ram.active.Other(),
            LiveOnly(Stored(img)), id, v);
            Run(img, PutSteps(img, ram, id, v), k)
            == if k <= |gc| then Run(img, gc, k) else Run(RunAll(img, gc), app, k - |gc|)
  {
    var gc, app := GcSteps(ram.active, Stored(img)), WriteSteps(ram.active.Other(), LiveOnly(Stored(img)), id, v);
    if k <= |gc| {
      RunPrefix(img, gc, app, k);
    } else {
      RunAppend(img, gc, app, k - |gc|);
    }
  }

  /** After collection there is room, provided at most 510 entries are live. */
  lemma PutReady(img: Image, ram: Ram)
    requires Ready(img, ram) && LiveCount(Stored(img)) < MAX_ENTRIES
    ensures var mid := if Full(ram) then RunAll(img, GcSteps(ram.active, Stored(img))) else img;
            && Ready(mid, PutRam(img, ram)) && Meaning(mid) == Meaning(img) && |Stored(mid)| < MAX_ENTRIES
            && Stored(mid) == (if Full(ram) then LiveOnly(Stored(img)) else Stored(img))
            && Duplicates(Stored(mid)) == Duplicates(Stored(img)) && !Rejects(PutRam(img, ram))
  {
    if Full(ram) {
      GcCompletes(img, ram);
      LiveOnlyKeepsContents(Stored(img));
    }
  }

  lemma PutCutCollected(img: Image, ram: Ram, id: u8, v: u16, k: nat)
    requires Ready(img, ram) && LiveCount(Stored(img)) < MAX_ENTRIES && Full(ram)
    requires k <= |WriteSteps(ram.active.Other(), LiveOnly(Stored(img)), id, v)|
    ensures var r := Run(RunAll(img, GcSteps(ram.active, Stored(img))),
                         WriteSteps(ram.active.Other(), LiveOnly(Stored(img)), id, v), k);
            && Bootable(r) && (Meaning(r) == Meaning(img) || Meaning(r) == Put(Meaning(img), id, v))
            && Duplicates(Stored(r)) <= Duplicates(Stored(img)) + 1
  {
    PutReady(img, ram);
    WriteCrashAtomic(RunAll(img, GcSteps(ram.active, Stored(img))), GcRam(ram, Stored(img)), id, v, k);
    WriteContents(LiveOnly(Stored(img)), id, v, k);
  }

  lemma PutCutPlain(img: Image, ram: Ram, id: u8, v: u16, k: nat)
    requires Ready(img, ram) && !Full(ram) && k <= |WriteSteps(ram.active, Stored(img), id, v)|
    ensures var r := Run(img, WriteSteps(ram.active, Stored(img), id, v), k);
            && Bootable(r) && (Meaning(r) == Meaning(img) || Meaning(r) == Put(Meaning(img), id, v))
            && Duplicates(Stored(r)) <= Duplicates(Stored(img)) + 1
  {
    ReadyIsBootable(img, ram);
    WriteCrashAtomic(img, ram, id, v, k);
    WriteContents(Stored(img), id, v, k);
  }

  lemma PutCutCollecting(img: Image, ram: Ram, k: nat)
    requires Ready(img, ram) && k <= |GcSteps(ram.active, Stored(img))|
    ensures var r := Run(img, GcSteps(ram.active, Stored(img)), k);
            && Bootable(r) && Meaning(r) == Meaning(img) && Duplicates(Stored(r)) <= Duplicates(Stored(img)) + 1
  {
    hide Run, GcSteps;
    GcCrashSafe(img, ram, k);
    LiveOnlyKeepsContents(Stored(img));
  }

  /** A write with its possible collection, cut after k steps or complete, leaves
      the old map or the new one, and gains a duplicate only when cut. */
  lemma PutCrashAtomic(img: Image, ram: Ram, id: u8, v: u16, k: nat)
    requires Ready(img, ram) && LiveCount(Stored(img)) < MAX_ENTRIES && k <= |PutSteps(img, ram, id, v)|
    ensures var r := Run(img, PutSteps(img, ram, id, v), k);
            && Bootable(r) && (Meaning(r) == Meaning(img) || Meaning(r) == Put(Meaning(img), id, v))
            && Duplicates(Stored(r)) <= Duplicates(Stored(img)) + 1
  {
    hide Bootable, Ready, Meaning, Stored, Duplicates, LiveCount, Run, GcSteps, WriteSteps, Put, Full;
    if Full(ram) {
      var gc := GcSteps(ram.active, Stored(img));
      PutUnroll(img, ram, id, v, k);
      if k <= |gc| {
        PutCutCollecting(img, ram, k);
      } else {
        PutCutCollected(img, ram, id, v, k - |gc|);
      }
    } else {
      PutCutPlain(img, ram, id, v, k);
    }
  }

  /** A completed write: the new map, no new duplicate, ready for the next. */
  lemma PutCompletes(img: Image, ram: Ram, id: u8, v: u16)
    requires Ready(img, ram) && LiveCount(Stored(img)) < MAX_ENTRIES
    ensures var r := RunAll(img, PutSteps(img, ram, id, v)); var ram' := PutRam(img, ram);
            && Ready(r, ram'.(ptr := ram'.ptr + 4)) && Meaning(r) == Put(Meaning(img), id, v)
            && Duplicates(Stored(r)) <= Duplicates(Stored(img))
  {
    PutReady(img, ram);
    if Full(ram) {
      PutUnroll(img, ram, id, v, |PutSteps(img, ram, id, v)|);
      WriteCompletes(RunAll(img, GcSteps(ram.active, Stored(img))), GcRam(ram, Stored(img)), id, v);
    } else {
      WriteCompletes(img, ram, id, v);
    }
  }

  /** A write never programs a byte that is not erased, except to zero. */
  lemma PutLegal(img: Image, ram: Ram, id: u8, v: u16)
    requires Ready(img, ram) && LiveCount(Stored(img)) < MAX_ENTRIES
    ensures Legal(img, PutSteps(img, ram, id, v))
  {
    var es := Stored(img);
    PutReady(img, ram);
    if Full(ram) {
      var gc := GcSteps(ram.active, es);
      GcLegal(img, ram);
      WriteLegal(RunAll(img, gc), ram.active.Other(), LiveOnly(es), NewEntry(id, v), OldEntry(LiveOnly(es), Key(id)));
      LegalAppend(img, gc, WriteSteps(ram.active.Other(), LiveOnly(es), id, v));
    } else {
      WriteLegal(img, ram.active, es, NewEntry(id, v), OldEntry(es, Key(id)));
    }
  }

  lemma StepsInside(b: Block, n: nat, e: Entry, prev: seq<nat>)
    requires n <= MAX_ENTRIES && |prev| <= 1 && (prev != [] ==> prev[0] <= n)
    ensures (forall s :: s in StepsFor(b, n, e, prev) ==> s.at < BLOCK_SIZE) <==> n < MAX_ENTRIES
  {
    var steps := StepsFor(b, n, e, prev);
    assert steps[2] == WriteStep(b, n, e, prev, 2);
    if n < MAX_ENTRIES {
      forall s | s in steps ensures s.at < BLOCK_SIZE {
        var k :| 0 <= k < |steps| && steps[k] == s;
        assert s == WriteStep(b, n, e, prev, k);
      }
    }
  }

  /** Exactly when a write stays inside its block. The checks on `top` do not
      reject the failing case, a collection that leaves 511 live entries. */
  lemma PutStaysInside(img: Image, ram: Ram, id: u8, v: u16)
    requires Ready(img, ram)
    ensures var t := if Full(ram) then LiveOnly(Stored(img)) else Stored(img);
            (forall s :: s in WriteSteps(PutRam(img, ram).active, t, id, v) ==> s.at < BLOCK_SIZE)
            <==> !Full(ram) || LiveCount(Stored(img)) <= 510
    ensures !Rejects(PutRam(img, ram))
  {
    LiveOnlyKeepsContents(Stored(img));
    var t := if Full(ram) then LiveOnly(Stored(img)) else Stored(img);
    StepsInside(PutRam(img, ram).active, |t|, NewEntry(id, v), OldEntry(t, Key(id)));
  }

  // --- read ---

  /** flash_read_int: the value of the last entry carrying the key. */
  function Reported(es: seq<Entry>, id: u8): Option<nat> {
    var q := LastWith(es, Key(id));
    if q < |es| then Some(es[q].Value()) else None
  }

  /** A read reports the stored value, for every id the store can hold. */
  lemma ReadReports(es: seq<Entry>, id: u8)
    requires id <= 253
    ensures Reported(es, id) == if id in Contents(es) then Some(Contents(es)[id]) else None
  {
    ContentsIsLast(es, id);
  }

  /** A value written is read back, for any table a run can leave, unless the id is 254:
      that is stored under the uncommitted mark and killed at once, and only when an
      interrupted write has left an uncommitted entry is that one killed instead. */
  lemma WriteThenRead(es: seq<Entry>, id: u8, v: u16)
    ensures Reported(WrittenTable(es, id, v, 4 + |OldEntry(es, Key(id))|), id) == Some(v)
            <==> id != 254 || exists i :: 0 <= i < |es| && es[i].key == BLANK
  {
    var q, prev := FirstWith(es, Key(id)), OldEntry(es, Key(id));
    var e := NewEntry(id, v);
    var t := WrittenTable(es, id, v, 4 + |prev|);
    assert e.Value() == v && |t| == |es| + 1;
    if prev == [] || q < |es| {
      assert t[|es|] == e;
      assert q < |es| ==> es[q].key == Key(id);
    } else {
      assert t == es + [e.(key := DEAD)];
      assert forall i :: 0 <= i < |t| ==> t[i].key != BLANK;
    }
  }

  // --- runs ---

  datatype Op = Boot | Write(id: u8, v: u16) | Read(id: u8)

  /** `cut == Some(k)`: power is lost after k flash steps of the operation. */
  datatype Event = Event(op: Op, cut: Option<nat>)

  /** `ram == None` until a boot completes. */
  datatype Sys = Sys(img: Image, ram: Option<Ram>)

  predicate Enabled(s: Sys, op: Op) { op.Boot? || s.ram.Some? }

  function StepsOf(s: Sys, op: Op): seq<Step>
    requires Enabled(s, op)
  {
    match op
    case Boot => BootSteps(s.img)
    case Write(id, v) => PutSteps(s.img, s.ram.value, id, v)
    case Read(id) => ReadSteps(s.ram.value.active, Stored(s.img), Key(id))
  }

  function RamOf(s: Sys, op: Op): Ram
    requires Enabled(s, op)
  {
    match op
    case Boot => BootRam(s.img)
    case Write(id, v) => var r := PutRam(s.img, s.ram.value); r.(ptr := r.ptr + 4)
    case Read(id) => s.ram.value
  }

  /** An operation that is not enabled does nothing. */
  function Next(s: Sys, e: Event): Sys {
    if !Enabled(s, e.op) then s
    else if e.cut.Some? && e.cut.value <= |StepsOf(s, e.op)| then Sys(Run(s.img, StepsOf(s, e.op), e.cut.value), None)
    else Sys(RunAll(s.img, StepsOf(s, e.op)), Some(RamOf(s, e.op)))
  }

  function BlankImage(): Image {
    Image(seq(BLOCK_SIZE, _ => BLANK), seq(BLOCK_SIZE, _ => BLANK))
  }

  function After(events: seq<Event>): Sys {
    if events == [] then Sys(BlankImage(), None)
    else Next(After(events[..|events| - 1]), events[|events| - 1])
  }

  predicate CutWrite(e: Event) { e.op.Write? && e.cut.Some? }

  function CutWrites(events: seq<Event>): nat {
    if events == [] then 0
    else CutWrites(events[..|events| - 1]) + (if CutWrite(events[|events| - 1]) then 1 else 0)
  }

  /** The invariant of every reachable state. */
  ghost predicate Ok(s: Sys) {
    && Bootable(s.img)
    && (s.ram.Some? ==> Ready(s.img, s.ram.value))
  }

  /** A write has room: in the block as it is, or once it is collected. */
  predicate Fits(s: Sys, op: Op) {
    op.Write? && s.ram.Some? && Full(s.ram.value) ==> LiveCount(Stored(s.img)) <= 510
  }

  /** The abstract store: a completed write takes effect, a cut one does or does
      not, and nothing else changes the map. */
  ghost predicate MapStep(m: map<u8, nat>, e: Event, on: bool, m': map<u8, nat>) {
    if e.op.Write? && on then
      m' == Put(m, e.op.id, e.op.v) || (e.cut.Some? && m' == m)
    else m' == m
  }

  /** Only a cut write can add a duplicate. */
  function Losses(e: Event): nat { if CutWrite(e) then 1 else 0 }

  lemma FitsLive(s: Sys, op: Op)
    requires Ok(s) && Fits(s, op) && op.Write? && s.ram.Some?
    ensures LiveCount(Stored(s.img)) < MAX_ENTRIES
  {
    ReadyIsBootable(s.img, s.ram.value);
    LiveOnlyKeepsContents(Stored(s.img));
  }

  lemma StepSafe(s: Sys, e: Event)
    requires Ok(s) && Fits(s, e.op)
    ensures Ok(Next(s, e)) && Duplicates(Stored(Next(s, e).img)) <= Duplicates(Stored(s.img)) + Losses(e)
    ensures MapStep(Meaning(s.img), e, s.ram.Some?, Meaning(Next(s, e).img))
    ensures Enabled(s, e.op) ==> Legal(s.img, StepsOf(s, e.op))
  {
    if Enabled(s, e.op) {
      var steps := StepsOf(s, e.op);
      var k := if e.cut.Some? && e.cut.value <= |steps| then e.cut.value else |steps|;
      match e.op
      case Boot => BootStep(s, e, k);
      case Write(id, v) => WriteStepSafe(s, e, k);
      case Read(id) => ReadStep(s, e, k);
    }
  }

  lemma BootStep(s: Sys, e: Event, k: nat)
    requires Ok(s) && e.op.Boot? && k <= |BootSteps(s.img)|
    requires Next(s, e).img == Run(s.img, BootSteps(s.img), k)
    requires Next(s, e).ram.Some? ==> k == |BootSteps(s.img)| && Next(s, e).ram == Some(BootRam(s.img))
    ensures Ok(Next(s, e)) && Stored(Next(s, e).img) == Stored(s.img) && Legal(s.img, BootSteps(s.img))
    ensures Meaning(Next(s, e).img) == Meaning(s.img)
  {
    BootCrashSafe(s.img, k);
  }

  lemma ReadStep(s: Sys, e: Event, k: nat)
    requires Ok(s) && e.op.Read? && s.ram.Some? && k <= |StepsOf(s, e.op)|
    requires Next(s, e).img == Run(s.img, StepsOf(s, e.op), k)
    requires Next(s, e).ram.Some? ==> Next(s, e).ram == s.ram
    ensures Ok(Next(s, e)) && Duplicates(Stored(Next(s, e).img)) <= Duplicates(Stored(s.img))
    ensures Meaning(Next(s, e).img) == Meaning(s.img) && Legal(s.img, StepsOf(s, e.op))
  {
    ReadCrashSafe(s.img, s.ram.value, Key(e.op.id), k);
    ReadZeros(s.ram.value.active, Stored(s.img), Key(e.op.id));
  }

  lemma WriteStepSafe(s: Sys, e: Event, k: nat)
    requires Ok(s) && Fits(s, e.op) && e.op.Write? && s.ram.Some? && k <= |StepsOf(s, e.op)|
    requires Next(s, e).img == Run(s.img, StepsOf(s, e.op), k)
    requires Next(s, e).ram.Some? ==> k == |StepsOf(s, e.op)| && Next(s, e).ram == Some(RamOf(s, e.op))
    requires Next(s, e).ram.None? ==> e.cut.Some?
    ensures Ok(Next(s, e)) && Duplicates(Stored(Next(s, e).img)) <= Duplicates(Stored(s.img)) + Losses(e)
    ensures MapStep(Meaning(s.img), e, true, Meaning(Next(s, e).img)) && Legal(s.img, StepsOf(s, e.op))
  {
    var id, v := e.op.id, e.op.v;
    FitsLive(s, e.op);
    PutLegal(s.img, s.ram.value, id, v);
    if Next(s, e).ram.Some? {
      PutCompletes(s.img, s.ram.value, id, v);
      ReadyIsBootable(Next(s, e).img, Next(s, e).ram.value);
    } else {
      PutCrashAtomic(s.img, s.ram.value, id, v, k);
    }
  }

  lemma BlankOk()
    ensures Ok(Sys(BlankImage(), None)) && Meaning(BlankImage()) == map[] && Duplicates(Stored(BlankImage())) == 0
  {
    assert Holds(BlankImage().first, []);
    HoldsUnique(BlankImage().first, []);
  }

  /** One operation acts on the abstract map, a read reports what that map holds, no
      write is refused, and every flash step is inside the device and needs no erase. */
  ghost predicate RunStepSafe(s: Sys, e: Event) {
    && MapStep(Meaning(s.img), e, s.ram.Some?, Meaning(Next(s, e).img))
    && (Enabled(s, e.op) ==> Legal(s.img, StepsOf(s, e.op)))
    && (Enabled(s, e.op) && e.op.Write? ==> !Rejects(PutRam(s.img, s.ram.value)))
    && (Enabled(s, e.op) && e.op.Read? && e.op.id <= 253 ==>
          Reported(Stored(s.img), e.op.id) == if e.op.id in Meaning(s.img) then Some(Meaning(s.img)[e.op.id]) else None)
  }

  /** An operation is safe exactly when it is not a write to a full block with 511 live
      entries. */
  lemma RunStep(s: Sys, e: Event)
    requires Ok(s)
    ensures RunStepSafe(s, e) <==> Fits(s, e.op)
  {
    if Fits(s, e.op) {
      StepSafe(s, e);
      if s.ram.Some? && e.op.Write? {
        FitsLive(s, e.op);
        PutReady(s.img, s.ram.value);
      }
      if e.op.Read? && e.op.id <= 253 {
        ReadReports(Stored(s.img), e.op.id);
      }
    } else {
      Overrun(s.img, s.ram.value, e.op.id, e.op.v);
    }
  }

  /** The write that does not fit programs a byte behind the end of its block. */
  lemma Overrun(img: Image, ram: Ram, id: u8, v: u16)
    requires Ready(img, ram) && Full(ram) && LiveCount(Stored(img)) > 510
    ensures !Legal(img, PutSteps(img, ram, id, v))
  {
    hide GcSteps, LiveOnly, LiveCount, Legal, Ready, Key, NewEntry, OldEntry;
    var es := Stored(img);
    PutStaysInside(img, ram, id, v);
    var gc, app := GcSteps(ram.active, es), WriteSteps(ram.active.Other(), LiveOnly(es), id, v);
    var s :| s in app && s.at >= BLOCK_SIZE;
    var i :| 0 <= i < |app| && app[i] == s;
    OutsideIllegal(img, gc + app, |gc| + i);
  }

  lemma OutsideIllegal(img: Image, steps: seq<Step>, k: nat)
    requires k < |steps| && steps[k].Program? && steps[k].at >= BLOCK_SIZE
    ensures !Legal(img, steps)
  {
    assert !LegalAt(img, steps, k);
  }

  // --- from the blank device ---

  /** Every write of the run finds room when its turn comes. */
  predicate AllFit(events: seq<Event>) {
    forall i :: 0 <= i < |events| ==> Fits(After(events[..i]), events[i].op)
  }

  lemma AllFitPrefix(events: seq<Event>, i: nat)
    requires AllFit(events) && i <= |events|
    ensures AllFit(events[..i])
  {
    forall j | 0 <= j < i ensures Fits(After(events[..i][..j]), events[..i][j].op) {
      assert events[..i][..j] == events[..j];
    }
  }

  /** From a blank device, any run, cut short anywhere, ends recoverable; and it holds
      no more duplicates than writes have been cut. */
  lemma {:induction false} RunRecoverable(events: seq<Event>)
    requires AllFit(events)
    ensures Ok(After(events)) && Duplicates(Stored(After(events).img)) <= CutWrites(events)
  {
    hide Ok, Fits, Stored, Duplicates;
    if events == [] {
      BlankOk();
    } else {
      var n := |events| - 1;
      AllFitPrefix(events, n);
      RunRecoverable(events[..n]);
      assert Fits(After(events[..n]), events[n].op);
      StepSafe(After(events[..n]), events[n]);
    }
  }

  /** Along every such run each operation acts on the abstract map, a read reports
      what that map holds, no write is refused, and no flash byte is programmed
      twice without an erase. */
  lemma {:induction false} RunRefinesMap(events: seq<Event>)
    requires AllFit(events)
    ensures Meaning(After([]).img) == map[]
    ensures forall i :: 0 <= i < |events| ==>
              After(events[..i + 1]) == Next(After(events[..i]), events[i])
                    && RunStepSafe(After(events[..i]), events[i])
  {
    BlankOk();
    forall i | 0 <= i < |events|
      ensures After(events[..i + 1]) == Next(After(events[..i]), events[i])
            && RunStepSafe(After(events[..i]), events[i])
    {
      AllFitPrefix(events, i);
      RunRecoverable(events[..i]);
      RunStep(After(events[..i]), events[i]);
      assert events[..i + 1][..i] == events[..i];
    }
  }

  /** The first write that does not fit is the first operation that is not safe. */
  lemma FirstUnsafe(events: seq<Event>, i: nat)
    requires i < |events| && AllFit(events[..i])
    ensures RunStepSafe(After(events[..i]), events[i]) <==> Fits(After(events[..i]), events[i].op)
  {
    RunRecoverable(events[..i]);
    RunStep(After(events[..i]), events[i]);
  }

  /** There are 254 ids, so as many live entries beyond that as writes have been cut. */
  lemma SpaceBound(events: seq<Event>)
    requires AllFit(events)
    ensures LiveCount(Stored(After(events).img)) <= 254 + CutWrites(events)
  {
    RunRecoverable(events);
    LiveBound(Stored(After(events).img));
  }

  lemma FewFit(s: Sys, op: Op)
    ensures LiveCount(Stored(s.img)) <= 510 ==> Fits(s, op)
  {
  }

  /** With at most 256 writes cut in the life of the device every write fits. */
  lemma {:induction false} FewCutsFit(events: seq<Event>)
    requires CutWrites(events) <= 256
    ensures AllFit(events)
  {
    hide Fits;
    if events != [] {
      var n := |events| - 1;
      FewCutsFit(events[..n]);
      SpaceBound(events[..n]);
      FewFit(After(events[..n]), events[n].op);
      forall i | 0 <= i < |events| ensures Fits(After(events[..i]), events[i].op) {
        if i < n {
          assert events[..n][..i] == events[..i];
          assert Fits(After(events[..n][..i]), events[..n][i].op);
        }
      }
    }
  }

  /** Without power loss during a write: never more than one live entry per id, and a
      collected table of at most 1 + 4 * 254 bytes. */
  lemma UncutSpace(events: seq<Event>)
    requires CutWrites(events) == 0
    ensures var s := After(events);
            && AllFit(events) && LiveCount(Stored(s.img)) <= 254
            && (s.ram.Some? ==> GcRam(s.ram.value, Stored(s.img)).ptr <= 1 + 4 * 254)
  {
    FewCutsFit(events);
    SpaceBound(events);
  }
}
