/** A run of the flash store (arm/FLASH/flashstore.c) that does exhaust it: 254 writes,
    and then power lost 257 times between the commit and the kill of one more. */
module FlashWear {
  import opened Common
  import opened FlashTable
  import opened FlashImage
  import opened FlashWrite
  import opened FlashCollect
  import opened FlashRun

  /** A boot, and a complete write of each of the ids 0 to n - 1. */
  function Filled(n: nat): seq<Event>
    requires n <= 254
  {
    if n == 0 then [Event(Boot, None)] else Filled(n - 1) + [Event(Write(n - 1, 0), None)]
  }

  /** After m of those, n writes of id 0, each cut after its fourth program, and a boot
      after each. */
  function Worn(m: nat, n: nat): seq<Event>
    requires m <= 254
  {
    if n == 0 then Filled(m) else Worn(m, n - 1) + [Event(Write(0, 0), Some(4))] + [Event(Boot, None)]
  }

  lemma AfterMore(events: seq<Event>, e: Event)
    ensures After(events + [e]) == Next(After(events), e)
    ensures CutWrites(events + [e]) == CutWrites(events) + Losses(e)
    ensures AllFit(events) && Fits(After(events), e.op) ==> AllFit(events + [e])
  {
    var more := events + [e];
    assert more[..|events|] == events;
    if AllFit(events) && Fits(After(events), e.op) {
      forall i | 0 <= i < |more| ensures Fits(After(more[..i]), more[i].op) {
        if i < |events| {
          assert more[..i] == events[..i];
          assert Fits(After(events[..i]), events[i].op);
        }
      }
    }
  }

  /** Booted, with n entries, all of them live and the first of them for id 0. */
  ghost predicate Up(s: Sys, n: nat) {
    var es := Stored(s.img);
    && Ok(s) && s.ram.Some? && s.ram.value.top == BLOCK_SIZE + 1
    && |es| == n == LiveCount(es) && (n > 0 ==> es[0].key == 1)
  }

  /** The entries are those of the ids 0, 1, 2 ... */
  predicate Numbered(es: seq<Entry>) {
    forall i :: 0 <= i < |es| ==> es[i].key == i + 1
  }

  lemma NotFull(s: Sys, n: nat)
    requires Up(s, n)
    ensures Full(s.ram.value) <==> n >= MAX_ENTRIES
  {
    ReadyIsBootable(s.img, s.ram.value);
  }

  lemma NotCollected(s: Sys, n: nat, id: u8)
    requires Up(s, n) && n < MAX_ENTRIES
    ensures PutSteps(s.img, s.ram.value, id, 0) == WriteSteps(s.ram.value.active, Stored(s.img), id, 0)
    ensures PutRam(s.img, s.ram.value) == s.ram.value && Fits(s, Write(id, 0))
  {
    NotFull(s, n);
  }

  lemma Written(s: Sys, n: nat, id: u8)
    requires Up(s, n) && n < MAX_ENTRIES
    ensures var steps := WriteSteps(s.ram.value.active, Stored(s.img), id, 0);
            && Next(s, Event(Write(id, 0), None))
               == Sys(Run(s.img, steps, |steps|), Some(s.ram.value.(ptr := s.ram.value.ptr + 4)))
            && Next(s, Event(Write(id, 0), Some(4))) == Sys(Run(s.img, steps, 4), None)
  {
    hide Run, Full, Stored, LiveCount, PutSteps, PutRam, WriteStep, Ok, Fits, OldEntry, NewEntry;
    NotCollected(s, n, id);
  }

  /** Four programs of a write that does not collect append its entry. */
  lemma Appended(s: Sys, n: nat, id: u8, k: nat)
    requires Up(s, n) && n < MAX_ENTRIES && id <= 253 && k == 4 + |OldEntry(Stored(s.img), Key(id))|
    ensures var es := Stored(s.img); var steps := WriteSteps(s.ram.value.active, es, id, 0);
            && |steps| == k && Stored(Run(s.img, steps, 4)) == es + [NewEntry(id, 0)]
            && LiveCount(es + [NewEntry(id, 0)]) == n + 1
  {
    hide Run, Full, Contents, FirstWith, Stored, LiveCount;
    WriteCrashAtomic(s.img, s.ram.value, id, 0, 4);
    AppendContents(Stored(s.img), NewEntry(id, 0));
  }

  lemma NewUp(s: Sys, n: nat)
    requires Up(s, n) && n < 254 && Numbered(Stored(s.img))
    ensures var s' := Next(s, Event(Write(n, 0), None));
            Fits(s, Write(n, 0)) && Up(s', n + 1) && Numbered(Stored(s'.img))
  {
    hide Run, Full, Stored, LiveCount, Next, WriteSteps, Ok, Fits;
    NotCollected(s, n, n);
    Written(s, n, n);
    assert OldEntry(Stored(s.img), n + 1) == [];
    Appended(s, n, n, 4);
    StepSafe(s, Event(Write(n, 0), None));
  }

  lemma {:induction false} FilledUp(n: nat)
    requires n <= 254
    ensures var s := After(Filled(n));
            Up(s, n) && Numbered(Stored(s.img)) && AllFit(Filled(n)) && CutWrites(Filled(n)) == 0
  {
    hide Up, Next, Fits, AllFit, After, Numbered, Stored, CutWrites;
    if n == 0 {
      FirstBoot();
    } else {
      FilledUp(n - 1);
      NewUp(After(Filled(n - 1)), n - 1);
      AfterMore(Filled(n - 1), Event(Write(n - 1, 0), None));
    }
  }

  lemma FirstBoot()
    ensures Up(After(Filled(0)), 0) && AllFit(Filled(0)) && CutWrites(Filled(0)) == 0
    ensures Numbered(Stored(After(Filled(0)).img))
  {
    BlankOk();
    BlankTable();
    var s := Sys(BlankImage(), None);
    assert Filled(0)[..0] == [];
    assert Fits(After(Filled(0)[..0]), Boot);
    StepSafe(s, Event(Boot, None));
    BootCrashSafe(s.img, |BootSteps(s.img)|);
  }

  lemma BlankTable()
    ensures Stored(BlankImage()) == []
  {
    assert Holds(BlankImage().first, []);
    HoldsUnique(BlankImage().first, []);
  }

  /** A cut write adds a live entry, and the boot after it keeps it. */
  lemma CutUp(s: Sys, n: nat)
    requires Up(s, n) && 0 < n < MAX_ENTRIES
    ensures var s1 := Next(s, Event(Write(0, 0), Some(4)));
            Fits(s, Write(0, 0)) && Fits(s1, Boot) && Up(Next(s1, Event(Boot, None)), n + 1)
  {
    hide Run, Full, Stored, LiveCount, Next, WriteSteps, Ok, Fits;
    var es := Stored(s.img);
    NotCollected(s, n, 0);
    Written(s, n, 0);
    assert FirstWith(es, 1) == 0;
    assert OldEntry(es, Key(0)) == [0];
    Appended(s, n, 0, 5);
    StepSafe(s, Event(Write(0, 0), Some(4)));
    BootUp(Next(s, Event(Write(0, 0), Some(4))));
    BootFits(Next(s, Event(Write(0, 0), Some(4))));
  }

  lemma BootFits(s: Sys)
    ensures Fits(s, Boot)
  {
  }

  lemma BootUp(s: Sys)
    requires Ok(s)
    ensures var s' := Next(s, Event(Boot, None));
            Ok(s') && s'.ram.Some? && s'.ram.value.top == BLOCK_SIZE + 1 && Stored(s'.img) == Stored(s.img)
  {
    StepSafe(s, Event(Boot, None));
    BootCrashSafe(s.img, |BootSteps(s.img)|);
  }

  lemma {:induction false} WornUp(m: nat, n: nat)
    requires 0 < m <= 254 && m + n <= MAX_ENTRIES
    ensures Up(After(Worn(m, n)), m + n) && AllFit(Worn(m, n)) && CutWrites(Worn(m, n)) == n
  {
    hide *;
    WornMore(m, n);
    if n == 0 {
      FilledUp(m);
    } else {
      WornUp(m, n - 1);
      var before := Worn(m, n - 1);
      var cut, boot := Event(Write(0, 0), Some(4)), Event(Boot, None);
      CutUp(After(before), m + n - 1);
      AfterMore(before, cut);
      AfterMore(before + [cut], boot);
      OneLoss(cut);
      OneLoss(boot);
    }
  }

  lemma WornMore(m: nat, n: nat)
    requires m <= 254
    ensures n == 0 ==> Worn(m, n) == Filled(m)
    ensures n > 0 ==> Worn(m, n) == Worn(m, n - 1) + [Event(Write(0, 0), Some(4))] + [Event(Boot, None)]
  {
  }

  lemma OneLoss(e: Event)
    ensures Losses(e) == if e.op.Write? && e.cut.Some? then 1 else 0
  {
  }

  /** So the 257th cut write is one too many: every operation so far was safe, but the
      next write, whatever it is, programs flash behind the end of its block. */
  lemma WornOut(id: u8, v: u16, cut: Option<nat>)
    ensures var s := After(Worn(254, 257));
            && AllFit(Worn(254, 257)) && CutWrites(Worn(254, 257)) == 257
            && s.ram.Some? && LiveCount(Stored(s.img)) == 511
            && !RunStepSafe(s, Event(Write(id, v), cut))
  {
    hide Worn, After, RunStepSafe, AllFit, CutWrites;
    WornUp(254, 257);
    var s := After(Worn(254, 257));
    NotFull(s, 511);
    RunStep(s, Event(Write(id, v), cut));
  }
}
