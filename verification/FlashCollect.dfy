/** The garbage collector, the boot choice between the two blocks and the
    self-cleaning read, each as its list of flash steps. */
module FlashCollect {
  import opened Common
  import opened FlashTable
  import opened FlashImage

  // --- garbage collection ---

  /** One live entry copied into slot m of block u: size, key, then the value. */
  function CopyEntry(u: Block, m: nat, e: Entry): seq<Step> {
    [Program(u, 1 + 4 * m, ELEMENT_SIZE), Program(u, 2 + 4 * m, e.key),
     Program(u, 3 + 4 * m, e.hi), Program(u, 4 + 4 * m, e.lo)]
  }

  function CopySteps(u: Block, es: seq<Entry>): seq<Step> {
    if es == [] then []
    else
      var front := es[..|es| - 1];
      CopySteps(u, front) + (if es[|es| - 1].Live() then CopyEntry(u, |LiveOnly(front)|, es[|es| - 1]) else [])
  }

  /** Erase the spare block, copy the live entries, mark the copy in use, and
      only then retire the old block. */
  function GcSteps(active: Block, es: seq<Entry>): seq<Step> {
    [Erase(active.Other())] + CopySteps(active.Other(), es)
    + [Program(active.Other(), 0, IN_USE), Program(active, 0, INVALID)]
  }

  function GcRam(ram: Ram, es: seq<Entry>): Ram {
    Ram(ram.active.Other(), 1 + 4 * LiveCount(es), BLOCK_SIZE)
  }

  lemma {:induction false} CopyConfined(u: Block, es: seq<Entry>)
    ensures forall i :: 0 <= i < |CopySteps(u, es)| ==>
              var s := CopySteps(u, es)[i]; s.Program? && s.block == u && s.at >= 1
  {
    if es != [] {
      CopyConfined(u, es[..|es| - 1]);
    }
  }

  /** Four programs at the end of a table of n entries append one entry. */
  lemma CopyOneTable(bytes: Bytes, t: seq<Entry>, e: Entry)
    requires Holds(bytes, t) && |t| < MAX_ENTRIES
    ensures var n := |t|;
            Holds(bytes[1 + 4 * n := ELEMENT_SIZE][2 + 4 * n := e.key][3 + 4 * n := e.hi][4 + 4 * n := e.lo], t + [e])
  {
    var n := |t|;
    var t1, t2, t3 := t + [UNCOMMITTED], t + [Entry(e.key, BLANK, BLANK)], t + [Entry(e.key, e.hi, BLANK)];
    var b1 := bytes[1 + 4 * n := ELEMENT_SIZE];
    var b2 := b1[2 + 4 * n := e.key];
    ProgramSize(bytes, t);
    ProgramField(b1, t1, n, 0, e.key);
    assert t1[n := t2[n]] == t2;
    ProgramField(b2, t2, n, 1, e.hi);
    assert t2[n := t3[n]] == t3;
    ProgramField(b2[3 + 4 * n := e.hi], t3, n, 2, e.lo);
    assert t3[n := e] == t + [e];
  }

  lemma CopyOneRun(img: Image, u: Block, n: nat, e: Entry)
    requires 4 + 4 * n < BLOCK_SIZE
    ensures RunAll(img, CopyEntry(u, n, e)).At(u)
            == img.At(u)[1 + 4 * n := ELEMENT_SIZE][2 + 4 * n := e.key][3 + 4 * n := e.hi][4 + 4 * n := e.lo]
    ensures (forall j :: 1 + 4 * n <= j <= 4 + 4 * n ==> img.At(u)[j] == BLANK) ==> Legal(img, CopyEntry(u, n, e))
  {
    var steps := CopyEntry(u, n, e);
    assert Run(img, steps, 1) == Apply(Run(img, steps, 0), steps[0]);
    assert Run(img, steps, 2) == Apply(Run(img, steps, 1), steps[1]);
    assert Run(img, steps, 3) == Apply(Run(img, steps, 2), steps[2]);
    assert Run(img, steps, 4) == Apply(Run(img, steps, 3), steps[3]);
  }

  lemma CopyOne(img: Image, u: Block, t: seq<Entry>, e: Entry)
    requires Holds(img.At(u), t) && |t| < MAX_ENTRIES
    ensures Holds(RunAll(img, CopyEntry(u, |t|, e)).At(u), t + [e])
    ensures Legal(img, CopyEntry(u, |t|, e))
  {
    CopyOneTable(img.At(u), t, e);
    CopyOneRun(img, u, |t|, e);
  }

  /** The copy holds the live entries in their order, and needed no erase. */
  lemma {:induction false} CopyHolds(img: Image, u: Block, es: seq<Entry>)
    requires Holds(img.At(u), []) && |es| <= MAX_ENTRIES
    ensures Holds(RunAll(img, CopySteps(u, es)).At(u), LiveOnly(es))
    ensures Legal(img, CopySteps(u, es))
  {
    if es != [] {
      var front, e := es[..|es| - 1], es[|es| - 1];
      CopyHolds(img, u, front);
      if e.Live() {
        var before, last := CopySteps(u, front), CopyEntry(u, |LiveOnly(front)|, e);
        assert CopySteps(u, es) == before + last && LiveOnly(es) == LiveOnly(front) + [e];
        CopyOne(RunAll(img, before), u, LiveOnly(front), e);
        RunAppend(img, before, last, 4);
        LegalAppend(img, before, last);
      } else {
        assert CopySteps(u, es) == CopySteps(u, front);
        assert LiveOnly(es) == LiveOnly(front);
      }
    }
  }

  /** The first part of a collection: erase and k - 1 steps of copying. */
  lemma GcErased(img: Image, active: Block, es: seq<Entry>, k: nat)
    requires 1 <= k <= 1 + |CopySteps(active.Other(), es)|
    ensures Run(img, GcSteps(active, es), k)
            == Run(Apply(img, Erase(active.Other())), CopySteps(active.Other(), es), k - 1)
  {
    var u := active.Other();
    var copy, tail := CopySteps(u, es), [Program(u, 0, IN_USE), Program(active, 0, INVALID)];
    assert GcSteps(active, es) == [Erase(u)] + (copy + tail);
    RunAppend(img, [Erase(u)], copy + tail, k - 1);
    assert Run(img, [Erase(u)], 1) == Apply(Run(img, [Erase(u)], 0), Erase(u));
    RunPrefix(Apply(img, Erase(u)), copy, tail, k - 1);
  }

  /** While the copy is being made the old block alone is in use. */
  lemma GcCopying(img: Image, ram: Ram, k: nat)
    requires Ready(img, ram) && k <= 1 + |CopySteps(ram.active.Other(), Stored(img))|
    ensures var r := Run(img, GcSteps(ram.active, Stored(img)), k);
            && r.At(ram.active) == img.At(ram.active) && !r.InUse(ram.active.Other())
            && (k > 0 ==> r.At(ram.active.Other())[0] == BLANK)
  {
    if k > 0 {
      var u, es := ram.active.Other(), Stored(img);
      GcErased(img, ram.active, es, k);
      CopyConfined(u, es);
      Confined(Apply(img, Erase(u)), u, CopySteps(u, es), k - 1);
      assert u.Other() == ram.active;
    }
  }

  /** The image once the copy is complete but not yet marked. */
  lemma GcCopied(img: Image, active: Block, es: seq<Entry>)
    requires |es| <= MAX_ENTRIES
    ensures Holds(Run(img, GcSteps(active, es), 1 + |CopySteps(active.Other(), es)|).At(active.Other()), LiveOnly(es))
  {
    var u := active.Other();
    GcErased(img, active, es, 1 + |CopySteps(u, es)|);
    CopyHolds(Apply(img, Erase(u)), u, es);
  }

  /** Of a table and its compressed copy the boot code chooses the copy. */
  lemma CopyChosen(both: Image, a: Block, es: seq<Entry>)
    requires both.InUse(First) && both.InUse(Second)
    requires Entries(both.At(a)) == es && Entries(both.At(a.Other())) == LiveOnly(es)
    ensures Stored(both) == LiveOnly(es)
  {
    hide LiveOnly, Entries;
    if |LiveOnly(es)| == |es| { AllLive(es); }
  }

  /** Marking the copy leaves both blocks in use, each with its table. */
  lemma BothHold(r: Image, a: Block, es: seq<Entry>)
    requires r.InUse(a) && Holds(r.At(a), es) && Holds(r.At(a.Other()), LiveOnly(es))
    ensures var both := Apply(r, Program(a.Other(), 0, IN_USE));
            && both.InUse(First) && both.InUse(Second)
            && Holds(both.At(a), es) && Holds(both.At(a.Other()), LiveOnly(es))
  {
    hide Holds, LiveOnly;
    ProgramStatus(r.At(a.Other()), LiveOnly(es), IN_USE);
  }

  /** Both blocks marked in use: the boot code picks the smaller table, the compressed one. */
  lemma GcHandover(r: Image, a: Block, es: seq<Entry>)
    requires r.InUse(a) && Holds(r.At(a), es) && Holds(r.At(a.Other()), LiveOnly(es))
    ensures var both := Apply(r, Program(a.Other(), 0, IN_USE));
            Bootable(both) && Meaning(both) == Contents(es) && Stored(both) == LiveOnly(es)
  {
    hide Holds, LiveOnly, Contents, Entries;
    var both := Apply(r, Program(a.Other(), 0, IN_USE));
    BothHold(r, a, es);
    HoldsUnique(both.At(a.Other()), LiveOnly(es));
    HoldsUnique(both.At(a), es);
    CopyChosen(both, a, es);
    LiveOnlyKeepsContents(es);
  }

  lemma GcRetire(r: Image, a: Block, es: seq<Entry>)
    requires Holds(r.At(a.Other()), LiveOnly(es))
    ensures var end := Apply(Apply(r, Program(a.Other(), 0, IN_USE)), Program(a, 0, INVALID));
            && Ready(end, Ram(a.Other(), 1 + 4 * LiveCount(es), BLOCK_SIZE)) && Bootable(end)
            && Stored(end) == LiveOnly(es) && Meaning(end) == Contents(es)
  {
    var end := Apply(Apply(r, Program(a.Other(), 0, IN_USE)), Program(a, 0, INVALID));
    LiveOnlyKeepsContents(es);
    ProgramStatus(r.At(a.Other()), LiveOnly(es), IN_USE);
    SoleBlock(end, a.Other(), LiveOnly(es));
    HoldsUnique(end.At(a.Other()), LiveOnly(es));
  }

  lemma GcLastSteps(img: Image, a: Block, es: seq<Entry>)
    ensures var c := 1 + |CopySteps(a.Other(), es)|;
            |GcSteps(a, es)| == c + 2
            && RunAll(img, GcSteps(a, es))
               == Apply(Apply(Run(img, GcSteps(a, es), c), Program(a.Other(), 0, IN_USE)), Program(a, 0, INVALID))
  {
    var c := 1 + |CopySteps(a.Other(), es)|;
    var steps := GcSteps(a, es);
    assert Run(img, steps, c + 1) == Apply(Run(img, steps, c), steps[c]);
    assert Run(img, steps, c + 2) == Apply(Run(img, steps, c + 1), steps[c + 1]);
  }

  /** A completed collection: the spare block is the table now, and compact. */
  lemma GcCompletes(img: Image, ram: Ram)
    requires Ready(img, ram)
    ensures var r := RunAll(img, GcSteps(ram.active, Stored(img)));
            && Ready(r, GcRam(ram, Stored(img))) && Bootable(r)
            && Stored(r) == LiveOnly(Stored(img)) && Meaning(r) == Meaning(img)
  {
    var es := Stored(img);
    GcCopied(img, ram.active, es);
    GcLastSteps(img, ram.active, es);
    GcRetire(Run(img, GcSteps(ram.active, es), 1 + |CopySteps(ram.active.Other(), es)|), ram.active, es);
  }

  /** Power lost with both blocks marked in use. */
  lemma GcBothMarked(img: Image, ram: Ram)
    requires Ready(img, ram)
    ensures var c := 1 + |CopySteps(ram.active.Other(), Stored(img))|;
            var r := Run(img, GcSteps(ram.active, Stored(img)), c + 1);
            Bootable(r) && Meaning(r) == Meaning(img) && Stored(r) == LiveOnly(Stored(img))
  {
    hide Bootable, Contents, LiveOnly, CopySteps, Holds;
    var es := Stored(img);
    var c := 1 + |CopySteps(ram.active.Other(), es)|;
    GcCopying(img, ram, c);
    GcCopied(img, ram.active, es);
    var steps := GcSteps(ram.active, es);
    var r := Run(img, steps, c);
    assert Run(img, steps, c + 1) == Apply(r, Program(ram.active.Other(), 0, IN_USE));
    assert r.InUse(ram.active) && Holds(r.At(ram.active), es);
    GcHandover(r, ram.active, es);
  }

  /** Garbage collection keeps the meaning at every crash point: after any k of
      its steps the boot code finds the same id-to-value map, in the old table up to
      the mark on the copy and in the compressed one from then on. */
  lemma GcCrashSafe(img: Image, ram: Ram, k: nat)
    requires Ready(img, ram) && k <= |GcSteps(ram.active, Stored(img))|
    ensures var steps := GcSteps(ram.active, Stored(img));
            var r := Run(img, steps, k);
            && Bootable(r) && Meaning(r) == Meaning(img)
            && Stored(r) == if k < |steps| - 1 then Stored(img) else LiveOnly(Stored(img))
  {
    var c := 1 + |CopySteps(ram.active.Other(), Stored(img))|;
    GcLastSteps(img, ram.active, Stored(img));
    if k <= c {
      GcCopying(img, ram, k);
      SoleBlock(Run(img, GcSteps(ram.active, Stored(img)), k), ram.active, Stored(img));
    } else if k == c + 1 {
      GcBothMarked(img, ram);
    } else {
      GcCompletes(img, ram);
    }
  }

  /** The collector never programs a byte that is not erased, except to zero. */
  lemma GcLegal(img: Image, ram: Ram)
    requires Ready(img, ram)
    ensures Legal(img, GcSteps(ram.active, Stored(img)))
  {
    hide Ready, CopySteps, Run;
    var es := Stored(img);
    var c := 1 + |CopySteps(ram.active.Other(), es)|;
    forall k | 0 <= k < |GcSteps(ram.active, es)| ensures LegalAt(img, GcSteps(ram.active, es), k) {
      if 1 <= k < c { GcLegalCopy(img, ram, k); } else if k == c { GcLegalMark(img, ram); }
    }
  }

  lemma GcLegalCopy(img: Image, ram: Ram, k: nat)
    requires Ready(img, ram) && 1 <= k < 1 + |CopySteps(ram.active.Other(), Stored(img))|
    ensures LegalAt(img, GcSteps(ram.active, Stored(img)), k)
  {
    var u, es := ram.active.Other(), Stored(img);
    var copy, steps := CopySteps(u, es), GcSteps(ram.active, es);
    CopyHolds(Apply(img, Erase(u)), u, es);
    GcErased(img, ram.active, es, k);
    assert LegalAt(Apply(img, Erase(u)), copy, k - 1) && steps[k] == copy[k - 1];
  }

  lemma GcLegalMark(img: Image, ram: Ram)
    requires Ready(img, ram)
    ensures LegalAt(img, GcSteps(ram.active, Stored(img)), 1 + |CopySteps(ram.active.Other(), Stored(img))|)
  {
    GcCopying(img, ram, 1 + |CopySteps(ram.active.Other(), Stored(img))|);
  }

  // --- boot ---

  /** What the boot code programs before it can read the table. */
  function BootSteps(img: Image): (r: seq<Step>)
    ensures |r| <= 1
  {
    if img.InUse(First) && img.InUse(Second) then [Program(Chosen(img).Other(), 0, INVALID)]
    else if img.InUse(First) || img.InUse(Second) then []
    else [Program(First, 0, IN_USE)]
  }

  function BootRam(img: Image): Ram
  {
    Ram(Chosen(img), 1 + 4 * |Stored(img)|, BLOCK_SIZE + 1)
  }

  /** Recovery, itself interrupted or not, keeps the map; completed, it leaves
      one block in use and the pointer on blank flash. */
  lemma BootCrashSafe(img: Image, k: nat)
    requires Bootable(img) && k <= |BootSteps(img)|
    ensures var r := Run(img, BootSteps(img), k);
            && Bootable(r) && Meaning(r) == Meaning(img) && Stored(r) == Stored(img)
            && (k == |BootSteps(img)| ==> Ready(r, BootRam(img)))
  {
    if k == 1 {
      var s := BootSteps(img)[0];
      assert Run(img, BootSteps(img), 1) == Apply(Run(img, BootSteps(img), 0), s);
      var r := Apply(img, s);
      if img.InUse(First) {
        HoldsUnique(img.At(Chosen(img)), Stored(img));
        SoleBlock(r, Chosen(img), Stored(img));
      } else {
        ProgramStatus(img.first, [], IN_USE);
        HoldsUnique(img.first, []);
        SoleBlock(r, First, []);
      }
    } else if |BootSteps(img)| == 0 {
      SoleBlock(img, Chosen(img), Stored(img));
    }
  }

  // --- read ---

  /** Scanning for a key, the read kills each match when it meets a later one. */
  function ReadSteps(b: Block, es: seq<Entry>, key: u8): seq<Step> {
    if es == [] then []
    else
      var front := es[..|es| - 1];
      var q := LastWith(front, key);
      ReadSteps(b, front, key)
      + (if es[|es| - 1].key == key && q < |front| then [Program(b, 2 + 4 * q, DEAD)] else [])
  }

  /** The table after the kills of a scan over its first p entries. */
  function ReadTable(es: seq<Entry>, key: u8, p: nat): (t: seq<Entry>)
    requires p <= |es|
    ensures |t| == |es|
  {
    if p == 0 then es
    else
      var t, q := ReadTable(es, key, p - 1), LastWith(es[..p - 1], key);
      if es[p - 1].key == key && q < p - 1 then Kill(t, q) else t
  }

  /** The kills lose no value and gain no live entry, and the newest match and
      everything beyond it are untouched. */
  lemma {:induction false} ReadKeeps(es: seq<Entry>, key: u8, p: nat)
    requires p <= |es|
    ensures var t := ReadTable(es, key, p);
            && Contents(t) == Contents(es) && LiveCount(t) <= LiveCount(es)
            && (forall i :: LastWith(es[..p], key) <= i < |es| ==> t[i] == es[i])
  {
    hide Contents, LiveCount, LastWith;
    if p > 0 {
      ReadKeeps(es, key, p - 1);
      LastOneMore(es, key, p - 1);
      var t, q := ReadTable(es, key, p - 1), LastWith(es[..p - 1], key);
      if es[p - 1].key == key && q < p - 1 { KillMatch(t, q, p - 1); }
    }
  }

  /** The scan's last match so far only moves on. */
  lemma LastOneMore(es: seq<Entry>, key: u8, p: nat)
    requires p < |es|
    ensures var q := LastWith(es[..p], key);
            && LastWith(es[..p + 1], key) == (if es[p].key == key then p else if q == p then p + 1 else q)
            && (q < p ==> es[q].key == key)
  {
    assert es[..p + 1][..p] == es[..p];
  }

  lemma KillMatch(t: seq<Entry>, q: nat, later: nat)
    requires q < later < |t| && t[q].key == t[later].key
    ensures Contents(Kill(t, q)) == Contents(t) && LiveCount(Kill(t, q)) <= LiveCount(t)
  {
    if t[q].Live() { KillShadowed(t, q, later); } else { SetDead(t, q, t[q].(key := DEAD)); }
  }

  /** Scanning one more entry adds at most one kill. */
  lemma ReadOneMore(b: Block, es: seq<Entry>, key: u8, p: nat)
    requires p < |es|
    ensures var q := LastWith(es[..p], key);
            && q <= LastWith(es[..p + 1], key)
            && ReadSteps(b, es[..p + 1], key)
               == ReadSteps(b, es[..p], key) + (if es[p].key == key && q < p then [Program(b, 2 + 4 * q, DEAD)] else [])
  {
    assert es[..p + 1][..p] == es[..p];
    assert ReadSteps(b, es[..p], key) + [] == ReadSteps(b, es[..p], key);
  }

  /** A read cut short after k kills is a complete read of a shorter table. */
  lemma {:induction false} ReadCut(img: Image, b: Block, es: seq<Entry>, key: u8, p: nat, k: nat) returns (c: nat)
    requires p <= |es| && k <= |ReadSteps(b, es[..p], key)|
    ensures c <= p && LastWith(es[..c], key) <= LastWith(es[..p], key)
    ensures Run(img, ReadSteps(b, es[..p], key), k) == RunAll(img, ReadSteps(b, es[..c], key))
  {
    if k == |ReadSteps(b, es[..p], key)| {
      c := p;
    } else {
      ReadOneMore(b, es, key, p - 1);
      c := ReadCut(img, b, es, key, p - 1, k);
      var before, after := ReadSteps(b, es[..p - 1], key), ReadSteps(b, es[..p], key);
      assert after == before + after[|before|..];
      RunPrefix(img, before, after[|before|..], k);
    }
  }

  lemma ReadKillStep(img: Image, b: Block, t: seq<Entry>, before: seq<Step>, q: nat)
    requires q < |t|
    ensures ReadDone(img, RunAll(img, before), b, t)
            ==> ReadDone(img, RunAll(img, before + [Program(b, 2 + 4 * q, DEAD)]), b, Kill(t, q))
  {
    var r, kill := RunAll(img, before), [Program(b, 2 + 4 * q, DEAD)];
    if ReadDone(img, r, b, t) {
      RunAppend(img, before, kill, 1);
      assert Run(r, kill, 1) == Apply(Run(r, kill, 0), kill[0]);
      ProgramField(r.At(b), t, q, 0, DEAD);
    }
  }

  /** Block b holds t now, and nothing else changed. */
  ghost predicate ReadDone(img: Image, r: Image, b: Block, t: seq<Entry>)
  {
    Holds(r.At(b), t) && r.At(b.Other()) == img.At(b.Other()) && r.At(b)[0] == img.At(b)[0]
  }

  lemma {:induction false} ReadBytes(img: Image, b: Block, es: seq<Entry>, key: u8, p: nat)
    requires Holds(img.At(b), es) && p <= |es|
    ensures ReadDone(img, RunAll(img, ReadSteps(b, es[..p], key)), b, ReadTable(es, key, p))
  {
    hide Holds, Run, ReadSteps, LastWith;
    if p == 0 {
      ReadNothing(img, b, es, key);
    } else {
      ReadBytes(img, b, es, key, p - 1);
      ReadOneMore(b, es, key, p - 1);
      var before, q := ReadSteps(b, es[..p - 1], key), LastWith(es[..p - 1], key);
      if es[p - 1].key == key && q < p - 1 {
        ReadKillStep(img, b, ReadTable(es, key, p - 1), before, q);
      } else {
        assert ReadSteps(b, es[..p], key) == before;
      }
    }
  }

  lemma ReadNothing(img: Image, b: Block, es: seq<Entry>, key: u8)
    requires Holds(img.At(b), es)
    ensures ReadDone(img, RunAll(img, ReadSteps(b, es[..0], key)), b, ReadTable(es, key, 0))
  {
  }

  /** A read, complete or cut short, keeps the map, and the entry it reports is
      still there to be read. */
  lemma ReadCrashSafe(img: Image, ram: Ram, key: u8, k: nat)
    requires Ready(img, ram) && k <= |ReadSteps(ram.active, Stored(img), key)|
    ensures var r := Run(img, ReadSteps(ram.active, Stored(img), key), k);
            && Ready(r, ram) && Bootable(r) && Meaning(r) == Meaning(img)
            && Duplicates(Stored(r)) <= Duplicates(Stored(img))
            && |Stored(r)| == |Stored(img)|
            && (forall i :: LastWith(Stored(img), key) <= i < |Stored(img)| ==> Stored(r)[i] == Stored(img)[i])
  {
    var es := Stored(img);
    assert es[..|es|] == es;
    var c := ReadCut(img, ram.active, es, key, |es|, k);
    ReadBytes(img, ram.active, es, key, c);
    ReadKeeps(es, key, c);
    var r := Run(img, ReadSteps(ram.active, es, key), k);
    SoleBlock(r, ram.active, ReadTable(es, key, c));
    HoldsUnique(r.At(ram.active), ReadTable(es, key, c));
  }

  /** A read only ever programs zeros, so it never needs an erase. */
  lemma {:induction false} ReadZeros(b: Block, es: seq<Entry>, key: u8)
    requires |es| <= MAX_ENTRIES
    ensures forall s :: s in ReadSteps(b, es, key) ==> s.Program? && s.at < BLOCK_SIZE && s.val == 0
  {
    if es != [] {
      ReadZeros(b, es[..|es| - 1], key);
    }
  }
}
