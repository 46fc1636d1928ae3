/** The two flash blocks as a value, the single-byte programs that change them,
    and what an image means to the boot code, whatever the RAM held. */
module FlashImage {
  import opened Common
  import opened FlashTable

  const IN_USE: u8 := 0x77
  const INVALID: u8 := 0x00

  datatype Block = First | Second {
    function Other(): Block { if this == First then Second else First }
  }

  datatype Image = Image(first: Bytes, second: Bytes) {
    function At(b: Block): Bytes { if b == First then first else second }
    function With(b: Block, bytes: Bytes): Image {
      if b == First then Image(bytes, second) else Image(first, bytes)
    }
    predicate InUse(b: Block) { At(b)[0] == IN_USE }
  }

  datatype Step = Program(block: Block, at: nat, val: u8) | Erase(block: Block)

  function Apply(img: Image, s: Step): (r: Image)
  {
    match s
    case Erase(b) => img.With(b, seq(BLOCK_SIZE, _ => BLANK))
    case Program(b, at, v) => if at < BLOCK_SIZE then img.With(b, img.At(b)[at := v]) else img
  }

  /** The image after the first k steps, which is what a power loss leaves. */
  function Run(img: Image, steps: seq<Step>, k: nat): (r: Image)
    requires k <= |steps|
  {
    if k == 0 then img else Apply(Run(img, steps, k - 1), steps[k - 1])
  }

  function RunAll(img: Image, steps: seq<Step>): (r: Image)
  {
    Run(img, steps, |steps|)
  }

  lemma {:induction false} RunPrefix(img: Image, s: seq<Step>, t: seq<Step>, k: nat)
    requires k <= |s|
    ensures Run(img, s + t, k) == Run(img, s, k)
  {
    if k > 0 {
      RunPrefix(img, s, t, k - 1);
    }
  }

  lemma {:induction false} RunAppend(img: Image, s: seq<Step>, t: seq<Step>, k: nat)
    requires k <= |t|
    ensures Run(img, s + t, |s| + k) == Run(RunAll(img, s), t, k)
  {
    if k == 0 {
      RunPrefix(img, s, t, |s|);
    } else {
      RunAppend(img, s, t, k - 1);
    }
  }

  lemma RunAllAppend(img: Image, s: seq<Step>, t: seq<Step>)
    ensures RunAll(img, s + t) == RunAll(RunAll(img, s), t)
  {
    RunAppend(img, s, t, |t|);
  }

  lemma RunLast(img: Image, steps: seq<Step>, s: Step)
    ensures RunAll(img, steps + [s]) == Apply(RunAll(img, steps), s)
  {
    RunAppend(img, steps, [s], 1);
    assert Run(RunAll(img, steps), [s], 1) == Apply(Run(RunAll(img, steps), [s], 0), s);
  }

  /** A byte may be programmed only while erased, or to zero. */
  predicate Programmable(img: Image, s: Step)
  {
    match s
    case Erase(_) => true
    case Program(b, at, v) => at < BLOCK_SIZE && (img.At(b)[at] == BLANK || v == 0)
  }

  predicate LegalAt(img: Image, steps: seq<Step>, k: nat)
    requires k < |steps|
  {
    Programmable(Run(img, steps, k), steps[k])
  }

  /** Every step of the list respects that rule when its turn comes. */
  ghost predicate Legal(img: Image, steps: seq<Step>)
  {
    forall k :: 0 <= k < |steps| ==> LegalAt(img, steps, k)
  }

  lemma LegalAppend(img: Image, s: seq<Step>, t: seq<Step>)
    requires Legal(img, s) && Legal(RunAll(img, s), t)
    ensures Legal(img, s + t)
  {
    forall k | 0 <= k < |s + t| ensures LegalAt(img, s + t, k) {
      if k < |s| {
        RunPrefix(img, s, t, k);
        assert LegalAt(img, s, k);
      } else {
        RunAppend(img, s, t, k - |s|);
        assert LegalAt(RunAll(img, s), t, k - |s|);
      }
    }
  }

  // --- what a power cycle finds ---

  /** An image the boot code can start from. When both blocks are marked in use
      they must agree; when none is, the first must be blank. */
  ghost predicate Bootable(img: Image) {
    && (img.InUse(First) ==> Table(img.first))
    && (img.InUse(Second) ==> Table(img.second))
    && (img.InUse(First) && img.InUse(Second) ==> Contents(Entries(img.first)) == Contents(Entries(img.second)))
    && (!img.InUse(First) && !img.InUse(Second) ==> Holds(img.first, []) && img.first[0] == BLANK)
  }

  /** The block the boot code chooses: of two in use, the smaller table. */
  function Chosen(img: Image): Block
  {
    if img.InUse(First) && img.InUse(Second) then
      if |Entries(img.second)| <= |Entries(img.first)| then Second else First
    else if img.InUse(First) then First
    else if img.InUse(Second) then Second
    else First
  }

  function Stored(img: Image): seq<Entry>
  {
    Entries(img.At(Chosen(img)))
  }

  /** The id-to-value map an image stands for. */
  function Meaning(img: Image): map<u8, nat>
  {
    Contents(Stored(img))
  }

  /** The RAM side: `top` differs by one between boot and collection. */
  datatype Ram = Ram(active: Block, ptr: nat, top: nat)

  ghost predicate Ready(img: Image, ram: Ram) {
    && img.InUse(ram.active) && !img.InUse(ram.active.Other())
    && Table(img.At(ram.active))
    && ram.ptr == 1 + 4 * |Entries(img.At(ram.active))|
    && BLOCK_SIZE <= ram.top <= BLOCK_SIZE + 1
  }

  lemma ReadyIsBootable(img: Image, ram: Ram)
    requires Ready(img, ram)
    ensures Bootable(img) && Chosen(img) == ram.active
  {
  }

  /** A single block in use decides the meaning, whatever the other holds. */
  lemma SoleBlock(img: Image, b: Block, es: seq<Entry>)
    requires img.InUse(b) && !img.InUse(b.Other())
    requires Holds(img.At(b), es)
    ensures Bootable(img) && Chosen(img) == b && Stored(img) == es
    ensures Meaning(img) == Contents(es)
  {
    HoldsUnique(img.At(b), es);
  }

  /** Steps that stay away from `b` and from the other block's status byte leave
      both alone. */
  lemma {:induction false} Confined(img: Image, u: Block, steps: seq<Step>, k: nat)
    requires k <= |steps|
    requires forall i :: 0 <= i < |steps| ==> steps[i].Program? && steps[i].block == u && steps[i].at >= 1
    ensures Run(img, steps, k).At(u.Other()) == img.At(u.Other())
    ensures Run(img, steps, k).At(u)[0] == img.At(u)[0]
  {
    if k > 0 {
      Confined(img, u, steps, k - 1);
    }
  }
}
