/** The Modbus CRC of common/modbus.c: two 256-entry tables against the
    shift-and-xor definition of section 6.2.2 of the MODBUS over Serial Line
    Specification and Implementation Guide V1.02. */
module ModbusCrc {

  // --- the definition: polynomial 0xA001, least significant bit first ---

  function Xor(a: bv16, b: bv16): bv16 { a ^ b }
  function Xor8(a: bv8, b: bv8): bv8 { a ^ b }

  function BitStep(c: bv16): bv16 {
    if c & 1 == 1 then (c >> 1) ^ 0xA001 else c >> 1
  }

  function Bits8(c: bv16): bv16 {
    BitStep(BitStep(BitStep(BitStep(BitStep(BitStep(BitStep(BitStep(c))))))))
  }

  function ByteStep(c: bv16, b: bv8): bv16 {
    Bits8(Xor(c, b as bv16))
  }

  /** The register after a message, starting from c. */
  function Crc(c: bv16, msg: seq<bv8>): bv16 {
    if msg == [] then c else ByteStep(Crc(c, msg[..|msg| - 1]), msg[|msg| - 1])
  }

  // --- the tables, row by row ---

  function Pick(c: bv8, v0: bv8, v1: bv8, v2: bv8, v3: bv8, v4: bv8, v5: bv8, v6: bv8, v7: bv8,
                v8: bv8, v9: bv8, v10: bv8, v11: bv8, v12: bv8, v13: bv8, v14: bv8, v15: bv8): bv8 {
    match c
    case 0 => v0 case 1 => v1 case 2 => v2 case 3 => v3
    case 4 => v4 case 5 => v5 case 6 => v6 case 7 => v7
    case 8 => v8 case 9 => v9 case 10 => v10 case 11 => v11
    case 12 => v12 case 13 => v13 case 14 => v14 case _ => v15
  }

  /** auchCRCHi */
  function TableHi(i: bv8): bv8 {
    var c := i & 0x0F;
    match i >> 4
    case 0 => Pick(c, 0x00, 0xC1, 0x81, 0x40, 0x01, 0xC0, 0x80, 0x41, 0x01, 0xC0, 0x80, 0x41, 0x00, 0xC1, 0x81, 0x40)
    case 1 => Pick(c, 0x01, 0xC0, 0x80, 0x41, 0x00, 0xC1, 0x81, 0x40, 0x00, 0xC1, 0x81, 0x40, 0x01, 0xC0, 0x80, 0x41)
    case 2 => Pick(c, 0x01, 0xC0, 0x80, 0x41, 0x00, 0xC1, 0x81, 0x40, 0x00, 0xC1, 0x81, 0x40, 0x01, 0xC0, 0x80, 0x41)
    case 3 => Pick(c, 0x00, 0xC1, 0x81, 0x40, 0x01, 0xC0, 0x80, 0x41, 0x01, 0xC0, 0x80, 0x41, 0x00, 0xC1, 0x81, 0x40)
    case 4 => Pick(c, 0x01, 0xC0, 0x80, 0x41, 0x00, 0xC1, 0x81, 0x40, 0x00, 0xC1, 0x81, 0x40, 0x01, 0xC0, 0x80, 0x41)
    case 5 => Pick(c, 0x00, 0xC1, 0x81, 0x40, 0x01, 0xC0, 0x80, 0x41, 0x01, 0xC0, 0x80, 0x41, 0x00, 0xC1, 0x81, 0x40)
    case 6 => Pick(c, 0x00, 0xC1, 0x81, 0x40, 0x01, 0xC0, 0x80, 0x41, 0x01, 0xC0, 0x80, 0x41, 0x00, 0xC1, 0x81, 0x40)
    case 7 => Pick(c, 0x01, 0xC0, 0x80, 0x41, 0x00, 0xC1, 0x81, 0x40, 0x00, 0xC1, 0x81, 0x40, 0x01, 0xC0, 0x80, 0x41)
    case 8 => Pick(c, 0x01, 0xC0, 0x80, 0x41, 0x00, 0xC1, 0x81, 0x40, 0x00, 0xC1, 0x81, 0x40, 0x01, 0xC0, 0x80, 0x41)
    case 9 => Pick(c, 0x00, 0xC1, 0x81, 0x40, 0x01, 0xC0, 0x80, 0x41, 0x01, 0xC0, 0x80, 0x41, 0x00, 0xC1, 0x81, 0x40)
    case 10 => Pick(c, 0x00, 0xC1, 0x81, 0x40, 0x01, 0xC0, 0x80, 0x41, 0x01, 0xC0, 0x80, 0x41, 0x00, 0xC1, 0x81, 0x40)
    case 11 => Pick(c, 0x01, 0xC0, 0x80, 0x41, 0x00, 0xC1, 0x81, 0x40, 0x00, 0xC1, 0x81, 0x40, 0x01, 0xC0, 0x80, 0x41)
    case 12 => Pick(c, 0x00, 0xC1, 0x81, 0x40, 0x01, 0xC0, 0x80, 0x41, 0x01, 0xC0, 0x80, 0x41, 0x00, 0xC1, 0x81, 0x40)
    case 13 => Pick(c, 0x01, 0xC0, 0x80, 0x41, 0x00, 0xC1, 0x81, 0x40, 0x00, 0xC1, 0x81, 0x40, 0x01, 0xC0, 0x80, 0x41)
    case 14 => Pick(c, 0x01, 0xC0, 0x80, 0x41, 0x00, 0xC1, 0x81, 0x40, 0x00, 0xC1, 0x81, 0x40, 0x01, 0xC0, 0x80, 0x41)
    case _ => Pick(c, 0x00, 0xC1, 0x81, 0x40, 0x01, 0xC0, 0x80, 0x41, 0x01, 0xC0, 0x80, 0x41, 0x00, 0xC1, 0x81, 0x40)
  }

  /** auchCRCLo */
  function TableLo(i: bv8): bv8 {
    var c := i & 0x0F;
    match i >> 4
    case 0 => Pick(c, 0x00, 0xC0, 0xC1, 0x01, 0xC3, 0x03, 0x02, 0xC2, 0xC6, 0x06, 0x07, 0xC7, 0x05, 0xC5, 0xC4, 0x04)
    case 1 => Pick(c, 0xCC, 0x0C, 0x0D, 0xCD, 0x0F, 0xCF, 0xCE, 0x0E, 0x0A, 0xCA, 0xCB, 0x0B, 0xC9, 0x09, 0x08, 0xC8)
    case 2 => Pick(c, 0xD8, 0x18, 0x19, 0xD9, 0x1B, 0xDB, 0xDA, 0x1A, 0x1E, 0xDE, 0xDF, 0x1F, 0xDD, 0x1D, 0x1C, 0xDC)
    case 3 => Pick(c, 0x14, 0xD4, 0xD5, 0x15, 0xD7, 0x17, 0x16, 0xD6, 0xD2, 0x12, 0x13, 0xD3, 0x11, 0xD1, 0xD0, 0x10)
    case 4 => Pick(c, 0xF0, 0x30, 0x31, 0xF1, 0x33, 0xF3, 0xF2, 0x32, 0x36, 0xF6, 0xF7, 0x37, 0xF5, 0x35, 0x34, 0xF4)
    case 5 => Pick(c, 0x3C, 0xFC, 0xFD, 0x3D, 0xFF, 0x3F, 0x3E, 0xFE, 0xFA, 0x3A, 0x3B, 0xFB, 0x39, 0xF9, 0xF8, 0x38)
    case 6 => Pick(c, 0x28, 0xE8, 0xE9, 0x29, 0xEB, 0x2B, 0x2A, 0xEA, 0xEE, 0x2E, 0x2F, 0xEF, 0x2D, 0xED, 0xEC, 0x2C)
    case 7 => Pick(c, 0xE4, 0x24, 0x25, 0xE5, 0x27, 0xE7, 0xE6, 0x26, 0x22, 0xE2, 0xE3, 0x23, 0xE1, 0x21, 0x20, 0xE0)
    case 8 => Pick(c, 0xA0, 0x60, 0x61, 0xA1, 0x63, 0xA3, 0xA2, 0x62, 0x66, 0xA6, 0xA7, 0x67, 0xA5, 0x65, 0x64, 0xA4)
    case 9 => Pick(c, 0x6C, 0xAC, 0xAD, 0x6D, 0xAF, 0x6F, 0x6E, 0xAE, 0xAA, 0x6A, 0x6B, 0xAB, 0x69, 0xA9, 0xA8, 0x68)
    case 10 => Pick(c, 0x78, 0xB8, 0xB9, 0x79, 0xBB, 0x7B, 0x7A, 0xBA, 0xBE, 0x7E, 0x7F, 0xBF, 0x7D, 0xBD, 0xBC, 0x7C)
    case 11 => Pick(c, 0xB4, 0x74, 0x75, 0xB5, 0x77, 0xB7, 0xB6, 0x76, 0x72, 0xB2, 0xB3, 0x73, 0xB1, 0x71, 0x70, 0xB0)
    case 12 => Pick(c, 0x50, 0x90, 0x91, 0x51, 0x93, 0x53, 0x52, 0x92, 0x96, 0x56, 0x57, 0x97, 0x55, 0x95, 0x94, 0x54)
    case 13 => Pick(c, 0x9C, 0x5C, 0x5D, 0x9D, 0x5F, 0x9F, 0x9E, 0x5E, 0x5A, 0x9A, 0x9B, 0x5B, 0x99, 0x59, 0x58, 0x98)
    case 14 => Pick(c, 0x88, 0x48, 0x49, 0x89, 0x4B, 0x8B, 0x8A, 0x4A, 0x4E, 0x8E, 0x8F, 0x4F, 0x8D, 0x4D, 0x4C, 0x8C)
    case _ => Pick(c, 0x44, 0x84, 0x85, 0x45, 0x87, 0x47, 0x46, 0x86, 0x82, 0x42, 0x43, 0x83, 0x41, 0x81, 0x80, 0x40)
  }

  lemma TableHiCorrect(i: bv8)
    ensures TableHi(i) as bv16 == Bits8(i as bv16) & 0xFF
  {
    match i & 0x0F
    case 0 => case 1 => case 2 => case 3 => case 4 => case 5 => case 6 => case 7 =>
    case 8 => case 9 => case 10 => case 11 => case 12 => case 13 => case 14 => case _ =>
  }

  lemma TableLoRows0To3(i: bv8)
    requires i < 64
    ensures TableLo(i) as bv16 == Bits8(i as bv16) >> 8
  {
    match i & 0x0F
    case 0 => case 1 => case 2 => case 3 => case 4 => case 5 => case 6 => case 7 =>
    case 8 => case 9 => case 10 => case 11 => case 12 => case 13 => case 14 => case _ =>
  }

  lemma TableLoRows4To7(i: bv8)
    requires 64 <= i < 128
    ensures TableLo(i) as bv16 == Bits8(i as bv16) >> 8
  {
  }

  lemma TableLoRows8To15(i: bv8)
    requires 128 <= i
    ensures TableLo(i) as bv16 == Bits8(i as bv16) >> 8
  {
  }

  /** Both tables hold, for every byte, what the eight shifts leave of it. */
  lemma TablesCorrect(i: bv8)
    ensures Register(TableHi(i), TableLo(i)) == Bits8(i as bv16)
  {
    hide Bits8, TableHi, TableLo;
    TableHiCorrect(i);
    if i < 64 {
      TableLoRows0To3(i);
    } else if i < 128 {
      TableLoRows4To7(i);
    } else {
      TableLoRows8To15(i);
    }
    Halves(Bits8(i as bv16), TableHi(i), TableLo(i));
  }

  // --- the table-driven computation ---

  /** The code's `Hi` byte is the low half of the defined register: the byte that
      is sent first. */
  function Register(hi: bv8, lo: bv8): bv16 {
    ((lo as bv16) << 8) | (hi as bv16)
  }

  lemma Halves(c: bv16, hi: bv8, lo: bv8)
    requires hi as bv16 == c & 0xFF && lo as bv16 == c >> 8
    ensures Register(hi, lo) == c
  {
  }

  lemma LowAndHigh(c: bv16)
    ensures c == Xor(c & 0xFF00, c & 0xFF)
  {
  }

  lemma HighShifts(c: bv16)
    ensures Bits8(c & 0xFF00) == c >> 8
  {
  }

  /** Eight shifts move the high half down and leave their mark by the low half alone. */
  lemma Bits8Low(c: bv16)
    ensures Bits8(c) == Xor(c >> 8, Bits8(c & 0xFF))
  {
    hide Bits8, Xor;
    LowAndHigh(c);
    Bits8Linear(c & 0xFF00, c & 0xFF);
    HighShifts(c);
  }

  lemma ShiftIn(hi: bv8, lo: bv8, b: bv8)
    ensures var x := Xor(Register(hi, lo), b as bv16);
            x >> 8 == lo as bv16 && x & 0xFF == Xor8(hi, b) as bv16
  {
  }

  lemma MixIn(hi: bv8, lo: bv8, t: bv8)
    ensures Xor(lo as bv16, Register(hi, t)) == Register(Xor8(lo, hi), t)
  {
  }

  /** One table look-up does the work of the eight shifts. */
  lemma TableStep(hi: bv8, lo: bv8, b: bv8)
    ensures Register(Xor8(lo, TableHi(Xor8(hi, b))), TableLo(Xor8(hi, b))) == ByteStep(Register(hi, lo), b)
  {
    hide *;
    assert ByteStep(Register(hi, lo), b) == Bits8(Xor(Register(hi, lo), b as bv16)) by { ByteStepIs(Register(hi,
            lo), b); }
    Bits8Low(Xor(Register(hi, lo), b as bv16));
    ShiftIn(hi, lo, b);
    TablesCorrect(Xor8(hi, b));
    MixIn(TableHi(Xor8(hi, b)), lo, TableLo(Xor8(hi, b)));
  }

  lemma ByteStepIs(c: bv16, b: bv8)
    ensures ByteStep(c, b) == Bits8(Xor(c, b as bv16))
  {
    hide Bits8, Xor;
  }

  /** Two bytes as the code compares them: the one sent first on top. */
  function Pair(first: bv8, second: bv8): bv16 {
    ((first as bv16) << 8) | (second as bv16)
  }

  /** The register as its two bytes are sent: low half first. */
  function Transmitted(c: bv16): bv16 {
    ((c & 0xFF) << 8) | (c >> 8)
  }

  lemma TransmittedRegister(hi: bv8, lo: bv8)
    ensures Pair(hi, lo) == Transmitted(Register(hi, lo))
  {
  }

  lemma StartRegister()
    ensures Register(0xFF, 0xFF) == 0xFFFF
  {
  }

  lemma CrcExtend(c: bv16, msg: seq<bv8>, n: nat)
    requires n < |msg|
    ensures Crc(c, msg[..n + 1]) == ByteStep(Crc(c, msg[..n]), msg[n])
  {
    hide ByteStep;
    assert msg[..n + 1][..n] == msg[..n];
  }

  /** crc16: `length` is one byte wide in the source. */
  method Crc16(p: seq<bv8>, length: nat) returns (r: bv16)
    requires length < 256 && length <= |p|
    ensures r == Transmitted(Crc(0xFFFF, p[..length]))
  {
    hide *;
    var hi: bv8, lo: bv8, i := 0xFF, 0xFF, 0;
    StartRegister();
    EmptyCrc(0xFFFF, p[..0]);
    while i < length
      invariant i <= length && Register(hi, lo) == Crc(0xFFFF, p[..i])
    {
      TableStep(hi, lo, p[i]);
      CrcExtend(0xFFFF, p, i);
      var index := Xor8(hi, p[i]);
      hi := Xor8(lo, TableHi(index));
      lo := TableLo(index);
      i := i + 1;
    }
    TransmittedRegister(hi, lo);
    r := Pair(hi, lo);
  }

  lemma EmptyCrc(c: bv16, msg: seq<bv8>)
    requires msg == []
    ensures Crc(c, msg) == c
  {
    hide ByteStep;
  }

  /** The running CRC kept in two globals. */
  class MainCrc {
    var hi: bv8
    var lo: bv8

    function Value(): bv16
      reads this
    {
      Register(hi, lo)
    }

    /** main_init_crc16. */
    constructor ()
      ensures Value() == Crc(0xFFFF, [])
    {
      hi, lo := 0xFF, 0xFF;
      assert Register(0xFF, 0xFF) == 0xFFFF;
    }

    /** main_crc16_byte: after every byte the globals hold the CRC of all so far. */
    method Byte(ch: bv8, ghost sofar: seq<bv8>)
      requires Value() == Crc(0xFFFF, sofar)
      modifies this
      ensures Value() == Crc(0xFFFF, sofar + [ch])
    {
      hide Register, ByteStep, TableHi, TableLo, Xor8;
      TableStep(hi, lo, ch);
      assert (sofar + [ch])[..|sofar|] == sofar;
      var index := Xor8(hi, ch);
      hi := Xor8(lo, TableHi(index));
      lo := TableLo(index);
    }
  }

  // --- error detection ---

  lemma Bits8Injective(a: bv16, b: bv16)
    requires Bits8(a) == Bits8(b)
    ensures a == b
  {
  }

  lemma XorInjective(a: bv16, b: bv16, k: bv16)
    requires Xor(a, k) == Xor(b, k)
    ensures a == b
  {
  }

  lemma ByteStepInjective(c: bv16, d: bv16, b: bv8)
    requires ByteStep(c, b) == ByteStep(d, b)
    ensures c == d
  {
    hide Bits8, Xor;
    Bits8Injective(Xor(c, b as bv16), Xor(d, b as bv16));
    XorInjective(c, d, b as bv16);
  }

  /** Two different registers stay different whatever bytes follow. */
  lemma {:induction false} DifferenceLasts(c: bv16, d: bv16, msg: seq<bv8>)
    requires c != d
    ensures Crc(c, msg) != Crc(d, msg)
  {
    hide ByteStep;
    if msg != [] {
      var n := |msg| - 1;
      DifferenceLasts(c, d, msg[..n]);
      if Crc(c, msg) == Crc(d, msg) {
        ByteStepInjective(Crc(c, msg[..n]), Crc(d, msg[..n]), msg[n]);
      }
    }
  }

  lemma {:induction false} CrcAppend(c: bv16, s: seq<bv8>, t: seq<bv8>)
    ensures Crc(c, s + t) == Crc(Crc(c, s), t)
  {
    hide ByteStep;
    if t == [] {
      assert s + t == s;
    } else {
      CrcAppend(c, s, t[..|t| - 1]);
      assert (s + t)[..|s + t| - 1] == s + t[..|t| - 1];
    }
  }

  // The eight shifts are linear: checked bit by bit for each value of the low bits.

  lemma LinearBothOdd(a: bv16, b: bv16)
    requires a & 1 == 1 && b & 1 == 1
    ensures BitStep(Xor(a, b)) == Xor(BitStep(a), BitStep(b))
  {
  }

  lemma LinearBothEven(a: bv16, b: bv16)
    requires a & 1 == 0 && b & 1 == 0
    ensures BitStep(Xor(a, b)) == Xor(BitStep(a), BitStep(b))
  {
  }

  lemma LinearOddEven(a: bv16, b: bv16)
    requires a & 1 == 1 && b & 1 == 0
    ensures BitStep(Xor(a, b)) == Xor(BitStep(a), BitStep(b)) && BitStep(Xor(b, a)) == Xor(BitStep(b), BitStep(a))
  {
  }

  lemma LowBit(a: bv16)
    ensures a & 1 == 0 || a & 1 == 1
  {
  }

  lemma BitStepLinear(a: bv16, b: bv16)
    ensures BitStep(Xor(a, b)) == Xor(BitStep(a), BitStep(b))
  {
    hide BitStep, Xor;
    LowBit(a);
    LowBit(b);
    if a & 1 == b & 1 {
      if a & 1 == 1 { LinearBothOdd(a, b); } else { LinearBothEven(a, b); }
    } else {
      if a & 1 == 1 { LinearOddEven(a, b); } else { LinearOddEven(b, a); }
    }
  }

  lemma Bits8Linear(a: bv16, b: bv16)
    ensures Bits8(Xor(a, b)) == Xor(Bits8(a), Bits8(b))
  {
    hide BitStep, Xor;
    var a1, b1 := BitStep(a), BitStep(b);
    var a2, b2 := BitStep(a1), BitStep(b1);
    var a3, b3 := BitStep(a2), BitStep(b2);
    var a4, b4 := BitStep(a3), BitStep(b3);
    var a5, b5 := BitStep(a4), BitStep(b4);
    var a6, b6 := BitStep(a5), BitStep(b5);
    var a7, b7 := BitStep(a6), BitStep(b6);
    BitStepLinear(a, b);
    BitStepLinear(a1, b1);
    BitStepLinear(a2, b2);
    BitStepLinear(a3, b3);
    BitStepLinear(a4, b4);
    BitStepLinear(a5, b5);
    BitStepLinear(a6, b6);
    BitStepLinear(a7, b7);
  }

  // A difference of two messages, run from a clear register, is the difference of
  // their registers. Bits are sent low end first, so `d` lists them in order.

  function Two(d: bv16): bv16 {
    Bits8(Xor(Bits8(d & 0xFF), d >> 8))
  }

  function Three(d: bv24): bv16 {
    Bits8(Xor(Two((d & 0xFFFF) as bv16), (d >> 16) as bv16))
  }

  // Bursts: every nonzero pattern of at most 16 consecutive bits, wherever it
  // starts in the first of three bytes, leaves a nonzero register.

  lemma BurstAt0(w: bv16)
    requires w != 0
    ensures Three(w as bv24) != 0
  {
    hide Bits8, Xor;
    Bits8Low(Bits8(w));
    ZeroStays();
    TwoIsTwice(w);
    ThreeOfTwo(w);
    if Three(w as bv24) == 0 {
      Bits8Injective(Two(w), 0);
      Bits8Injective(Bits8(w), 0);
      Bits8Injective(w, 0);
    }
  }

  lemma BurstAt1(w: bv16)
    requires w != 0
    ensures Three((w as bv24) << 1) != 0
  {
    hide *;
    if w < 0x8000 {
      BurstAt0(w << 1);
      assert ((w << 1) as bv24) == (w as bv24) << 1;
    } else {
      LastBit(w);
      DoubleIsEven(w);
      if Three((w as bv24) << 1) == 0 {
        XorZero(Two(w << 1), 1);
        ZeroStays();
        Bits8Injective(Xor(Two(w << 1), 1), 0);
        TwoIsTwice(w << 1);
        UnitPreimage();
        Bits8Injective(Bits8(w << 1), Bits8(0x4003));
        Bits8Injective(w << 1, 0x4003);
      }
    }
  }

  lemma DoubleIsEven(w: bv16)
    ensures w << 1 != 0x4003
  {
  }

  lemma LastBit(w: bv16)
    requires w >= 0x8000
    ensures Three((w as bv24) << 1) == Bits8(Xor(Two(w << 1), 1))
  {
    hide Bits8, Two, Xor;
    assert (((w as bv24) << 1) & 0xFFFF) as bv16 == w << 1;
    assert (((w as bv24) << 1) >> 16) as bv16 == 1;
  }

  lemma UnitPreimage()
    ensures Bits8(Bits8(0x4003)) == 1
  {
  }

  lemma BurstAt2(w: bv16)
    requires w != 0
    ensures Three((w as bv24) << 2) != 0
  {
    hide *;
    if w < 0x4000 {
      BurstAt0(w << 2);
      assert ((w << 2) as bv24) == (w as bv24) << 2;
    } else {
      LastTwoBits(w);
    }
  }

  lemma LastTwoBits(w: bv16)
    requires w >= 0x4000
    ensures Three((w as bv24) << 2) != 0
  {
    hide *;
    SplitTwoBits(w);
    if Three((w as bv24) << 2) == 0 {
      ZeroStays();
      Bits8Injective(Xor(Two(w << 2), w >> 14), 0);
      XorZero(Two(w << 2), w >> 14);
      TwoIsTwice(w << 2);
      SmallPreimages(w);
      var x: bv16 := if w < 0x8000 then 0x4003 else if w < 0xC000 then 0x8006 else 0xC005;
      Bits8Injective(Bits8(w << 2), Bits8(x));
      Bits8Injective(w << 2, x);
    }
  }

  lemma SplitTwoBits(w: bv16)
    ensures Three((w as bv24) << 2) == Bits8(Xor(Two(w << 2), w >> 14))
  {
    hide Bits8, Two, Xor;
    assert (((w as bv24) << 2) & 0xFFFF) as bv16 == w << 2;
    assert (((w as bv24) << 2) >> 16) as bv16 == w >> 14;
  }

  lemma SmallPreimages(w: bv16)
    requires w >= 0x4000
    ensures var x: bv16 := if w < 0x8000 then 0x4003 else if w < 0xC000 then 0x8006 else 0xC005;
            Bits8(Bits8(x)) == w >> 14 && w << 2 != x
  {
    assert w >> 14 == if w < 0x8000 then 1 else if w < 0xC000 then 2 else 3;
  }

  lemma BurstAt3(w: bv16)
    requires w != 0
    ensures Three((w as bv24) << 3) != 0
  {
  }

  lemma BurstAt4(w: bv16)
    requires w != 0
    ensures Three((w as bv24) << 4) != 0
  {
  }

  lemma BurstAt5(w: bv16)
    requires w != 0
    ensures Three((w as bv24) << 5) != 0
  {
  }

  lemma BurstAt6(w: bv16)
    requires w != 0
    ensures Three((w as bv24) << 6) != 0
  {
  }

  lemma BurstAt7(w: bv16)
    requires w != 0
    ensures Three((w as bv24) << 7) != 0
  {
  }

  lemma BurstAt8(w: bv16)
    requires w != 0
    ensures Three((w as bv24) << 8) != 0
  {
  }

  lemma ZeroStays()
    ensures Bits8(0) == 0
  {
  }

  lemma TwoIsTwice(w: bv16)
    ensures Two(w) == Bits8(Bits8(w))
  {
    hide Bits8;
    Bits8Low(w);
    XorSwap(w >> 8, Bits8(w & 0xFF));
  }

  lemma XorSwap(a: bv16, b: bv16)
    ensures Xor(a, b) == Xor(b, a)
  {
  }

  lemma ThreeOfTwo(w: bv16)
    ensures Three(w as bv24) == Bits8(Two(w))
  {
    hide Bits8, Two;
    assert ((w as bv24) & 0xFFFF) as bv16 == w;
    assert ((w as bv24) >> 16) as bv16 == 0;
  }

  /** The bits in which two three-byte stretches differ form a burst of at most 16
      bits, `w`, that starts `s` bits into the first byte. */
  predicate Burst(a: seq<bv8>, b: seq<bv8>, w: bv16, s: nat) {
    && |a| == |b| == 3
    && w != 0 && s <= 8
    && Stretch(Xor8(a[0], b[0]), Xor8(a[1], b[1]), Xor8(a[2], b[2])) == Shifted(w, s)
  }

  function Shifted(w: bv16, s: nat): bv24
    requires s <= 8
  {
    var d := w as bv24;
    match s
    case 0 => d
    case 1 => d << 1
    case 2 => d << 2
    case 3 => d << 3
    case 4 => d << 4
    case 5 => d << 5
    case 6 => d << 6
    case 7 => d << 7
    case _ => d << 8
  }

  /** Three bytes as a row of 24 bits, the first sent at the low end. */
  function Stretch(d0: bv8, d1: bv8, d2: bv8): bv24 {
    ((d2 as bv24) << 16) | ((d1 as bv24) << 8) | (d0 as bv24)
  }

  lemma BurstLeavesTrace(w: bv16, s: nat)
    requires w != 0 && s <= 8
    ensures Three(Shifted(w, s)) != 0
  {
    hide Three;
    match s
    case 0 => BurstAt0(w);
    case 1 => BurstAt1(w);
    case 2 => BurstAt2(w);
    case 3 => BurstAt3(w);
    case 4 => BurstAt4(w);
    case 5 => BurstAt5(w);
    case 6 => BurstAt6(w);
    case 7 => BurstAt7(w);
    case _ => BurstAt8(w);
  }

  lemma StretchParts(d0: bv8, d1: bv8, d2: bv8)
    ensures (Stretch(d0, d1, d2) & 0xFFFF) as bv16 & 0xFF == d0 as bv16
    ensures (Stretch(d0, d1, d2) & 0xFFFF) as bv16 >> 8 == d1 as bv16
    ensures (Stretch(d0, d1, d2) >> 16) as bv16 == d2 as bv16
  {
  }

  lemma XorFromZero(c: bv16)
    ensures Xor(0, c) == c
  {
  }

  lemma StretchBytes(d0: bv8, d1: bv8, d2: bv8)
    ensures Three(Stretch(d0, d1, d2)) == ByteStep(ByteStep(ByteStep(0, d0), d1), d2)
  {
    hide Bits8, Xor, Stretch;
    StretchParts(d0, d1, d2);
    XorFromZero(d0 as bv16);
  }

  /** One byte taken in by two registers: the difference moves on by itself. */
  lemma StepDifference(c: bv16, d: bv16, a: bv8, b: bv8)
    ensures Xor(ByteStep(c, a), ByteStep(d, b)) == ByteStep(Xor(c, d), Xor8(a, b))
  {
    hide *;
    ByteStepIs(c, a);
    ByteStepIs(d, b);
    ByteStepIs(Xor(c, d), Xor8(a, b));
    Bits8Linear(Xor(c, a as bv16), Xor(d, b as bv16));
    Regroup(c, d, a, b);
  }

  lemma XorAssoc(a: bv16, b: bv16, c: bv16)
    ensures Xor(Xor(a, b), c) == Xor(a, Xor(b, c))
  {
  }

  lemma XorShuffle(c: bv16, d: bv16, x: bv16, y: bv16)
    ensures Xor(Xor(c, x), Xor(d, y)) == Xor(Xor(c, d), Xor(x, y))
  {
    hide *;
    XorAssoc(c, x, Xor(d, y));
    XorAssoc(x, d, y);
    XorSwap(x, d);
    XorAssoc(d, x, y);
    XorAssoc(c, d, Xor(x, y));
  }

  lemma XorWidens(a: bv8, b: bv8)
    ensures Xor8(a, b) as bv16 == Xor(a as bv16, b as bv16)
  {
  }

  lemma Regroup(c: bv16, d: bv16, a: bv8, b: bv8)
    ensures Xor(Xor(c, a as bv16), Xor(d, b as bv16)) == Xor(Xor(c, d), Xor8(a, b) as bv16)
  {
    hide *;
    XorShuffle(c, d, a as bv16, b as bv16);
    XorWidens(a, b);
  }

  lemma XorSelf(c: bv16)
    ensures Xor(c, c) == 0
  {
  }

  lemma XorAgain(c: bv16, d: bv16)
    ensures Xor(Xor(c, d), d) == c
  {
  }

  lemma XorZero(c: bv16, d: bv16)
    ensures Xor(c, d) == 0 <==> c == d
  {
    hide Xor;
    XorSelf(c);
    XorAgain(c, d);
    XorFromZero(d);
  }

  lemma CrcThree(c: bv16, a: seq<bv8>)
    requires |a| == 3
    ensures Crc(c, a) == ByteStep(ByteStep(ByteStep(c, a[0]), a[1]), a[2])
  {
    hide ByteStep;
    EmptyCrc(c, a[..0]);
    CrcExtend(c, a, 0);
    CrcExtend(c, a, 1);
    CrcExtend(c, a, 2);
    assert a[..3] == a;
  }

  /** Any burst error of at most 16 bits changes the CRC of any message. */
  lemma BurstDetected(c: bv16, pre: seq<bv8>, a: seq<bv8>, b: seq<bv8>, post: seq<bv8>, w: bv16, s: nat)
    requires Burst(a, b, w, s)
    ensures Crc(c, pre + a + post) != Crc(c, pre + b + post)
  {
    hide ByteStep, Bits8, Xor, Three, Stretch, Shifted;
    var k := Crc(c, pre);
    CrcThree(k, a);
    CrcThree(k, b);
    var a1, b1 := ByteStep(k, a[0]), ByteStep(k, b[0]);
    var a2, b2 := ByteStep(a1, a[1]), ByteStep(b1, b[1]);
    StepDifference(k, k, a[0], b[0]);
    StepDifference(a1, b1, a[1], b[1]);
    StepDifference(a2, b2, a[2], b[2]);
    XorZero(k, k);
    StretchBytes(Xor8(a[0], b[0]), Xor8(a[1], b[1]), Xor8(a[2], b[2]));
    BurstLeavesTrace(w, s);
    XorZero(Crc(k, a), Crc(k, b));
    AfterDifference(c, pre, a, b, post);
  }

  /** A difference of the registers after a stretch survives the rest. */
  lemma AfterDifference(c: bv16, pre: seq<bv8>, a: seq<bv8>, b: seq<bv8>, post: seq<bv8>)
    ensures Crc(Crc(c, pre), a) != Crc(Crc(c, pre), b) ==> Crc(c, pre + a + post) != Crc(c, pre + b + post)
  {
    hide ByteStep;
    CrcAppend(c, pre + a, post);
    CrcAppend(c, pre + b, post);
    CrcAppend(c, pre, a);
    CrcAppend(c, pre, b);
    if Crc(Crc(c, pre), a) != Crc(Crc(c, pre), b) {
      DifferenceLasts(Crc(c, pre + a), Crc(c, pre + b), post);
    }
  }

  // --- one and two bytes, anywhere, in messages of any length ---

  lemma ByteInjective(c: bv16, a: bv8, b: bv8)
    requires ByteStep(c, a) == ByteStep(c, b)
    ensures a == b
  {
    hide Bits8;
    Bits8Injective(Xor(c, a as bv16), Xor(c, b as bv16));
  }

  lemma OneByteDetected(c: bv16, pre: seq<bv8>, a: bv8, b: bv8, post: seq<bv8>)
    requires a != b
    ensures Crc(c, pre + [a] + post) != Crc(c, pre + [b] + post)
  {
    hide ByteStep;
    var k := Crc(c, pre);
    EmptyCrc(k, []);
    CrcExtend(k, [a], 0);
    CrcExtend(k, [b], 0);
    assert [a][..0] == [] && [b][..0] == [] && [a][..1] == [a] && [b][..1] == [b];
    if ByteStep(k, a) == ByteStep(k, b) { ByteInjective(k, a, b); }
    AfterDifference(c, pre, [a], [b], post);
  }

  // --- the check of a received frame ---

  /** Number of bytes the check covers: `main_rece_size - 2` handed over as one byte. */
  function Covered(size: nat): nat
    requires 2 <= size
  {
    (size - 2) % 256
  }

  predicate Accept(buf: seq<bv8>, size: nat)
    requires 2 <= size <= |buf|
  {
    Transmitted(Crc(0xFFFF, buf[..Covered(size)])) == Pair(buf[size - 2], buf[size - 1])
  }

  /** The comparison at the end of checkData. */
  method CheckFrame(buf: seq<bv8>, size: nat) returns (ok: bool)
    requires 2 <= size <= |buf|
    ensures ok == Accept(buf, size)
    ensures size <= 257 ==> (ok <==> Crc(0xFFFF, buf[..size]) == 0)
  {
    hide *;
    AcceptIs(buf, size);
    var crc := Crc16(buf, (size - 2) % 256);
    ok := crc == Pair(buf[size - 2], buf[size - 1]);
    if size <= 257 { AcceptIffClear(buf, size); }
  }

  lemma AcceptIs(buf: seq<bv8>, size: nat)
    requires 2 <= size <= |buf|
    ensures Covered(size) == (size - 2) % 256 <= size - 2
    ensures Accept(buf, size) <==> Transmitted(Crc(0xFFFF, buf[..Covered(size)])) == Pair(buf[size - 2], buf[size - 1])
  {
    hide Crc, Transmitted, Pair;
  }

  // The register is cleared by exactly the two bytes that spell it.

  lemma UpperByteOnly(x: bv16, b: bv8)
    ensures Bits8(x) == b as bv16 <==> x == (b as bv16) << 8
  {
    hide Bits8, Xor;
    ShiftedByte(b);
    if Bits8(x) == b as bv16 {
      Bits8Injective(x, (b as bv16) << 8);
    }
  }

  lemma ShiftedByte(b: bv8)
    ensures Bits8((b as bv16) << 8) == b as bv16
  {
  }

  lemma XorTwice(y: bv16, x: bv16)
    ensures Xor(Xor(y, x), x) == y
  {
  }

  lemma MixedPair(first: bv8, second: bv8)
    ensures Xor((second as bv16) << 8, first as bv16) == Pair(second, first)
    ensures Transmitted(Pair(second, first)) == Pair(first, second)
  {
  }

  lemma SpelledOut(c: bv16, first: bv8, second: bv8)
    ensures Xor(c, first as bv16) == (second as bv16) << 8 <==> Transmitted(c) == Pair(first, second)
  {
    hide *;
    XorTwice(c, first as bv16);
    XorTwice((second as bv16) << 8, first as bv16);
    MixedPair(first, second);
    TransmittedInjective(c, Pair(second, first));
  }

  lemma ClearedBy(c: bv16, first: bv8, second: bv8)
    ensures ByteStep(ByteStep(c, first), second) == 0 <==> Transmitted(c) == Pair(first, second)
  {
    hide *;
    var x := Xor(c, first as bv16);
    ByteStepIs(c, first);
    ByteStepIs(Bits8(x), second);
    ZeroStays();
    if Bits8(Xor(Bits8(x), second as bv16)) == 0 {
      Bits8Injective(Xor(Bits8(x), second as bv16), 0);
    }
    XorZero(Bits8(x), second as bv16);
    UpperByteOnly(x, second);
    SpelledOut(c, first, second);
  }

  /** A frame of at most 257 bytes passes exactly when the CRC of all of it ends at zero. */
  lemma AcceptIffClear(buf: seq<bv8>, size: nat)
    requires 2 <= size <= |buf| && size <= 257
    ensures Accept(buf, size) <==> Crc(0xFFFF, buf[..size]) == 0
  {
    hide *;
    AcceptIs(buf, size);
    assert (size - 2) % 256 == size - 2;
    CrcExtend(0xFFFF, buf, size - 2);
    CrcExtend(0xFFFF, buf, size - 1);
    ClearedBy(Crc(0xFFFF, buf[..size - 2]), buf[size - 2], buf[size - 1]);
  }

  /** A burst of at most 16 bits anywhere in an accepted frame makes it rejected. */
  lemma BurstRejected(pre: seq<bv8>, a: seq<bv8>, b: seq<bv8>, post: seq<bv8>, w: bv16, s: nat)
    requires Burst(a, b, w, s)
    requires |pre| + 3 + |post| <= 257
    requires Accept(pre + a + post, |pre| + 3 + |post|)
    ensures !Accept(pre + b + post, |pre| + 3 + |post|)
  {
    hide Accept, Crc, Stretch, Shifted;
    var size := |pre| + 3 + |post|;
    var f, g := pre + a + post, pre + b + post;
    AcceptIffClear(f, size);
    AcceptIffClear(g, size);
    assert f[..size] == f && g[..size] == g;
    BurstDetected(0xFFFF, pre, a, b, post, w, s);
  }

  lemma TransmittedInjective(c: bv16, d: bv16)
    ensures Transmitted(c) == Transmitted(d) ==> c == d
  {
  }

  lemma PairInjective(a: bv8, b: bv8, x: bv8, y: bv8)
    ensures Pair(a, b) == Pair(x, y) ==> a == x && b == y
  {
  }

  /** Frames longer than 257 bytes are checked only in part: changing one byte of an
      accepted frame goes unnoticed exactly when it lies between the covered bytes and
      the two CRC bytes. */
  lemma OneByteRejected(buf: seq<bv8>, size: nat, k: nat, v: bv8)
    requires 2 <= size <= |buf| && k < size && v != buf[k]
    requires Accept(buf, size)
    ensures Accept(buf[k := v], size) <==> Covered(size) <= k < size - 2
  {
    hide *;
    var n, g := Covered(size), buf[k := v];
    AcceptIs(buf, size);
    AcceptIs(g, size);
    if k < n {
      assert buf[..n] == buf[..k] + [buf[k]] + buf[k + 1..n];
      assert g[..n] == buf[..k] + [v] + buf[k + 1..n];
      OneByteDetected(0xFFFF, buf[..k], buf[k], v, buf[k + 1..n]);
      TransmittedInjective(Crc(0xFFFF, buf[..n]), Crc(0xFFFF, g[..n]));
    } else {
      assert buf[..n] == g[..n];
      PairInjective(buf[size - 2], buf[size - 1], g[size - 2], g[size - 1]);
    }
  }

  /** Such a frame: 258 bytes of 0xFF, of which the check covers none at all. */
  lemma ChangeUnnoticed(v: bv8)
    ensures var buf := seq(258, _ => 0xFF as bv8);
            Accept(buf, 258) && Covered(258) == 0 && Accept(buf[0 := v], 258)
  {
    var buf := seq(258, _ => 0xFF as bv8);
    NothingCovered(buf);
    NothingCovered(buf[0 := v]);
  }

  lemma NothingCovered(buf: seq<bv8>)
    requires |buf| == 258 && buf[256] == buf[257] == 0xFF
    ensures Covered(258) == 0 && Accept(buf, 258)
  {
    hide *;
    AcceptIs(buf, 258);
    assert (258 - 2) % 256 == 0;
    EmptyCrc(0xFFFF, buf[..0]);
    AllOnes();
  }

  lemma AllOnes()
    ensures Transmitted(0xFFFF) == Pair(0xFF, 0xFF)
  {
  }

  // --- errors within two adjacent bytes ---

  lemma PairTrace(d0: bv8, d1: bv8)
    ensures ByteStep(ByteStep(0, d0), d1) == Two(Pair(d1, d0))
  {
    hide Bits8, Xor, Pair;
    XorFromZero(d0 as bv16);
    PairParts(d1, d0);
  }

  lemma PairParts(first: bv8, second: bv8)
    ensures Pair(first, second) & 0xFF == second as bv16 && Pair(first, second) >> 8 == first as bv16
  {
  }

  lemma ZeroPair(d0: bv8, d1: bv8)
    ensures Pair(d1, d0) == 0 ==> d0 == 0 && d1 == 0
  {
  }

  lemma NoTrace(d0: bv8, d1: bv8)
    requires ByteStep(ByteStep(0, d0), d1) == 0
    ensures d0 == 0 && d1 == 0
  {
    hide *;
    var d := Pair(d1, d0);
    PairTrace(d0, d1);
    TwoIsTwice(d);
    ZeroStays();
    Bits8Injective(Bits8(d), 0);
    Bits8Injective(d, 0);
    ZeroPair(d0, d1);
  }

  lemma ByteDifference(a: bv8, b: bv8)
    ensures Xor8(a, b) == 0 ==> a == b
  {
  }

  lemma TwoBytesDiffer(k: bv16, a0: bv8, a1: bv8, b0: bv8, b1: bv8)
    requires ByteStep(ByteStep(k, a0), a1) == ByteStep(ByteStep(k, b0), b1)
    ensures a0 == b0 && a1 == b1
  {
    hide *;
    StepDifference(k, k, a0, b0);
    StepDifference(ByteStep(k, a0), ByteStep(k, b0), a1, b1);
    XorZero(k, k);
    XorZero(ByteStep(ByteStep(k, a0), a1), ByteStep(ByteStep(k, b0), b1));
    NoTrace(Xor8(a0, b0), Xor8(a1, b1));
    ByteDifference(a0, b0);
    ByteDifference(a1, b1);
  }

  lemma CrcTwo(c: bv16, a: seq<bv8>)
    requires |a| == 2
    ensures Crc(c, a) == ByteStep(ByteStep(c, a[0]), a[1])
  {
    hide ByteStep;
    EmptyCrc(c, a[..0]);
    CrcExtend(c, a, 0);
    CrcExtend(c, a, 1);
    assert a[..2] == a;
  }

  /** Messages that differ within two adjacent bytes never share a CRC. */
  lemma TwoBytesDetected(c: bv16, pre: seq<bv8>, a: seq<bv8>, b: seq<bv8>, post: seq<bv8>)
    requires |a| == |b| == 2 && a != b
    ensures Crc(c, pre + a + post) != Crc(c, pre + b + post)
  {
    hide *;
    var k := Crc(c, pre);
    CrcTwo(k, a);
    CrcTwo(k, b);
    if Crc(k, a) == Crc(k, b) {
      TwoBytesDiffer(k, a[0], a[1], b[0], b[1]);
    }
    AfterDifference(c, pre, a, b, post);
  }

  /** Changing one or both of two adjacent bytes of an accepted frame makes it rejected. */
  lemma TwoBytesRejected(pre: seq<bv8>, a: seq<bv8>, b: seq<bv8>, post: seq<bv8>)
    requires |a| == |b| == 2 && a != b
    requires |pre| + 2 + |post| <= 257
    requires Accept(pre + a + post, |pre| + 2 + |post|)
    ensures !Accept(pre + b + post, |pre| + 2 + |post|)
  {
    hide Accept, Crc;
    var size := |pre| + 2 + |post|;
    var f, g := pre + a + post, pre + b + post;
    AcceptIffClear(f, size);
    AcceptIffClear(g, size);
    assert f[..size] == f && g[..size] == g;
    TwoBytesDetected(0xFFFF, pre, a, b, post);
  }

  // --- an odd number of bits, anywhere ---

  lemma Halved(b: bv8)
    ensures b == 0 || b >> 1 < b
  {
  }

  /** The number of one bits. */
  function Ones(b: bv8): nat {
    if b == 0 then 0
    else
      Halved(b);
      (if b & 1 == 1 then 1 else 0) + Ones(b >> 1)
  }

  /** In how many bits two messages of the same length differ. */
  function DifferingBits(a: seq<bv8>, b: seq<bv8>): nat
    requires |a| == |b|
  {
    if a == [] then 0
    else DifferingBits(a[..|a| - 1], b[..|b| - 1]) + Ones(Xor8(a[|a| - 1], b[|b| - 1]))
  }

  lemma Shrinks(c: bv16)
    ensures c == 0 || c >> 1 < c
  {
  }

  /** Whether an odd number of bits are ones. */
  predicate Odd(c: bv16) {
    if c == 0 then false
    else
      Shrinks(c);
      (c & 1 == 1) != Odd(c >> 1)
  }

  lemma ZeroBits()
    ensures (0 as bv16) & 1 == 0 && (0 as bv16) >> 1 == 0
  {
  }

  /** The lowest bit and the rest. */
  lemma OddShift(c: bv16)
    ensures Odd(c) <==> (c & 1 == 1) != Odd(c >> 1)
  {
    ZeroBits();
  }

  lemma XorShifts(a: bv16, b: bv16)
    ensures Xor(a, b) >> 1 == Xor(a >> 1, b >> 1)
  {
  }

  lemma XorLowBit(a: bv16, b: bv16)
    ensures Xor(a, b) & 1 == Xor(a & 1, b & 1)
  {
  }

  lemma XorOfBits(a: bv16, b: bv16)
    requires (a == 0 || a == 1) && (b == 0 || b == 1)
    ensures Xor(a, b) == 1 <==> (a == 1) != (b == 1)
  {
  }

  lemma {:induction false} OddXor(a: bv16, b: bv16)
    ensures Odd(Xor(a, b)) <==> Odd(a) != Odd(b)
    decreases a, b
  {
    hide Xor, Odd;
    if a == 0 && b == 0 {
      XorSelf(0);
      ZeroIsEven();
    } else {
      Shrinks(a);
      Shrinks(b);
      ZeroBits();
      OddXor(a >> 1, b >> 1);
      OddShift(a);
      OddShift(b);
      OddShift(Xor(a, b));
      XorShifts(a, b);
      XorLowBit(a, b);
      LowBit(a);
      LowBit(b);
      XorOfBits(a & 1, b & 1);
    }
  }

  lemma ZeroIsEven()
    ensures !Odd(0)
  {
  }

  lemma OddPolynomial()
    ensures Odd(0xA001)
  {
    assert Odd(0xA001) == !Odd(0x5000) == !Odd(0x2800) == !Odd(0x1400) == !Odd(0x0A00) == !Odd(0x0500);
    assert Odd(0x0500) == Odd(0x0280) == Odd(0x0140) == Odd(0x00A0) == Odd(0x0050) == Odd(0x0028);
    assert Odd(0x0028) == Odd(0x0014) == Odd(0x000A) == Odd(0x0005) == !Odd(0x0002) == !Odd(0x0001) == false;
  }

  lemma StepIs(c: bv16)
    ensures BitStep(c) == if c & 1 == 1 then Xor(c >> 1, 0xA001) else c >> 1
  {
  }

  /** The polynomial has three one bits, so a shift that drops a one bit puts back an odd
      number of them. */
  lemma OddStep(c: bv16)
    ensures Odd(BitStep(c)) <==> Odd(c)
  {
    hide *;
    StepIs(c);
    OddShift(c);
    OddXor(c >> 1, 0xA001);
    OddPolynomial();
  }

  lemma OddBits8(c: bv16)
    ensures Odd(Bits8(c)) <==> Odd(c)
  {
    hide Odd, BitStep;
    OddStep(c);
    OddStep(BitStep(c));
    OddStep(BitStep(BitStep(c)));
    OddStep(BitStep(BitStep(BitStep(c))));
    OddStep(BitStep(BitStep(BitStep(BitStep(c)))));
    OddStep(BitStep(BitStep(BitStep(BitStep(BitStep(c))))));
    OddStep(BitStep(BitStep(BitStep(BitStep(BitStep(BitStep(c)))))));
    OddStep(BitStep(BitStep(BitStep(BitStep(BitStep(BitStep(BitStep(c))))))));
  }

  lemma OddByte(c: bv16, b: bv8)
    ensures Odd(ByteStep(c, b)) <==> Odd(c) != Odd(b as bv16)
  {
    hide *;
    ByteStepIs(c, b);
    OddBits8(Xor(c, b as bv16));
    OddXor(c, b as bv16);
  }

  lemma Widened(b: bv8)
    ensures (b >> 1) as bv16 == (b as bv16) >> 1 && ((b as bv16) & 1 == 1 <==> b & 1 == 1)
    ensures b as bv16 == 0 <==> b == 0
  {
  }

  lemma {:induction false} OddOnes(b: bv8)
    ensures Odd(b as bv16) <==> Ones(b) % 2 == 1
    decreases b
  {
    Widened(b);
    if b != 0 {
      Halved(b);
      OddOnes(b >> 1);
    }
  }

  lemma OddPair(a: bv8, b: bv8)
    ensures Odd(a as bv16) != Odd(b as bv16) <==> Ones(Xor8(a, b)) % 2 == 1
  {
    hide *;
    OddXor(a as bv16, b as bv16);
    XorWidens(a, b);
    OddOnes(Xor8(a, b));
  }

  lemma OddBytes(c: bv16, d: bv16, a: bv8, b: bv8)
    ensures Odd(ByteStep(c, a)) != Odd(ByteStep(d, b)) <==> (Odd(c) != Odd(d)) != (Ones(Xor8(a, b)) % 2 == 1)
  {
    hide *;
    OddByte(c, a);
    OddByte(d, b);
    OddPair(a, b);
  }

  lemma OddSum(m: nat, n: nat)
    ensures (m + n) % 2 == 1 <==> (m % 2 == 1) != (n % 2 == 1)
  {
  }

  /** The registers of two messages differ in parity just as the messages do. */
  lemma {:induction false} OddDifference(c: bv16, a: seq<bv8>, b: seq<bv8>)
    requires |a| == |b|
    ensures Odd(Crc(c, a)) != Odd(Crc(c, b)) <==> DifferingBits(a, b) % 2 == 1
  {
    hide *;
    if a == [] {
      NoDifference(c, a, b);
    } else {
      var n := |a| - 1;
      OddDifference(c, a[..n], b[..n]);
      LastDifference(c, a, b);
      OddBytes(Crc(c, a[..n]), Crc(c, b[..n]), a[n], b[n]);
      OddSum(DifferingBits(a[..n], b[..n]), Ones(Xor8(a[n], b[n])));
    }
  }

  lemma NoDifference(c: bv16, a: seq<bv8>, b: seq<bv8>)
    requires a == b == []
    ensures Crc(c, a) == Crc(c, b) && DifferingBits(a, b) == 0
  {
    hide ByteStep;
  }

  lemma LastDifference(c: bv16, a: seq<bv8>, b: seq<bv8>)
    requires |a| == |b| > 0
    ensures var n := |a| - 1;
            && Crc(c, a) == ByteStep(Crc(c, a[..n]), a[n]) && Crc(c, b) == ByteStep(Crc(c, b[..n]), b[n])
            && DifferingBits(a, b) == DifferingBits(a[..n], b[..n]) + Ones(Xor8(a[n], b[n]))
  {
    hide ByteStep, Ones, Xor8;
  }

  /** Messages that differ in an odd number of bits, however far apart, never share a CRC. */
  lemma OddErrorDetected(c: bv16, a: seq<bv8>, b: seq<bv8>)
    requires |a| == |b| && DifferingBits(a, b) % 2 == 1
    ensures Crc(c, a) != Crc(c, b)
  {
    OddDifference(c, a, b);
  }

  /** So a frame of at most 257 bytes damaged in an odd number of bits is rejected. */
  lemma OddErrorRejected(buf: seq<bv8>, buf': seq<bv8>)
    requires 2 <= |buf| == |buf'| <= 257 && DifferingBits(buf, buf') % 2 == 1
    requires Accept(buf, |buf|)
    ensures !Accept(buf', |buf|)
  {
    hide Accept, Crc, DifferingBits;
    AcceptIffClear(buf, |buf|);
    AcceptIffClear(buf', |buf|);
    assert buf[..|buf|] == buf && buf'[..|buf|] == buf';
    OddErrorDetected(0xFFFF, buf, buf');
  }
}
