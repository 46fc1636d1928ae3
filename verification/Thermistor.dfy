/** Thermistor readings (IO_control/inputs.c): a halving search for the table segment of
    a raw value and interpolation inside it, against a scan from the first segment. */
module Thermistor {
  import opened Common

  const NO_TABLE_RANGES := 16
  const MIDDLE_RANGE := 8

  /** A table of 17 knots, the reading falling as the temperature rises. */
  predicate IsTable(tbl: seq<u16>) {
    |tbl| == 17 && forall i, j :: 0 <= i < j < 17 ==> tbl[i] > tbl[j]
  }

  /** The scale of a range: a sixteenth of its span, and its ends. */
  datatype Scale = Scale(step: int, lo: int, hi: int)

  predicate IsScale(s: Scale) {
    s.step > 0 && s.hi == s.lo + 16 * s.step
  }

  // --- the reference: scan for the segment, interpolate ---

  /** The first segment from j on whose lower knot is not above raw. */
  function Scan(tbl: seq<u16>, raw: u16, j: nat): (k: nat)
    requires IsTable(tbl) && j < 16 && tbl[16] <= raw
    ensures j <= k < 16 && tbl[k + 1] <= raw && (k > j ==> raw < tbl[k])
    decreases 16 - j
  {
    if tbl[j + 1] <= raw then j else Scan(tbl, raw, j + 1)
  }

  /** Position on the scale in hundredths of a segment, when raw is in segment j. */
  function Work(tbl: seq<u16>, raw: u16, j: nat): int
    requires IsTable(tbl) && j < 16
  {
    (tbl[j] - raw) * 100 / (tbl[j] - tbl[j + 1]) + j * 100
  }

  function Interpolated(s: Scale, work: int): int {
    s.step * work / 100 + s.lo
  }

  function Reading(tbl: seq<u16>, s: Scale, raw: u16): int
    requires IsTable(tbl)
  {
    if raw <= tbl[16] then s.hi
    else if raw >= tbl[0] then s.lo
    else Interpolated(s, Work(tbl, raw, Scan(tbl, raw, 0)))
  }

  predicate InSegment(tbl: seq<u16>, raw: u16, j: nat)
    requires IsTable(tbl) && j < 16
  {
    tbl[j + 1] <= raw <= tbl[j]
  }

  // --- facts about the reference ---

  lemma QuotientFalls(x: int, y: int, d: int)
    requires x >= y && d > 0
    ensures x / d >= y / d
  {
    if x / d + 1 <= y / d { ProductGrows(d, x / d + 1, y / d); }
  }

  lemma ProductGrows(d: int, a: int, b: int)
    requires d > 0 && a <= b
    ensures d * a <= d * b
  {
  }

  lemma ExactQuotient(d: int)
    requires d > 0
    ensures d * 100 / d == 100
  {
  }

  lemma QuotientBetween(x: int, d: int)
    requires 0 <= x <= d && d > 0
    ensures 0 <= x * 100 / d <= 100 && (x == 0 ==> x * 100 / d == 0) && (x == d ==> x * 100 / d == 100)
  {
    ExactQuotient(d);
    QuotientFalls(d * 100, x * 100, d);
    QuotientFalls(x * 100, 0, d);
  }

  lemma WorkBetween(tbl: seq<u16>, raw: u16, j: nat)
    requires IsTable(tbl) && j < 16 && InSegment(tbl, raw, j)
    ensures j * 100 <= Work(tbl, raw, j) <= j * 100 + 100
    ensures raw == tbl[j] ==> Work(tbl, raw, j) == j * 100
    ensures raw == tbl[j + 1] ==> Work(tbl, raw, j) == j * 100 + 100
  {
    QuotientBetween(tbl[j] - raw, tbl[j] - tbl[j + 1]);
  }

  /** Segments that share a raw value share a knot, and agree on it. */
  lemma TiesAgree(tbl: seq<u16>, raw: u16, i: nat, j: nat)
    requires IsTable(tbl) && i < 16 && j < 16 && InSegment(tbl, raw, i) && InSegment(tbl, raw, j)
    ensures Work(tbl, raw, i) == Work(tbl, raw, j)
  {
    WorkBetween(tbl, raw, i);
    WorkBetween(tbl, raw, j);
  }

  lemma ScanFinds(tbl: seq<u16>, raw: u16)
    requires IsTable(tbl) && tbl[16] <= raw <= tbl[0]
    ensures InSegment(tbl, raw, Scan(tbl, raw, 0))
  {
  }

  lemma KnotsFall(tbl: seq<u16>, a: nat, b: nat)
    requires IsTable(tbl) && a <= 16 && b <= 16
    ensures a <= b ==> tbl[a] >= tbl[b]
  {
  }

  lemma ScanFalls(tbl: seq<u16>, raw: u16, raw': u16)
    requires IsTable(tbl) && tbl[16] <= raw <= raw' <= tbl[0]
    ensures Scan(tbl, raw, 0) >= Scan(tbl, raw', 0)
  {
    var i, j := Scan(tbl, raw, 0), Scan(tbl, raw', 0);
    KnotsFall(tbl, i + 1, j);
  }

  lemma SameSegmentFalls(tbl: seq<u16>, raw: u16, raw': u16, i: nat)
    requires IsTable(tbl) && i < 16 && raw <= raw'
    ensures Work(tbl, raw, i) >= Work(tbl, raw', i)
  {
    QuotientFalls((tbl[i] - raw) * 100, (tbl[i] - raw') * 100, tbl[i] - tbl[i + 1]);
  }

  lemma WorkFalls(tbl: seq<u16>, raw: u16, raw': u16)
    requires IsTable(tbl) && tbl[16] <= raw <= raw' <= tbl[0]
    ensures Work(tbl, raw, Scan(tbl, raw, 0)) >= Work(tbl, raw', Scan(tbl, raw', 0))
  {
    hide *;
    var i, j := Scan(tbl, raw, 0), Scan(tbl, raw', 0);
    ScanFalls(tbl, raw, raw');
    ScanFinds(tbl, raw);
    ScanFinds(tbl, raw');
    if i == j {
      SameSegmentFalls(tbl, raw, raw', i);
    } else {
      WorkBetween(tbl, raw, i);
      WorkBetween(tbl, raw', j);
    }
  }

  lemma InterpolatedFalls(s: Scale, a: int, b: int)
    requires IsScale(s) && a >= b
    ensures Interpolated(s, a) >= Interpolated(s, b)
  {
    assert s.step * a >= s.step * b;
    QuotientFalls(s.step * a, s.step * b, 100);
  }

  lemma InterpolatedEnds(s: Scale)
    requires IsScale(s)
    ensures Interpolated(s, 0) == s.lo && Interpolated(s, 1600) == s.hi
  {
  }

  /** The reading stays on the scale. */
  lemma ReadingWithin(tbl: seq<u16>, s: Scale, raw: u16)
    requires IsTable(tbl) && IsScale(s)
    ensures s.lo <= Reading(tbl, s, raw) <= s.hi
  {
    if tbl[16] < raw < tbl[0] {
      var j := Scan(tbl, raw, 0);
      WorkBetween(tbl, raw, j);
      InterpolatedEnds(s);
      InterpolatedFalls(s, Work(tbl, raw, j), 0);
      InterpolatedFalls(s, 1600, Work(tbl, raw, j));
    }
  }

  /** The larger the raw value, the lower the reading. */
  lemma ReadingFalls(tbl: seq<u16>, s: Scale, raw: u16, raw': u16)
    requires IsTable(tbl) && IsScale(s) && raw <= raw'
    ensures Reading(tbl, s, raw) >= Reading(tbl, s, raw')
  {
    if tbl[16] < raw && raw' < tbl[0] {
      WorkFalls(tbl, raw, raw');
      InterpolatedFalls(s, Work(tbl, raw, Scan(tbl, raw, 0)), Work(tbl, raw', Scan(tbl, raw', 0)));
    } else {
      ReadingWithin(tbl, s, raw);
      ReadingWithin(tbl, s, raw');
    }
  }

  /** How far a reading v of raw in segment j may be from the straight line between the
      two knots: never above it, and below it by less than the rounding of two divisions
      by a hundred and by the distance of the knots. On the line itself,
      (v - lo) * d == step * (j * d + tbl[j] - raw) with d the distance. */
  predicate NearLine(tbl: seq<u16>, s: Scale, raw: u16, j: nat, v: int)
    requires IsTable(tbl) && j < 16
  {
    var d := tbl[j] - tbl[j + 1];
    0 <= 100 * (s.step * (j * d + tbl[j] - raw) - (v - s.lo) * d) < d * (s.step + 100)
  }

  lemma Distributes(a: int, b: int, c: int)
    ensures a * (b + c) == a * b + a * c
  {
  }

  lemma Regroups(a: int, b: int, c: int)
    ensures a * (b * c) == (a * b) * c == b * (a * c)
  {
  }

  /** The two divisions: by d for the place w in hundredths, and by 100 for the height h. */
  lemma TwoRoundings(x: int, d: int, j: int, step: int, q: int, h: int)
    requires d > 0 && step > 0 && q * d <= x * 100 <= q * d + d - 1 && h * 100 <= step * (q + j * 100) <= h * 100 + 99
    ensures 0 <= 100 * (step * (j * d + x) - h * d) < d * (step + 100)
  {
    var w := q + j * 100;
    var e, f := x * 100 - q * d, step * w - h * 100;
    assert 100 * (j * d + x) == d * w + e by {
      Distributes(d, q, j * 100);
      Regroups(d, j, 100);
    }
    assert 100 * (step * (j * d + x)) == d * (step * w) + step * e by {
      Regroups(100, step, j * d + x);
      Distributes(step, d * w, e);
      Regroups(step, d, w);
    }
    assert d * (step * w) == 100 * (h * d) + d * f by {
      Distributes(d, h * 100, f);
      Regroups(d, h, 100);
    }
    ProductGrows(d, 0, f);
    ProductGrows(d, f, 99);
    ProductGrows(step, 0, e);
    ProductGrows(step, e, d - 1);
    Distributes(d, step, 100);
    Distributes(step, d, -1);
  }

  lemma QuotientBounds(x: int, d: int)
    requires d > 0
    ensures x / d * d <= x <= x / d * d + d - 1
  {
  }

  lemma InterpolatedNearLine(tbl: seq<u16>, s: Scale, raw: u16, j: nat)
    requires IsTable(tbl) && IsScale(s) && j < 16 && InSegment(tbl, raw, j)
    ensures NearLine(tbl, s, raw, j, Interpolated(s, Work(tbl, raw, j)))
  {
    var x, d := tbl[j] - raw, tbl[j] - tbl[j + 1];
    var q, w := x * 100 / d, Work(tbl, raw, j);
    QuotientBounds(x * 100, d);
    QuotientBounds(s.step * w, 100);
    TwoRoundings(x, d, j, s.step, q, s.step * w / 100);
  }

  /** In whichever segment raw lies, the reading is the straight line but for rounding. */
  lemma ReadingNearLine(tbl: seq<u16>, s: Scale, raw: u16, j: nat)
    requires IsTable(tbl) && IsScale(s) && j < 16 && InSegment(tbl, raw, j)
    ensures NearLine(tbl, s, raw, j, Reading(tbl, s, raw))
  {
    hide Scan, Work, Interpolated, NearLine;
    KnotsFall(tbl, 0, j);
    KnotsFall(tbl, j + 1, 16);
    InterpolatedNearLine(tbl, s, raw, j);
    InterpolatedEnds(s);
    WorkBetween(tbl, raw, j);
    if raw == tbl[0] {
      TiesAgree(tbl, raw, 0, j);
      WorkBetween(tbl, raw, 0);
    } else if raw == tbl[16] {
      TiesAgree(tbl, raw, 15, j);
      WorkBetween(tbl, raw, 15);
    } else {
      ScanFinds(tbl, raw);
      TiesAgree(tbl, raw, Scan(tbl, raw, 0), j);
    }
  }

  /** The ends of the table give the ends of the scale, and between them the line. */
  ghost predicate ReadsLine(tbl: seq<u16>, s: Scale, raw: u16, v: int)
    requires IsTable(tbl)
  {
    && (raw <= tbl[16] ==> v == s.hi)
    && (raw >= tbl[0] ==> v == s.lo)
    && forall j :: 0 <= j < 16 && InSegment(tbl, raw, j) ==> NearLine(tbl, s, raw, j, v)
  }

  lemma ReadingReadsLine(tbl: seq<u16>, s: Scale, raw: u16)
    requires IsTable(tbl) && IsScale(s)
    ensures ReadsLine(tbl, s, raw, Reading(tbl, s, raw))
  {
    hide NearLine, InSegment;
    forall j | 0 <= j < 16 && InSegment(tbl, raw, j) ensures NearLine(tbl, s, raw, j, Reading(tbl, s, raw)) {
      ReadingNearLine(tbl, s, raw, j);
    }
  }

  // --- the halving search ---

  /** An unsigned 32-bit result holding a signed one. */
  function ToU32(x: int): int {
    x % 0x1_0000_0000
  }

  /** The unsigned result as its callers use it: a signed 32-bit value. */
  function Signed(r: int): int {
    if r >= 0x8000_0000 then r - 0x1_0000_0000 else r
  }

  predicate FitsSigned(s: Scale) {
    -0x8000_0000 <= s.lo && s.hi < 0x8000_0000
  }

  lemma SignedToU32(x: int)
    requires -0x8000_0000 <= x < 0x8000_0000
    ensures Signed(ToU32(x)) == x && 0 <= ToU32(x) < 0x1_0000_0000
  {
  }

  /** Raw values the search cannot place: it never looks at the last segment. */
  predicate Missed(tbl: seq<u16>, raw: u16)
    requires IsTable(tbl)
  {
    tbl[16] < raw < tbl[15]
  }

  function Searched(tbl: seq<u16>, s: Scale, raw: u16): int
    requires IsTable(tbl)
  {
    if Missed(tbl, raw) then 0 else Reading(tbl, s, raw)
  }

  /** Where the search stands: while a distance is left, the wanted index (one more
      than the segment) is less than that distance away. */
  predicate Narrowed(wanted: int, index: int, delta: int) {
    match delta
    case 8 => index == 8 && 0 < wanted <= 16
    case 4 => (index == 4 || index == 12) && Near(wanted, index, delta)
    case 2 => index % 4 == 2 && 0 < index < 16 && Near(wanted, index, delta)
    case 1 => index % 2 == 1 && 0 < index < 16 && Near(wanted, index, delta)
    case 0 => index == 15 && wanted == 16
    case _ => false
  }

  predicate Near(wanted: int, index: int, delta: int) {
    index - delta < wanted <= index + delta && (wanted == index + delta ==> wanted == 16)
  }

  lemma SideOf(tbl: seq<u16>, raw: u16, wanted: int, index: int)
    requires IsTable(tbl) && 0 < wanted <= 16 && 0 < index < 16
    requires InSegment(tbl, raw, wanted - 1) && !(tbl[index] <= raw <= tbl[index - 1])
    ensures raw < tbl[index] <==> wanted > index
    ensures wanted != index
  {
    KnotsFall(tbl, wanted, index - 1);
    KnotsFall(tbl, index, wanted - 1);
    KnotsFall(tbl, wanted, index);
  }

  /** What the search returns, apart from how it finds it. */
  lemma SearchedReadsLine(tbl: seq<u16>, s: Scale, raw: u16)
    requires IsTable(tbl)
    ensures IsScale(s) && FitsSigned(s) && !Missed(tbl, raw)
            ==> ReadsLine(tbl, s, raw, Signed(ToU32(Searched(tbl, s, raw))))
    ensures Missed(tbl, raw) ==> ToU32(Searched(tbl, s, raw)) == 0
  {
    hide ReadsLine, Reading, Signed;
    if IsScale(s) && FitsSigned(s) && !Missed(tbl, raw) {
      ReadingReadsLine(tbl, s, raw);
      ReadingWithin(tbl, s, raw);
      SignedToU32(Reading(tbl, s, raw));
    }
  }

  /** get_input_value_by_range, once the table and the scale have been picked. */
  method Search(tbl: seq<u16>, s: Scale, raw: u16) returns (r: int)
    requires IsTable(tbl)
    ensures r == ToU32(Searched(tbl, s, raw))
    ensures IsScale(s) && FitsSigned(s) && !Missed(tbl, raw) ==> ReadsLine(tbl, s, raw, Signed(r))
    ensures Missed(tbl, raw) ==> r == 0
  {
    hide Scan, Work, ToU32, Interpolated, ReadsLine, Signed;
    SearchedReadsLine(tbl, s, raw);
    if raw <= tbl[NO_TABLE_RANGES] {
      return ToU32(s.hi);
    }
    if raw >= tbl[0] {
      return ToU32(s.lo);
    }
    ghost var j := Scan(tbl, raw, 0);
    ScanFinds(tbl, raw);
    var delta := MIDDLE_RANGE;
    var index := MIDDLE_RANGE;
    var end := false;
    while !end
      invariant if end then Missed(tbl, raw) else Narrowed(j + 1, index, delta)
      decreases delta + if end then 0 else 1
    {
      if raw >= tbl[index] && raw <= tbl[index - 1] {
        index := index - 1;
        TiesAgree(tbl, raw, index, j);
        return ToU32(Interpolated(s, Work(tbl, raw, index)));
      } else {
        SideOf(tbl, raw, j + 1, index);
        if delta == 0 {
          end := true;
        }
        delta := delta / 2;
        if raw < tbl[index] {
          index := index + delta;
        } else {
          index := index - delta;
        }
        if index <= 0 {
          return ToU32(s.lo);
        }
        if index >= NO_TABLE_RANGES {
          return ToU32(s.hi);
        }
      }
    }
    return ToU32(0);
  }

  // --- the tables and scales of the ten ranges ---

  const YSI44005: seq<u16> := [932, 844, 716, 564, 412, 284, 192, 128, 84, 56, 40, 28, 20, 16, 12, 8, 4]
  const GREYSTONE_10K: seq<u16> := [988, 964, 924, 862, 778, 682, 572, 462, 364, 282, 214, 164, 128, 100, 76, 62, 48]
  const GREYSTONE_3K: seq<u16> := [932, 860, 760, 640, 508, 384, 280, 200, 140, 100, 72, 52, 36, 28, 20, 16, 12]
  const KM_10K: seq<u16> := [976, 948, 906, 842, 764, 670, 566, 466, 376, 296, 234, 180, 144, 114, 90, 76, 60]
  const AK_3K: seq<u16> := [984, 952, 908, 844, 764, 668, 564, 460, 368, 288, 220, 168, 132, 100, 76, 60, 48]

  type Range = r: int | 1 <= r <= 10 witness 1

  function Table(range: Range): seq<u16> {
    match (range - 1) / 2
    case 0 => YSI44005
    case 1 => GREYSTONE_10K
    case 2 => GREYSTONE_3K
    case 3 => KM_10K
    case _ => AK_3K
  }

  function ScaleOf(range: Range): Scale {
    match range - 1
    case 0 => Scale(11875, -40000, 150000)
    case 1 => Scale(21375, -40000, 302000)
    case 2 | 4 | 6 => Scale(10000, -40000, 120000)
    case 3 | 5 | 7 => Scale(18000, -40000, 248000)
    case 8 => Scale(10000, -50000, 110000)
    case _ => Scale(18000, -58000, 230000)
  }

  predicate Falls(tbl: seq<u16>) {
    |tbl| == 17 && forall i :: 0 < i < 17 ==> tbl[i - 1] > tbl[i]
  }

  lemma FallingIsTable(tbl: seq<u16>)
    requires Falls(tbl)
    ensures IsTable(tbl)
  {
    forall i, j | 0 <= i < j < 17 ensures tbl[i] > tbl[j] { FallsFrom(tbl, i, j); }
  }

  lemma {:induction false} FallsFrom(tbl: seq<u16>, i: nat, j: nat)
    requires Falls(tbl) && i < j < 17
    ensures tbl[i] > tbl[j]
  {
    if i + 1 < j { FallsFrom(tbl, i, j - 1); }
  }

  /** All five tables fall, and sixteen steps span the limits of all ten scales. */
  lemma RangesFit(range: Range)
    ensures IsTable(Table(range)) && IsScale(ScaleOf(range))
    ensures ScaleOf(range).lo + 15 * ScaleOf(range).step > 0
    ensures -0x8000_0000 <= ScaleOf(range).lo < ScaleOf(range).hi < 0x8000_0000
  {
    FallingIsTable(Table(range));
  }

  lemma LastSegment(tbl: seq<u16>, s: Scale, raw: u16)
    requires IsTable(tbl) && IsScale(s) && Missed(tbl, raw)
    ensures Reading(tbl, s, raw) >= s.lo + 15 * s.step
  {
    hide Scan, Work, Interpolated;
    var j := Scan(tbl, raw, 0);
    KnotsFall(tbl, j + 1, 15);
    WorkBetween(tbl, raw, j);
    InterpolatedFalls(s, Work(tbl, raw, j), 1500);
    FifteenSteps(s);
  }

  lemma FifteenSteps(s: Scale)
    ensures Interpolated(s, 1500) == s.lo + 15 * s.step
  {
  }

  /** The code returns the reading, which is the straight line through the knots but for
      rounding, exactly when raw is not strictly inside the last segment of the table;
      there it returns zero, which no scale reads there. */
  method GetInputValueByRange(range: Range, raw: u16) returns (r: int)
    ensures IsTable(Table(range))
    ensures r == ToU32(Reading(Table(range), ScaleOf(range), raw)) <==> !Missed(Table(range), raw)
    ensures Missed(Table(range), raw) ==> r == 0
    ensures !Missed(Table(range), raw) ==> ReadsLine(Table(range), ScaleOf(range), raw, Signed(r))
  {
    hide Table, ScaleOf, Reading, ReadsLine, Signed;
    RangesFit(range);
    var tbl, s := Table(range), ScaleOf(range);
    r := Search(tbl, s, raw);
    ReadingWithin(tbl, s, raw);
    if Missed(tbl, raw) { LastSegment(tbl, s, raw); }
  }

  /** Such a value: 5 in the first range, between the last knots 8 and 4. */
  lemma FiveIsMissed()
    ensures var tbl, s := Table(1), ScaleOf(1);
            && IsTable(tbl) && IsScale(s) && Missed(tbl, 5)
            && Searched(tbl, s, 5) == 0 && ToU32(Reading(tbl, s, 5)) == Reading(tbl, s, 5) >= 138125
  {
    RangesFit(1);
    var tbl, s := Table(1), ScaleOf(1);
    hide Reading, ToU32, Scan, Work, Interpolated;
    LastSegment(tbl, s, 5);
    ReadingWithin(tbl, s, 5);
    FitsU32(Reading(tbl, s, 5));
  }

  lemma FitsU32(x: int)
    requires 0 <= x < 0x1_0000_0000
    ensures ToU32(x) == x
  {
  }
}
