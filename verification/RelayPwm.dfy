/** Relays of the CM5 board (common/Output.c): switched by level when digital, by a slow
    pulse-width modulation when analog. */
module RelayPwm {
  import opened Common

  const OUTPUTS := 10

  /** The PWM counter runs from 0 to 20 times the period, one step every 50 ms. */
  function Top(period: u8): nat {
    period * 20
  }

  function NextCount(c: nat, top: nat): nat {
    if c < top then c + 1 else 0
  }

  /** Counts below this are on. */
  function OnBelow(top: nat, raw: nat): nat {
    top * raw / 1023
  }

  // --- the counter over time ---

  function CountAfter(c: nat, n: nat, top: nat): nat {
    if n == 0 then c else NextCount(CountAfter(c, n - 1, top), top)
  }

  /** How many of the next n ticks the relay is on, for counts below t. */
  function OnTicks(c: nat, n: nat, top: nat, t: nat): nat {
    if n == 0 then 0 else OnTicks(c, n - 1, top, t) + (if CountAfter(c, n, top) < t then 1 else 0)
  }

  function Min(a: nat, b: nat): nat {
    if a < b then a else b
  }

  /** Whatever the count was, one tick brings it into the range of the period in force. */
  lemma InRangeAfterOneTick(c: nat, n: nat, top: nat)
    requires n > 0
    ensures CountAfter(c, n, top) <= top
  {
  }

  lemma {:induction false} CountOn(c: nat, m: nat, n: nat, top: nat)
    ensures CountAfter(CountAfter(c, m, top), n, top) == CountAfter(c, m + n, top)
  {
    if n > 0 { CountOn(c, m, n - 1, top); }
  }

  lemma {:induction false} TicksOn(c: nat, m: nat, n: nat, top: nat, t: nat)
    ensures OnTicks(c, m + n, top, t) == OnTicks(c, m, top, t) + OnTicks(CountAfter(c, m, top), n, top, t)
  {
    if n > 0 {
      TicksOn(c, m, n - 1, top, t);
      CountOn(c, m, n, top);
    }
  }

  /** While the count climbs it takes each value in turn. */
  lemma {:induction false} Climb(c: nat, n: nat, top: nat, t: nat)
    requires c + n <= top
    ensures CountAfter(c, n, top) == c + n
    ensures OnTicks(c, n, top, t) == Min(c + n + 1, t) - Min(c + 1, t)
  {
    if n > 0 { Climb(c, n - 1, top, t); }
  }

  lemma WindowFrom(c: nat, top: nat, t: nat)
    requires c <= top
    ensures OnTicks(c, top + 1, top, t) == Min(top + 1, t)
  {
    Climb(c, top - c, top, t);
    TicksOn(c, top - c, 1, top, t);
    CountOn(c, top - c, 1, top);
    Wraps(top, t);
    Climb(0, c, top, t);
    TicksOn(c, top - c + 1, c, top, t);
  }

  lemma Wraps(top: nat, t: nat)
    ensures CountAfter(top, 1, top) == 0 && OnTicks(top, 1, top, t) == Min(1, t)
  {
  }

  /** Any top + 1 consecutive ticks after the first take the count through all its values. */
  lemma AnyWindow(c: nat, skipped: nat, top: nat, t: nat)
    requires skipped > 0 || c <= top
    ensures OnTicks(c, skipped + top + 1, top, t) - OnTicks(c, skipped, top, t) == Min(top + 1, t)
  {
    if skipped > 0 { InRangeAfterOneTick(c, skipped, top); }
    TicksOn(c, skipped, top + 1, top, t);
    WindowFrom(CountAfter(c, skipped, top), top, t);
  }

  // --- the loop over the outputs ---

  /** What one tick does to one output: its count and its relay. */
  function Ticked(analog: bool, count: u16, period: u8, raw: u16): (r: (u16, bool)) {
    if !analog then (count, raw >= 512)
    else
      var c := NextCount(count, Top(period));
      var w: u16 := if c < 0x1_0000 then c else 0;
      (w, w < OnBelow(Top(period), raw))
  }

  /** The counter is 16 bits wide and the top at most 5100: nothing wraps. */
  lemma CountFits(count: u16, period: u8)
    ensures NextCount(count, Top(period)) < 0x1_0000
    ensures Top(period) * 0xFFFF < 0x1_0000_0000
  {
  }

  /** An analog output after n > 0 ticks with the value and the period held. */
  function Refreshed(count: u16, period: u8, raw: u16, n: nat): (u16, bool)
    requires n > 0
  {
    Ticked(true, if n == 1 then count else Refreshed(count, period, raw, n - 1).0, period, raw)
  }

  /** So the ticks counted by OnTicks are those on which the loop switches the relay on. */
  lemma {:induction false} RefreshedCounts(count: u16, period: u8, raw: u16, n: nat)
    requires n > 0
    ensures Refreshed(count, period, raw, n).0 == CountAfter(count, n, Top(period))
    ensures Refreshed(count, period, raw, n).1 <==>
              OnTicks(count, n, Top(period), OnBelow(Top(period), raw)) == OnTicks(count, n - 1, Top(period),
                      OnBelow(Top(period), raw)) + 1
  {
    if n > 1 {
      RefreshedCounts(count, period, raw, n - 1);
      InRangeAfterOneTick(count, n - 1, Top(period));
    }
    CountFits(CountOf(count, period, raw, n), period);
  }

  function CountOf(count: u16, period: u8, raw: u16, n: nat): u16
    requires n > 0
  {
    if n == 1 then count else Refreshed(count, period, raw, n - 1).0
  }

  // --- the duty cycle ---

  /** On how many of the first n ticks the relay is on. */
  function TicksWithRelayOn(count: u16, period: u8, raw: u16, n: nat): nat {
    if n == 0 then 0
    else TicksWithRelayOn(count, period, raw, n - 1) + (if Refreshed(count, period, raw, n).1 then 1 else 0)
  }

  lemma {:induction false} CountedByOnTicks(count: u16, period: u8, raw: u16, n: nat)
    ensures TicksWithRelayOn(count, period, raw, n) == OnTicks(count, n, Top(period), OnBelow(Top(period), raw))
  {
    hide Top, OnBelow, CountAfter, Refreshed;
    if n > 0 {
      CountedByOnTicks(count, period, raw, n - 1);
      RefreshedCounts(count, period, raw, n);
    }
  }

  /** On how many of one period's worth of ticks, 20 * period + 1 of them, it is on. */
  function OnPerPeriod(count: u16, skipped: nat, period: u8, raw: u16): int {
    TicksWithRelayOn(count, period, raw, skipped + 20 * period + 1) - TicksWithRelayOn(count, period, raw, skipped)
  }

  lemma PerPeriodIs(count: u16, skipped: nat, period: u8, raw: u16)
    requires skipped > 0 || count <= 20 * period
    ensures OnPerPeriod(count, skipped, period, raw) == Min(20 * period + 1, OnBelow(20 * period, raw))
  {
    hide OnTicks, TicksWithRelayOn, OnBelow;
    var top := 20 * period;
    CountedByOnTicks(count, period, raw, skipped + top + 1);
    CountedByOnTicks(count, period, raw, skipped);
    AnyWindow(count, skipped, top, OnBelow(top, raw));
  }

  lemma OnBelowIs(top: nat, raw: nat, c: nat)
    ensures var t, x := OnBelow(top, raw), top * raw;
            t * 1023 <= x < (t + 1) * 1023 && (c < t <==> (c + 1) * 1023 <= x)
  {
    Quotient(top * raw, c);
  }

  lemma Quotient(x: nat, c: nat)
    ensures x / 1023 * 1023 <= x < (x / 1023 + 1) * 1023 && (c < x / 1023 <==> (c + 1) * 1023 <= x)
  {
  }

  lemma ProductGrows(top: nat, raw: nat, raw': nat)
    requires raw <= raw'
    ensures top * raw <= top * raw'
  {
  }

  /** With the value held, every window of one period's ticks after the first, wherever
      the counter stood and whatever period was in force before, has the relay on for the
      raw value's share of the period: the largest whole number of ticks whose part of
      the period is not above raw / 1023, and no more than there are. */
  lemma DutyIsExact(count: u16, skipped: nat, period: u8, raw: u16)
    requires skipped > 0 || count <= 20 * period
    ensures var n := OnPerPeriod(count, skipped, period, raw);
            && 0 <= n <= 20 * period + 1 && n * 1023 <= 20 * period * raw
            && (n <= 20 * period ==> 20 * period * raw < (n + 1) * 1023)
            && (raw <= 1023 ==> n <= 20 * period)
  {
    hide OnPerPeriod, OnBelow;
    PerPeriodIs(count, skipped, period, raw);
    OnBelowIs(20 * period, raw, 0);
    if raw <= 1023 { ProductGrows(20 * period, raw, 1023); }
  }

  /** A larger raw value never has the relay on for less of a period. */
  lemma DutyGrows(count: u16, count': u16, skipped: nat, period: u8, raw: u16, raw': u16)
    requires (skipped > 0 || (count <= 20 * period && count' <= 20 * period)) && raw <= raw'
    ensures OnPerPeriod(count, skipped, period, raw) <= OnPerPeriod(count', skipped, period, raw')
  {
    hide OnPerPeriod;
    DutyIsExact(count, skipped, period, raw);
    DutyIsExact(count', skipped, period, raw');
    ProductGrows(20 * period, raw, raw');
  }

  /** The full raw value is off for one tick of every period. */
  lemma FullIsOffOnce(count: u16, skipped: nat, period: u8)
    requires skipped > 0 || count <= 20 * period
    ensures OnPerPeriod(count, skipped, period, 1023) == 20 * period
  {
    hide OnPerPeriod;
    DutyIsExact(count, skipped, period, 1023);
  }

  /** The relay comes on only as the count starts again from zero: the ticks with it on
      come first in a period, without a gap. */
  lemma OnlyZeroSwitchesOn(count: u16, period: u8, raw: u16, n: nat)
    requires n > 0 && !Refreshed(count, period, raw, n).1 && Refreshed(count, period, raw, n + 1).1
    ensures Refreshed(count, period, raw, n + 1).0 == 0
  {
    hide OnBelow;
    CountFits(Refreshed(count, period, raw, n).0, period);
  }

  /** What one tick means: an analog output counts to the top of its period and is on
      while the count with the current tick is not above the raw value's share of it; a
      digital one is on in the upper half of 0 to 1023. */
  predicate IsTick(analog: bool, before: u16, period: u8, raw: u16, count: u16, relay: bool) {
    if analog then
      && count == (if before < 20 * period then before + 1 else 0)
      && (relay <==> (count + 1) * 1023 <= 20 * period * raw)
    else count == before && (relay <==> raw + raw > 1023)
  }

  lemma TickedMeans(analog: bool, count: u16, period: u8, raw: u16)
    ensures var r := Ticked(analog, count, period, raw); IsTick(analog, count, period, raw, r.0, r.1)
  {
    hide OnBelow;
    CountFits(count, period);
    OnBelowIs(20 * period, raw, Ticked(true, count, period, raw).0);
  }

  class Relays {
    const analog: array<bool>
    const raw: array<u16>
    const period: array<u8>
    const count: array<u16>
    const relay: array<bool>

    ghost predicate Valid() {
      && analog.Length == raw.Length == period.Length == count.Length == relay.Length == OUTPUTS
      && analog != relay
    }

    constructor ()
      ensures Valid() && fresh(count) && fresh(relay)
      ensures forall i :: 0 <= i < OUTPUTS ==> count[i] == 0
    {
      analog, raw := new bool[OUTPUTS], new u16[OUTPUTS];
      period, count := new u8[OUTPUTS], new u16[OUTPUTS](_ => 0);
      relay := new bool[OUTPUTS];
    }

    /** One tick of the CM5 branch of Refresh_Output: every relay and every count is
        what that output alone makes of it. */
    method Refresh()
      requires Valid() && count as object != raw && count as object != period
      modifies count, relay
      ensures forall i :: 0 <= i < OUTPUTS ==>
                (count[i], relay[i]) == Ticked(analog[i], old(count[i]), period[i], raw[i])
      ensures forall i :: 0 <= i < OUTPUTS ==>
                IsTick(analog[i], old(count[i]), period[i], raw[i], count[i], relay[i])
    {
      var i := 0;
      while i < OUTPUTS
        invariant 0 <= i <= OUTPUTS
        invariant forall j :: 0 <= j < i ==> (count[j], relay[j]) == Ticked(analog[j], old(count[j]), period[j], raw[j])
        invariant forall j :: i <= j < OUTPUTS ==> count[j] == old(count[j])
      {
        if !analog[i] {
          relay[i] := raw[i] >= 512;
        } else {
          var top := Top(period[i]);
          if count[i] < top {
            count[i] := count[i] + 1;
          } else {
            count[i] := 0;
          }
          relay[i] := count[i] < top * raw[i] / 1023;
        }
        i := i + 1;
      }
      forall j | 0 <= j < OUTPUTS ensures IsTick(analog[j], old(count[j]), period[j], raw[j], count[j], relay[j]) {
        TickedMeans(analog[j], old(count[j]), period[j], raw[j]);
      }
    }
  }
}
