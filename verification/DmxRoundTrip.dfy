/** From a DMX byte to a channel level and back through the light loop. */
module DmxRoundTrip {
  import opened Common
  import opened DmxFade
  import PairedFade

  /** The level that stands for a DMX byte: the middle of its range, before it is limited to full. */
  function LevelFor(dmxVal: int, fullValue: int): int {
    Trunc((dmxVal as real + 0.5) * (fullValue as real) / 255.0)
  }

  /** The byte the light loop puts out for a level. */
  function ByteFor(value: int, num: int, den: int, fullValue: int): (b: int)
    requires fullValue * den != 0
    ensures 0 <= b <= 255
  {
    Clamp(CDiv(value * 255 * num, fullValue * den), 0, 255)
  }

  /** The higher mix line counts. */
  function Output(intern: int, extern: int): int {
    Max(Max(0, intern), extern)
  }

  /** The higher level of the two lines, never below 0. */
  lemma {:induction false} OutputIs(intern: int, extern: int)
    ensures var level := Output(intern, extern);
            0 <= level && intern <= level && extern <= level && (level == 0 || level == intern || level == extern)
  {
  }

  lemma {:induction false} LevelForIs(d: nat, full: nat)
    ensures LevelFor(d, full) == ((2 * d + 1) * full) / 510
  {
  }

  /** Which bytes survive: always from full value 510 on, below that by the remainder of d * full. */
  predicate Survives(d: nat, full: nat) {
    var m := (d * full) % 255;
    m == 0 || 2 * m + full >= 510
  }

  lemma {:induction false} ProductIsMonotone(x: int, y: int, b: int)
    requires 0 <= b && x <= y
    ensures x * b <= y * b
  {
  }

  lemma {:induction false} ProductOrder(x: int, y: int, b: int)
    requires 0 < b
    ensures x >= y ==> x * b >= y * b
    ensures x < y ==> x * b + b <= y * b
  {
    if x >= y {
      ProductIsMonotone(y, x, b);
    } else {
      ProductIsMonotone(x + 1, y, b);
      assert (x + 1) * b == x * b + b;
    }
  }

  /** Euclidean bounds, for products. */
  lemma {:induction false} QuotientBetween(a: int, b: int, d: int)
    requires 0 < b
    ensures a / b >= d <==> d * b <= a
  {
    var q := a / b;
    ProductOrder(q, d, b);
    assert q * b <= a < q * b + b;
  }

  lemma {:induction false} ByteForIs(q: int, full: int)
    requires 0 <= q <= full && 0 < full
    ensures ByteFor(q, 1, 1, full) == (q * 255) / full
  {
  }

  /** The level for a byte below 255 is under full and under the next byte; for 255 it is limited to full. */
  lemma {:induction false} LevelBounds(d: nat, full: nat)
    requires d <= 255 && 0 < full
    ensures var q := LevelFor(d, full);
            0 <= q && (if d == 255 then full <= q else q <= full && 255 * q < (d + 1) * full)
  {
  }

  /** The arithmetic of the round trip. */
  lemma {:induction false} ByteSurvivesIff(d: nat, full: nat)
    requires d <= 255 && 0 < full
    ensures ByteFor(Min(LevelFor(d, full), full), 1, 1, full) == d <==> Survives(d, full)
  {
    LevelBounds(d, full);
    LevelForIs(d, full);
    hide LevelFor, ByteFor, Survives;
    var q := Min(LevelFor(d, full), full);
    ByteForIs(q, full);
    if d == 255 {
      FullSurvives(full);
    } else {
      QuotientReaches(d, full, q);
      QuotientBetween(q * 255, full, d);
      QuotientBetween(q * 255, full, d + 1);
    }
  }

  lemma {:induction false} FullSurvives(full: nat)
    requires 0 < full
    ensures (full * 255) / full == 255 && Survives(255, full)
  {
    QuotientBetween(full * 255, full, 255);
    QuotientBetween(full * 255, full, 256);
    assert (255 * full) % 255 == 0;
  }

  /** The level reaches the lower bound of its byte exactly if the byte survives. */
  lemma {:induction false} QuotientReaches(d: nat, full: nat, q: nat)
    requires q == ((2 * d + 1) * full) / 510
    ensures d * full <= 255 * q <==> Survives(d, full)
  {
    var x := d * full;
    assert (2 * d + 1) * full == 2 * x + full;
    var a, m := x / 255, x % 255;
    assert x == 255 * a + m;
    assert q == a + (2 * m + full) / 510;
  }

  /** The byte for a level: the level in 255ths of full, times the scaler, cut to an integer and at most 255. */
  lemma {:induction false} ByteForIsCut(value: int, num: int, den: int, fullValue: int)
    requires 0 <= value && 0 <= num && 0 < den && 0 < fullValue && 0 < fullValue * den
    ensures var b := ByteFor(value, num, den, fullValue);
            && b * (fullValue * den) <= value * 255 * num
            && (b < 255 ==> value * 255 * num < (b + 1) * (fullValue * den))
  {
    var x, y := value * 255 * num, fullValue * den;
    assert 0 <= x by { ProductIsMonotone(0, value * 255, num); }
    hide ByteFor;
    CutByte(x, y);
    assert ByteFor(value, num, den, fullValue) == Clamp(CDiv(x, y), 0, 255) by { ByteForUnfolds(value, num, den, fullValue); }
  }

  lemma {:induction false} ByteForUnfolds(value: int, num: int, den: int, fullValue: int)
    requires fullValue * den != 0
    ensures ByteFor(value, num, den, fullValue) == Clamp(CDiv(value * 255 * num, fullValue * den), 0, 255)
  {
  }

  lemma {:induction false} CutByte(x: int, y: int)
    requires 0 <= x && 0 < y
    ensures var b := Clamp(CDiv(x, y), 0, 255); b * y <= x && (b < 255 ==> x < (b + 1) * y)
  {
    var q := x / y;
    QuotientBetween(x, y, Clamp(q, 0, 255));
    QuotientBetween(x, y, Clamp(q, 0, 255) + 1);
  }

  /** From a channel that is idle or not at the level for the byte, the fade to it ends at that level. */
  lemma {:induction false} ByteFadeLevel(l: MixLine, d: nat, timeMs: int, targetValue: int, full: nat, n: nat)
    requires (l.cmd == NoCmd || l.cur != LevelFor(d, full)) && l.cur <= full && StepCount(timeMs) <= n
    ensures Ticks(InitFade(l, FadeTo, timeMs, LevelFor(d, full), targetValue, full).0, targetValue, n).cur
         == Min(LevelFor(d, full), full)
  {
    hide LevelFor;
    var arg := LevelFor(d, full);
    var from := InitFade(l, FadeTo, timeMs, arg, targetValue, full);
    if !from.1 {
      IdleStays(from.0, targetValue, 0, n);
    } else if Stuck(l.cur, FadeTo, full, arg) {
      StuckForEver(l, timeMs, arg, targetValue, full, n);
    } else {
      FadeCourse(l, FadeTo, timeMs, arg, targetValue, full, n);
    }
  }

  /**
   Fading a channel to a DMX byte, on either mix line, makes the light loop put out that byte exactly if it
   survives, with scaler 1/1 and the other mix line no higher. The channel is idle, or runs a command and is not at the level for the byte.
   */
  lemma {:induction false} ByteRoundTripIff(l: MixLine, other: int, d: nat, timeMs: int, targetValue: int, full: nat, n: nat)
    requires (l.cmd == NoCmd || l.cur != LevelFor(d, full)) && l.cur <= full && d <= 255 && 0 < full
    requires StepCount(timeMs) <= n
    requires other <= Min(LevelFor(d, full), full)
    ensures var at := Ticks(InitFade(l, FadeTo, timeMs, LevelFor(d, full), targetValue, full).0, targetValue, n);
            && (ByteFor(Output(at.cur, other), 1, 1, full) == d <==> Survives(d, full))
            && (ByteFor(Output(other, at.cur), 1, 1, full) == d <==> Survives(d, full))
  {
    ByteFadeLevel(l, d, timeMs, targetValue, full, n);
    ByteSurvivesIff(d, full);
    LevelForIs(d, full);
  }

  /** With at least 510 levels every byte survives; with 256 the byte 1 does not. */
  lemma {:induction false} FineLevelsSuffice(d: nat, full: nat)
    ensures 510 <= full ==> Survives(d, full)
    ensures !Survives(1, 256)
  {
  }

  lemma {:induction false} LevelBeyondFullIff(d: nat, full: nat)
    requires d <= 255 && 0 < full
    ensures LevelFor(d, full) > full <==> d == 255 && full >= 510
  {
    LevelForIs(d, full);
    LevelBounds(d, full);
  }

  /** The channel runs a command for ever. */
  ghost predicate NeverEnds(from: MixLine, targetValue: int) {
    forall n: nat :: Ticks(from, targetValue, n).cmd != NoCmd
  }

  /** A fade to a byte on an idle channel that is at full never ends exactly if the byte is 255 and full at least 510. */
  lemma {:induction false} ByteFadeNeverEndsIff(l: MixLine, d: nat, timeMs: int, targetValue: int, full: nat)
    requires l.cmd == NoCmd && l.cur == full && d <= 255 && 0 < full
    ensures NeverEnds(InitFade(l, FadeTo, timeMs, LevelFor(d, full), targetValue, full).0, targetValue)
       <==> d == 255 && full >= 510
  {
    hide LevelFor;
    LevelBeyondFullIff(d, full);
    var arg := LevelFor(d, full);
    var from := InitFade(l, FadeTo, timeMs, arg, targetValue, full);
    if arg > full {
      forall n: nat ensures Ticks(from.0, targetValue, n).cmd != NoCmd {
        StuckForEver(l, timeMs, arg, targetValue, full, n);
      }
    } else if from.1 {
      var n := FadeLength(FadeTo, l.cur, timeMs);
      FadeCourse(l, FadeTo, timeMs, arg, targetValue, full, n);
      assert Ticks(from.0, targetValue, n).cmd == NoCmd;
    } else {
      assert Ticks(from.0, targetValue, 0).cmd == NoCmd;
    }
  }

  /** With the usual full value the highest byte is such a fade. */
  lemma {:induction false} StuckWitness()
    ensures Stuck(10000, FadeTo, 10000, LevelFor(255, 10000)) && LevelFor(255, 10000) == 10019
  {
    LevelForIs(255, 10000);
  }

  /**
   Over any line in order: at the level for the byte the command is rejected, and what runs decides; elsewhere it
   reaches that level unless it is a fade to 255 from full with at least 510 levels.
   */
  lemma {:induction false} ByteFadeReachesIff(l: MixLine, d: nat, timeMs: int, targetValue: int, full: nat)
    requires LineInv(l, targetValue) && d <= 255 && 0 < full
    ensures var level := LevelFor(d, full);
            Settles(InitFade(l, FadeTo, timeMs, level, targetValue, full).0, targetValue, Min(level, full)) <==>
              if l.cur == level then LeadsTo(l, targetValue) == Some(Min(level, full))
              else !(l.cur == full && d == 255 && 510 <= full)
  {
    LevelForIs(d, full);
    LevelBeyondFullIff(d, full);
    hide LevelFor;
    CommandReachesIff(l, FadeTo, timeMs, LevelFor(d, full), targetValue, full);
  }

  // ----- The bytes of a pair

  /** A byte scaled to a channel and back: it survives if the product divides by 255, and is one lower otherwise. */
  lemma {:induction false} ScaledByteReturns(k: int, full: int)
    requires 0 <= k <= 255 <= full
    ensures ByteFor(CDiv(k * full, 255), 1, 1, full) == if (k * full) % 255 == 0 then k else k - 1
  {
    var x := k * full;
    var q, m := x / 255, x % 255;
    assert x == 255 * q + m;
    ProductIsMonotone(0, k, full);
    ProductIsMonotone(k, 255, full);
    assert k > 0 || x == 0;
    ByteForIs(q, full);
    QuotientBetween(q * 255, full, k);
    QuotientBetween(q * 255, full, k + 1);
    QuotientBetween(q * 255, full, k - 1);
    assert (k + 1) * full == x + full && (k - 1) * full == x - full;
  }

  /** The 16-bit output value is the fade value scaled to 65565, cut to an integer and limited. */
  lemma {:induction false} PairDmxIs(value: real, full: int, fineFull: int)
    requires 0.0 <= value && 0 < full * fineFull
    ensures var x, max := PairedFade.PairDmx(value, full, fineFull), (full * fineFull) as real;
            && 0 <= x <= 65565 && Scaled(x as real, max) <= value * 65565.0
            && (x < 65565 ==> value * 65565.0 < Scaled((x + 1) as real, max))
  {
    CutQuotient(value * 65565.0, (full * fineFull) as real);
  }

  lemma {:induction false} CutQuotient(a: real, b: real)
    requires 0.0 <= a && 0.0 < b
    ensures var x := Min(Trunc(a / b), 65565);
            0 <= x <= 65565 && Scaled(x as real, b) <= a && (x < 65565 ==> a < Scaled((x + 1) as real, b))
  {
    var q := a / b;
    assert Scaled(q, b) == a;
    QuotientIsPositive(q, b);
    hide Scaled;
    CutBelow(q, b);
  }

  lemma {:induction false} QuotientIsPositive(q: real, b: real)
    requires 0.0 < b && 0.0 <= Scaled(q, b)
    ensures 0.0 <= q
  {
  }

  lemma {:induction false} CutBelow(q: real, b: real)
    requires 0.0 <= q && 0.0 < b
    ensures var x := Min(Trunc(q), 65565);
            0 <= x <= 65565 && Scaled(x as real, b) <= Scaled(q, b) && (x < 65565 ==> Scaled(q, b) < Scaled((x + 1) as real, b))
  {
    var x := Min(Trunc(q), 65565);
    RealProductOrder(x as real, q, b);
    RealProductOrder(q, (x + 1) as real, b);
    hide Scaled;
  }

  lemma {:induction false} RealProductOrder(a: real, b: real, c: real)
    requires 0.0 < c
    ensures a <= b ==> Scaled(a, c) <= Scaled(b, c)
    ensures a < b ==> Scaled(a, c) < Scaled(b, c)
  {
  }

  /**
   In the middle of a paired fade the light loop puts out the high and the low byte of the 16-bit value, each one too
   low unless its product with the full value divides by 255; beyond 65535 the high byte stays 255.
   */
  lemma {:induction false} PairBytes(value: real, full: int, fineFull: int)
    requires 0.0 <= value && 255 <= full && 255 <= fineFull && 0 < full * fineFull
    ensures var x := PairedFade.PairDmx(value, full, fineFull);
            var (coarse, fine) := PairedFade.PairLevels(value, full, fineFull);
            var hi, lo := x / 256, x % 256;
            && ByteFor(coarse, 1, 1, full) == (if hi == 256 then 255 else if (hi * full) % 255 == 0 then hi else hi - 1)
            && ByteFor(fine, 1, 1, fineFull) == if (lo * fineFull) % 255 == 0 then lo else lo - 1
  {
    PairDmxIs(value, full, fineFull);
    var x := PairedFade.PairDmx(value, full, fineFull);
    hide PairedFade.PairDmx;
    var hi, lo := x / 256, x % 256;
    ScaledByteReturns(lo, fineFull);
    if hi <= 255 {
      ScaledByteReturns(hi, full);
    } else {
      TopByte(full);
    }
  }

  lemma {:induction false} TopByte(full: int)
    requires 255 <= full
    ensures ByteFor(CDiv(256 * full, 255), 1, 1, full) == 255
  {
    var q := CDiv(256 * full, 255);
    assert full <= q;
    QuotientBetween(q * 255, full, 255);
  }
}
