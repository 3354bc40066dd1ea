/**
 16-bit fades: a coarse channel and its fine partner move as one value,
 coarse * fineFull + fine.
 */
module PairedFade {
  import opened Common
  import opened DmxFade

  // The fine channel as the coarse one sees it.
  datatype Fine = Fine(cur: int, changed: bool, targetValue: int, fullValue: int)

  datatype Pair = Pair(coarse: MixLine, fine: Fine)
  {
    function Level(): int { coarse.cur * fine.fullValue + fine.cur }

    /** The combined target of the scene. */
    function Target(targetValue: int): int { targetValue * fine.fullValue + fine.targetValue }
  }

  /** As for a single channel, with the combined value; a FADETO is not limited here. */
  function InitPair(p: Pair, cmd: CtrlCmd, timeMs: int, arg: int, targetValue: int): (Pair, bool) {
    var (l, ok) := InitFade(p.coarse.(cur := p.Level()), cmd, timeMs, arg, p.Target(targetValue), arg);
    (p.(coarse := l.(cur := p.coarse.cur)), ok)
  }

  /** The 16-bit output value for a fade value; the program uses 65565 for its maximum. */
  function PairDmx(value: real, full: int, fineFull: int): int
    requires full * fineFull != 0
  {
    Min(Trunc(value * 65565.0 / ((full * fineFull) as real)), 65565)
  }

  /** The coarse and fine level for a fade value: the two bytes of the output, scaled to the ranges of the channels. */
  function PairLevels(value: real, full: int, fineFull: int): (int, int)
    requires full * fineFull != 0
  {
    var dmx := PairDmx(value, full, fineFull);
    (CDiv((dmx / 256) * full, 255), CDiv((dmx % 256) * fineFull, 255))
  }

  function PairFinal(p: Pair, targetValue: int): (int, int)
    requires p.fine.fullValue != 0
  {
    match p.coarse.cmd
    case FadeIn => (targetValue, p.fine.targetValue)
    case FadeTo =>
      var hi := Trunc(p.coarse.goal / (p.fine.fullValue as real));
      (hi, Trunc(p.coarse.goal - ((hi * p.fine.fullValue) as real)))
    case _ => (0, 0)
  }

  /** The fade value moves on and both levels follow it. */
  function PairMove(p: Pair, full: int): (r: Pair)
    requires full * p.fine.fullValue != 0
    ensures r.fine.fullValue == p.fine.fullValue && r.fine.targetValue == p.fine.targetValue
  {
    var v := p.coarse.value + p.coarse.step;
    var (hi, lo) := PairLevels(v, full, p.fine.fullValue);
    var moves := hi != p.coarse.cur || lo != p.fine.cur;
    Pair(p.coarse.(value := v, cur := hi, changed := p.coarse.changed || moves),
         p.fine.(cur := lo, changed := p.fine.changed || moves))
  }

  function TickPair(p: Pair, targetValue: int, full: int): (r: (Pair, bool))
    requires full * p.fine.fullValue != 0
    ensures r.0.fine.fullValue == p.fine.fullValue && r.0.fine.targetValue == p.fine.targetValue
  {
    if p.coarse.cmd == NoCmd then (p, false)
    else
      var m := PairMove(p, full);
      if GoalReached(m.coarse.cmd, m.coarse.value, m.coarse.step, m.coarse.goal) then
        var (hi, lo) := PairFinal(m, targetValue);
        (Pair(m.coarse.(cur := hi, cmd := NoCmd), m.fine.(cur := lo)), false)
      else (m, m.coarse.cmd != OtherCmd)
  }

  function PairTicks(p: Pair, targetValue: int, full: int, n: nat): (r: Pair)
    requires full * p.fine.fullValue != 0
    ensures r.fine.fullValue == p.fine.fullValue && r.fine.targetValue == p.fine.targetValue
  {
    if n == 0 then p else TickPair(PairTicks(p, targetValue, full, n - 1), targetValue, full).0
  }

  lemma {:induction false} PairTickOnCourse(p: Pair, from: MixLine, targetValue: int, full: int, j: nat)
    requires full * p.fine.fullValue != 0
    requires 1 <= j && OnCourse(p.coarse, from, j - 1) && from.cmd != NoCmd
    ensures var (next, runs) := TickPair(p, targetValue, full);
            if GoalReached(from.cmd, Along(from.value, from.step, j), from.step, from.goal)
            then next.coarse.cmd == NoCmd && (next.coarse.cur, next.fine.cur) == PairFinal(p, targetValue) && !runs
            else
              && OnCourse(next.coarse, from, j) && runs == (from.cmd != OtherCmd)
              && (next.coarse.cur, next.fine.cur) == PairLevels(next.coarse.value, full, next.fine.fullValue)
  {
    hide Along, PairLevels;
    AlongNext(from.value, from.step, j);
  }

  /**
   The last levels make up the goal: both 0, both targets, or after a FADETO to a value from 0 on a fine level that
   is a proper remainder.
   */
  lemma {:induction false} FinalIsGoal(p: Pair, targetValue: int, goal: int)
    requires p.fine.fullValue > 0 && p.coarse.goal == goal as real
    requires p.coarse.cmd == Black || p.coarse.cmd == FadeOut ==> goal == 0
    requires p.coarse.cmd == FadeIn ==> goal == p.Target(targetValue)
    requires p.coarse.cmd.Black? || p.coarse.cmd.FadeOut? || p.coarse.cmd.FadeIn? || p.coarse.cmd.FadeTo?
    ensures var (hi, lo) := PairFinal(p, targetValue);
            && hi * p.fine.fullValue + lo == goal
            && (p.coarse.cmd.Black? || p.coarse.cmd.FadeOut? ==> hi == lo == 0)
            && (p.coarse.cmd.FadeIn? ==> hi == targetValue && lo == p.fine.targetValue)
            && (p.coarse.cmd == FadeTo && 0 <= goal ==> 0 <= lo < p.fine.fullValue)
  {
    if p.coarse.cmd == FadeTo {
      var full := p.fine.fullValue;
      var hi := Trunc(p.coarse.goal / (full as real));
      assert Trunc(goal as real - ((hi * full) as real)) == goal - hi * full;
      if 0 <= goal {
        DivisionFloor(goal, full);
      }
    }
  }

  lemma {:induction false} QuotientBelowOne(x: real, b: real, r: real)
    requires 0.0 < b && x * b == r && 0.0 <= r < b
    ensures 0.0 <= x < 1.0
  {
  }

  lemma {:induction false} DivisionFloor(a: int, b: int)
    requires 0 <= a && 0 < b
    ensures ((a as real) / (b as real)).Floor == a / b
    ensures 0 <= a - (a / b) * b < b
  {
    var q, r := a / b, a % b;
    assert a == q * b + r;
    var x := (a as real) / (b as real);
    assert x * (b as real) == a as real;
    assert (q * b) as real == (q as real) * (b as real);
    assert (a as real) == (q as real) * (b as real) + r as real;
    assert (x - q as real) * (b as real) == r as real;
    QuotientBelowOne(x - q as real, b as real, r as real);
  }

  lemma {:induction false} PairIdleStays(p: Pair, targetValue: int, full: int, n: nat, k: nat)
    requires full * p.fine.fullValue != 0
    requires n <= k && PairTicks(p, targetValue, full, n).coarse.cmd == NoCmd
    ensures PairTicks(p, targetValue, full, k) == PairTicks(p, targetValue, full, n)
    decreases k
  {
    if n < k {
      PairIdleStays(p, targetValue, full, n, k - 1);
    }
  }

  /** An accepted paired fade runs for its number of ticks and ends with exactly the commanded combined value. */
  lemma {:induction false} PairCourse(p: Pair, cmd: CtrlCmd, timeMs: int, arg: int, targetValue: int, full: int, j: nat)
    requires full > 0 && p.fine.fullValue > 0 && full * p.fine.fullValue != 0
    requires InitPair(p, cmd, timeMs, arg, targetValue).1
    ensures var from := InitPair(p, cmd, timeMs, arg, targetValue).0;
            var at, goal := PairTicks(from, targetValue, full, j), GoalOf(p.Level(), cmd, p.Target(targetValue), arg, arg);
            && goal.Some?
            && (j < FadeLength(cmd, p.Level(), timeMs) ==> OnCourse(at.coarse, from.coarse, j))
            && (1 <= j < FadeLength(cmd, p.Level(), timeMs) ==>
                  (at.coarse.cur, at.fine.cur) == PairLevels(at.coarse.value, full, at.fine.fullValue))
            && (j >= FadeLength(cmd, p.Level(), timeMs) ==>
                  && at.coarse.cmd == NoCmd && at.Level() == goal.value
                  && (cmd.Black? || cmd.FadeOut? ==> at.coarse.cur == at.fine.cur == 0)
                  && (cmd.FadeIn? ==> at.coarse.cur == targetValue && at.fine.cur == p.fine.targetValue)
                  && (cmd == FadeTo && 0 <= arg ==> 0 <= at.fine.cur < at.fine.fullValue))
    decreases j
  {
    hide InitFade, GoalOf, StepSize, FadeLength, TickPair, PairFinal, PairLevels, GoalReached, Along, Stuck, FinalLevel;
    var shadow := p.coarse.(cur := p.Level());
    Accepted(shadow, cmd, timeMs, arg, p.Target(targetValue), arg);
    PairGoal(p.Level(), cmd, p.Target(targetValue), arg);
    var from := InitPair(p, cmd, timeMs, arg, targetValue).0;
    var goal := GoalOf(p.Level(), cmd, p.Target(targetValue), arg, arg).value;
    var n := FadeLength(cmd, p.Level(), timeMs);
    if j == 0 {
      assert OnCourse(from.coarse, from.coarse, 0) by { AlongNext(from.coarse.value, from.coarse.step, 1); }
    } else {
      PairCourse(p, cmd, timeMs, arg, targetValue, full, j - 1);
      var before := PairTicks(from, targetValue, full, j - 1);
      if j > n {
        PairIdleStays(from, targetValue, full, j - 1, j);
      } else {
        ReachedWhen(cmd, p.Level(), goal, timeMs, j);
        PairTickOnCourse(before, from.coarse, targetValue, full, j);
        FinalIsGoal(before, targetValue, goal);
      }
    }
  }

  /** The goal of an accepted paired command differs from the level. */
  lemma {:induction false} PairGoal(level: int, cmd: CtrlCmd, target: int, arg: int)
    ensures var goal := GoalOf(level, cmd, target, arg, arg);
            goal.Some? ==> goal.value != level && (cmd == FadeTo ==> goal.value == arg) && (cmd == FadeIn ==> goal.value == target)
  {
  }

  /** A command to a pair is accepted by its combined level; a rejected one leaves all levels alone. */
  lemma {:induction false} PairAcceptedIff(p: Pair, cmd: CtrlCmd, timeMs: int, arg: int, targetValue: int)
    ensures var (r, ok) := InitPair(p, cmd, timeMs, arg, targetValue);
            && (ok <==> Accepts(cmd, p.coarse.cur * p.fine.fullValue + p.fine.cur,
                                targetValue * p.fine.fullValue + p.fine.targetValue, arg))
            && r.coarse.cur == p.coarse.cur && r.coarse.changed == p.coarse.changed && r.fine == p.fine
            && (!ok ==> r.coarse.cmd == p.coarse.cmd && r.coarse.goal == p.coarse.goal && r.coarse.step == p.coarse.step)
  {
    AcceptedIff(p.coarse.(cur := p.Level()), cmd, timeMs, arg, p.Target(targetValue), arg);
  }

  /**
   In figures: the command runs for a tick per 20 ms, at least one, and then both levels are 0, both are at their
   targets, or they make up the value asked for.
   */
  lemma {:induction false} PairCommandLasts(p: Pair, cmd: CtrlCmd, timeMs: int, arg: int, targetValue: int, full: int, j: nat)
    requires full > 0 && p.fine.fullValue > 0 && full * p.fine.fullValue != 0
    requires Accepts(cmd, p.Level(), p.Target(targetValue), arg)
    ensures var at := PairTicks(InitPair(p, cmd, timeMs, arg, targetValue).0, targetValue, full, j);
            var n := if timeMs < 40 || (cmd.Black? && p.Level() < 0) then 1 else timeMs / 20;
            if j < n then at.coarse.cmd == cmd
            else
              && at.coarse.cmd == NoCmd
              && (cmd.Black? || cmd.FadeOut? ==> at.coarse.cur == at.fine.cur == 0)
              && (cmd.FadeIn? ==> at.coarse.cur == targetValue && at.fine.cur == p.fine.targetValue)
              && (cmd.FadeTo? ==> at.coarse.cur * at.fine.fullValue + at.fine.cur == arg)
              && (cmd.FadeTo? && 0 <= arg ==> 0 <= at.fine.cur < p.fine.fullValue)
  {
    PairAcceptedIff(p, cmd, timeMs, arg, targetValue);
    PairCourse(p, cmd, timeMs, arg, targetValue, full, j);
    hide PairTicks, PairLevels;
  }

  /** A tick of a pair marks both channels when one of their levels moves. */
  lemma {:induction false} PairTickMarks(p: Pair, targetValue: int, full: int)
    requires full * p.fine.fullValue != 0
    ensures var next := TickPair(p, targetValue, full).0;
            var (hi, lo) := PairLevels(p.coarse.value + p.coarse.step, full, p.fine.fullValue);
            var moves := p.coarse.cmd != NoCmd && (hi != p.coarse.cur || lo != p.fine.cur);
            && (next.coarse.changed <==> p.coarse.changed || moves)
            && (next.fine.changed <==> p.fine.changed || moves)
  {
    hide PairLevels;
  }

  // ----- Leaving the range on the way

  /** The combined value at which the 16-bit output gets beyond 65535, because the program scales to 65565. */
  function Limit(full: int, fineFull: int): real {
    65536.0 * ((full * fineFull) as real) / 65565.0
  }

  lemma {:induction false} BeyondLimitIff(value: real, full: int, fineFull: int)
    requires 0 < full * fineFull
    ensures PairDmx(value, full, fineFull) >= 65536 <==> value >= Limit(full, fineFull)
  {
    var max := (full * fineFull) as real;
    var x := value * 65565.0 / max;
    assert x * max == value * 65565.0;
    assert x >= 65536.0 ==> x * max >= 65536.0 * max;
    assert x < 65536.0 ==> x * max < 65536.0 * max;
  }

  /** The coarse level is beyond its full value exactly from there on, if it has at least 255 levels. */
  lemma {:induction false} CoarseBeyondFullIff(value: real, full: int, fineFull: int)
    requires 0 < full && 0 < full * fineFull
    ensures PairLevels(value, full, fineFull).0 > full <==> 255 <= full && value >= Limit(full, fineFull)
  {
    BeyondLimitIff(value, full, fineFull);
    var dmx := PairDmx(value, full, fineFull);
    assert dmx <= 65565;
    hide PairDmx, Limit;
    var k := dmx / 256;
    if k <= 255 {
      ScaledByte(k, full);
    } else {
      assert k == 256;
    }
  }

  lemma {:induction false} ScaledByte(k: int, full: int)
    requires k <= 255 && 0 < full
    ensures CDiv(k * full, 255) <= full
  {
    assert 255 * full - k * full == (255 - k) * full >= 0;
  }

  /** The values after the first step and before the last one of a fade in n steps. */
  function FirstPoint(level: int, goal: int, n: nat): real
    requires 0 < n
  {
    level as real + (goal as real - level as real) / (n as real)
  }

  function LastPoint(level: int, goal: int, n: nat): real
    requires 0 < n
  {
    goal as real - (goal as real - level as real) / (n as real)
  }

  /** A fade in n steps between two combined values gets beyond the limit before it ends. */
  predicate Overshoots(level: int, goal: int, n: nat, full: int, fineFull: int) {
    && 2 <= n && 255 <= full
    && (FirstPoint(level, goal, n) >= Limit(full, fineFull) || LastPoint(level, goal, n) >= Limit(full, fineFull))
  }

  lemma {:induction false} OuterPoints(level: int, goal: int, timeMs: int)
    requires 2 <= StepCount(timeMs)
    ensures var step, n := StepSize(level as real, goal as real, timeMs), StepCount(timeMs);
            && Along(level as real, step, 1) == FirstPoint(level, goal, n)
            && Along(level as real, step, n - 1) == LastPoint(level, goal, n)
  {
    var step, n := StepSize(level as real, goal as real, timeMs), StepCount(timeMs);
    assert step == (goal as real - level as real) / (n as real);
    hide StepSize, StepCount, Along;
    StepsToGoal(level as real, goal as real, timeMs, 0, n);
    AlongNext(level as real, step, 1);
    AlongNext(level as real, step, n);
  }

  /** The points of a fade lie below the higher one of the outer points. */
  lemma {:induction false} BetweenOuterPoints(level: int, goal: int, timeMs: int, j: nat)
    requires 1 <= j < StepCount(timeMs)
    ensures var step, n := StepSize(level as real, goal as real, timeMs), StepCount(timeMs);
            Along(level as real, step, j) <= FirstPoint(level, goal, n) || Along(level as real, step, j) <= LastPoint(level, goal, n)
  {
    OuterPoints(level, goal, timeMs);
    hide StepSize, StepCount, Along, FirstPoint, LastPoint;
    StepsToGoal(level as real, goal as real, timeMs, 1, j);
    StepsToGoal(level as real, goal as real, timeMs, j, StepCount(timeMs) - 1);
  }

  /** After j ticks of the command, before its end, the coarse level is beyond full. */
  ghost predicate BeyondFullAt(p: Pair, cmd: CtrlCmd, timeMs: int, arg: int, targetValue: int, full: int, j: nat)
    requires full * p.fine.fullValue != 0
  {
    && 1 <= j < FadeLength(cmd, p.Level(), timeMs)
    && PairTicks(InitPair(p, cmd, timeMs, arg, targetValue).0, targetValue, full, j).coarse.cur > full
  }

  lemma {:induction false} BeyondFullAtIff(p: Pair, cmd: CtrlCmd, timeMs: int, arg: int, targetValue: int, full: int, j: nat)
    requires full > 0 && p.fine.fullValue > 0 && full * p.fine.fullValue > 0 && InitPair(p, cmd, timeMs, arg, targetValue).1
    requires 1 <= j < FadeLength(cmd, p.Level(), timeMs)
    ensures var goal := GoalOf(p.Level(), cmd, p.Target(targetValue), arg, arg);
            && goal.Some?
            && (BeyondFullAt(p, cmd, timeMs, arg, targetValue, full, j) <==>
                  255 <= full &&
                  Along(p.Level() as real, StepSize(p.Level() as real, goal.value as real, timeMs), j) >= Limit(full, p.fine.fullValue))
  {
    hide InitFade, GoalOf, StepSize, TickPair, PairLevels, PairTicks, Along, Stuck, FinalLevel, Limit;
    Accepted(p.coarse.(cur := p.Level()), cmd, timeMs, arg, p.Target(targetValue), arg);
    PairCourse(p, cmd, timeMs, arg, targetValue, full, j);
    var at := PairTicks(InitPair(p, cmd, timeMs, arg, targetValue).0, targetValue, full, j);
    CoarseBeyondFullIff(at.coarse.value, full, p.fine.fullValue);
  }

  /**
   On its way a paired fade takes the coarse level beyond its full value if and only if the value after
   its first step or before its last one reaches the limit.
   */
  lemma {:induction false} FadeOvershootsIff(p: Pair, cmd: CtrlCmd, timeMs: int, arg: int, targetValue: int, full: int)
    requires full > 0 && p.fine.fullValue > 0 && full * p.fine.fullValue > 0 && InitPair(p, cmd, timeMs, arg, targetValue).1
    ensures var goal, n := GoalOf(p.Level(), cmd, p.Target(targetValue), arg, arg), FadeLength(cmd, p.Level(), timeMs);
            && goal.Some?
            && ((exists j: nat :: BeyondFullAt(p, cmd, timeMs, arg, targetValue, full, j)) <==>
                  Overshoots(p.Level(), goal.value, n, full, p.fine.fullValue))
  {
    var n := FadeLength(cmd, p.Level(), timeMs);
    Accepted(p.coarse.(cur := p.Level()), cmd, timeMs, arg, p.Target(targetValue), arg);
    var goal := GoalOf(p.Level(), cmd, p.Target(targetValue), arg, arg).value;
    hide InitFade, InitPair, GoalOf, StepSize, Along, Stuck, FinalLevel, Limit, FirstPoint, LastPoint, OnCourse;
    if 2 <= n {
      OuterPoints(p.Level(), goal, timeMs);
      BeyondFullAtIff(p, cmd, timeMs, arg, targetValue, full, 1);
      BeyondFullAtIff(p, cmd, timeMs, arg, targetValue, full, n - 1);
    }
    if j: nat :| BeyondFullAt(p, cmd, timeMs, arg, targetValue, full, j) {
      BeyondFullAtIff(p, cmd, timeMs, arg, targetValue, full, j);
      BetweenOuterPoints(p.Level(), goal, timeMs, j);
    }
  }

  /** From 99995000 to 100000000 in 40 ms, with 10000 levels on both channels: the coarse level is 10039 after one tick. */
  lemma {:induction false} OvershootWitness(l: MixLine, fine: Fine)
    requires l.cur == 9999 && fine.cur == 5000 && fine.fullValue == 10000
    ensures InitPair(Pair(l, fine), FadeTo, 40, 100000000, 0).1
    ensures PairTicks(InitPair(Pair(l, fine), FadeTo, 40, 100000000, 0).0, 0, 10000, 1).coarse.cur == 10039
    ensures PairTicks(InitPair(Pair(l, fine), FadeTo, 40, 100000000, 0).0, 0, 10000, 2).coarse.cur == 10000
  {
    var from := InitPair(Pair(l, fine), FadeTo, 40, 100000000, 0).0;
    assert from.coarse.value == 99995000.0 && from.coarse.step == 2500.0;
    assert PairTicks(from, 0, 10000, 0) == from;
    assert TickPair(from, 0, 10000).0 == PairTicks(from, 0, 10000, 1);
    var at := PairTicks(from, 0, 10000, 1);
    assert PairTicks(from, 0, 10000, 2) == TickPair(at, 0, 10000).0;
  }
}
