/**
 The fade engine of one mix line of a DMX channel: a fade starts with a
 constant step per light-loop tick and ends when its goal is reached. Values
 are reals here, floats in the program; levels are their integer part.
 */
module DmxFade {
  import opened Common

  const LIGHT_LOOP_INTERVAL_MS := 20

  datatype CtrlCmd = NoCmd | Black | FadeOut | FadeIn | FadeTo | OtherCmd

  // cur: output level, changed: flag for the user interface, cmd: the running command.
  datatype MixLine = MixLine(cur: int, changed: bool, cmd: CtrlCmd, start: real, goal: real, value: real, step: real)

  /** The level a command leads to; None if it is rejected. */
  function GoalOf(cur: int, cmd: CtrlCmd, targetValue: int, fullValue: int, arg: int): Option<int> {
    match cmd
    case Black => if cur == 0 then None else Some(0)
    case FadeIn => if cur >= targetValue then None else Some(targetValue)
    case FadeOut => if cur <= 0 then None else Some(0)
    case FadeTo => if cur == arg then None else Some(Min(arg, fullValue))
    case _ => None
  }

  function StepSize(start: real, goal: real, timeMs: int): real {
    var steps := CDiv(timeMs, LIGHT_LOOP_INTERVAL_MS);
    if steps < 1 then goal - start else (goal - start) / (steps as real)
  }

  /** Command to a channel that is not paired. A rejected one still resets the fade value to the level. */
  function InitFade(l: MixLine, cmd: CtrlCmd, timeMs: int, arg: int, targetValue: int, fullValue: int): (MixLine, bool) {
    var at := l.cur as real;
    match GoalOf(l.cur, cmd, targetValue, fullValue, arg)
    case None => (l.(start := at, value := at), false)
    case Some(goal) =>
      (l.(cmd := cmd, start := at, value := at, goal := goal as real, step := StepSize(at, goal as real, timeMs)), true)
  }

  predicate GoalReached(cmd: CtrlCmd, value: real, step: real, goal: real) {
    match cmd
    case Black => value <= 0.0
    case FadeOut => value <= 0.0
    case FadeIn => value >= goal
    case FadeTo => (step > 0.0 && value >= goal) || (step < 0.0 && value <= goal)
    case _ => false
  }

  function FinalLevel(l: MixLine, targetValue: int): int {
    match l.cmd
    case FadeIn => targetValue
    case FadeTo => Trunc(l.goal)
    case _ => 0
  }

  /** One tick; the flag says whether the command still runs. */
  function Tick(l: MixLine, targetValue: int): (MixLine, bool) {
    if l.cmd == NoCmd then (l, false)
    else
      var v := l.value + l.step;
      var moved := l.(value := v, cur := Trunc(v), changed := l.changed || Trunc(v) != l.cur);
      if GoalReached(l.cmd, v, l.step, l.goal) then (moved.(cur := FinalLevel(l, targetValue), cmd := NoCmd), false)
      else (moved, l.cmd != OtherCmd)
  }

  function Ticks(l: MixLine, targetValue: int, n: nat): MixLine {
    if n == 0 then l else Tick(Ticks(l, targetValue, n - 1), targetValue).0
  }

  // ----- How long a fade takes

  /** The number of equal steps from start to goal. */
  function StepCount(timeMs: int): (n: nat)
    ensures 1 <= n
  {
    Max(1, CDiv(timeMs, LIGHT_LOOP_INTERVAL_MS))
  }

  /** The number of ticks a fade needs: one for a black-out from below 0, else its time in ticks, at least one. */
  function FadeLength(cmd: CtrlCmd, cur: int, timeMs: int): (n: nat)
    ensures 1 <= n
  {
    if cmd == Black && cur < 0 then 1 else StepCount(timeMs)
  }

  function Scaled(a: real, b: real): real {
    a * b
  }

  lemma {:induction false} ScaleIsMonotone(a: real, b: real, scale: real)
    requires a <= b
    ensures scale >= 0.0 ==> Scaled(a, scale) <= Scaled(b, scale)
    ensures scale <= 0.0 ==> Scaled(a, scale) >= Scaled(b, scale)
    ensures Scaled(0.0, scale) == 0.0 && Scaled(1.0, scale) == scale
  {
  }

  /** The fade value after j steps. */
  function Along(start: real, step: real, j: nat): real {
    start + Scaled(j as real, step)
  }

  lemma {:induction false} AlongNext(start: real, step: real, j: nat)
    requires 1 <= j
    ensures Along(start, step, 0) == start
    ensures Along(start, step, j) == Along(start, step, j - 1) + step
  {
  }

  /** The steps of a fade lead to its goal in order, and exactly to it with the last one. */
  lemma {:induction false} StepsToGoal(start: real, goal: real, timeMs: int, j: nat, k: nat)
    requires j <= k <= StepCount(timeMs)
    ensures var step := StepSize(start, goal, timeMs);
            && (if start <= goal then start <= Along(start, step, j) <= Along(start, step, k) <= goal
                else start >= Along(start, step, j) >= Along(start, step, k) >= goal)
            && Along(start, step, 0) == start
            && Along(start, step, StepCount(timeMs)) == goal
            && (start < goal <==> step > 0.0) && (goal < start <==> step < 0.0)
  {
    hide Scaled, Along;
    StepTimesCount(start, goal, timeMs);
    PointsInOrder(start, goal, StepSize(start, goal, timeMs), StepCount(timeMs), j, k);
  }

  lemma {:induction false} StepTimesCount(start: real, goal: real, timeMs: int)
    ensures Scaled(StepCount(timeMs) as real, StepSize(start, goal, timeMs)) == goal - start
  {
  }

  /** Points of a straight line, in order. */
  lemma {:induction false} PointsInOrder(start: real, goal: real, step: real, n: nat, j: nat, k: nat)
    requires j <= k <= n && 1 <= n && Scaled(n as real, step) == goal - start
    ensures if start <= goal then start <= Along(start, step, j) <= Along(start, step, k) <= goal
            else start >= Along(start, step, j) >= Along(start, step, k) >= goal
    ensures Along(start, step, 0) == start && Along(start, step, n) == goal
    ensures (start < goal <==> step > 0.0) && (goal < start <==> step < 0.0)
  {
    hide Scaled;
    ScaleIsMonotone(0.0, j as real, step);
    ScaleIsMonotone(j as real, k as real, step);
    ScaleIsMonotone(k as real, n as real, step);
    ScaleIsMonotone(1.0, n as real, step);
  }

  /** Before the last step the goal is not reached. */
  lemma {:induction false} NotYetAtGoal(start: real, goal: real, timeMs: int, j: nat)
    requires j < StepCount(timeMs) && start != goal
    ensures Along(start, StepSize(start, goal, timeMs), j) != goal
  {
  }

  /** The goal is reached at tick FadeLength and not before, with a step that points to it. */
  lemma {:induction false} ReachedWhen(cmd: CtrlCmd, cur: int, goal: int, timeMs: int, j: nat)
    requires cmd == Black ==> goal == 0 && cur != 0
    requires cmd == FadeOut ==> goal == 0 < cur
    requires cmd == FadeIn ==> cur < goal
    requires cmd.Black? || cmd.FadeOut? || cmd.FadeIn? || (cmd.FadeTo? && cur != goal)
    requires 1 <= j <= FadeLength(cmd, cur, timeMs)
    ensures var step := StepSize(cur as real, goal as real, timeMs);
            GoalReached(cmd, Along(cur as real, step, j), step, goal as real) <==> j == FadeLength(cmd, cur, timeMs)
  {
    hide StepSize, Along;
    StepsToGoal(cur as real, goal as real, timeMs, j, StepCount(timeMs));
    if j < StepCount(timeMs) {
      NotYetAtGoal(cur as real, goal as real, timeMs, j);
    }
  }

  /** The moving part of an accepted fade after j ticks, before it ends. */
  predicate OnCourse(l: MixLine, from: MixLine, j: nat) {
    && l.cmd == from.cmd && l.step == from.step && l.goal == from.goal
    && l.value == Along(from.value, from.step, j)
  }

  lemma {:induction false} TickOnCourse(l: MixLine, from: MixLine, targetValue: int, j: nat)
    requires 1 <= j && OnCourse(l, from, j - 1) && from.cmd != NoCmd
    ensures var (next, runs) := Tick(l, targetValue);
            if GoalReached(from.cmd, Along(from.value, from.step, j), from.step, from.goal)
            then next.cmd == NoCmd && next.cur == FinalLevel(from, targetValue) && !runs
            else OnCourse(next, from, j) && next.cur == Trunc(next.value) && runs == (from.cmd != OtherCmd)
  {
  }

  lemma {:induction false} IdleStays(l: MixLine, targetValue: int, n: nat, k: nat)
    requires n <= k && Ticks(l, targetValue, n).cmd == NoCmd
    ensures Ticks(l, targetValue, k) == Ticks(l, targetValue, n)
    decreases k
  {
    if n < k {
      IdleStays(l, targetValue, n, k - 1);
    }
  }

  /** The step of an accepted command is 0 exactly for a FADETO beyond full on a channel that is at full. */
  predicate Stuck(cur: int, cmd: CtrlCmd, fullValue: int, arg: int) {
    cmd == FadeTo && cur == fullValue < arg
  }

  lemma {:induction false} ZeroStepIff(l: MixLine, cmd: CtrlCmd, timeMs: int, arg: int, targetValue: int, fullValue: int)
    requires InitFade(l, cmd, timeMs, arg, targetValue, fullValue).1
    ensures InitFade(l, cmd, timeMs, arg, targetValue, fullValue).0.step == 0.0 <==> Stuck(l.cur, cmd, fullValue, arg)
  {
  }

  /** The guards: BLACK off level 0, FADEIN below the target, FADEOUT above 0, FADETO off the level asked for. */
  predicate Accepts(cmd: CtrlCmd, cur: int, targetValue: int, arg: int) {
    || (cmd.Black? && cur != 0)
    || (cmd.FadeIn? && cur < targetValue)
    || (cmd.FadeOut? && 0 < cur)
    || (cmd.FadeTo? && cur != arg)
  }

  /** A rejected command leaves level, command and goal alone, but sets the fade value back to the level. */
  lemma {:induction false} AcceptedIff(l: MixLine, cmd: CtrlCmd, timeMs: int, arg: int, targetValue: int, fullValue: int)
    ensures var (r, ok) := InitFade(l, cmd, timeMs, arg, targetValue, fullValue);
            && (ok <==> Accepts(cmd, l.cur, targetValue, arg))
            && r.cur == l.cur && r.changed == l.changed && r.value == r.start == l.cur as real
            && (!ok ==> r.cmd == l.cmd && r.goal == l.goal && r.step == l.step)
  {
  }

  /** What an accepted command sets. */
  lemma {:induction false} Accepted(l: MixLine, cmd: CtrlCmd, timeMs: int, arg: int, targetValue: int, fullValue: int)
    requires InitFade(l, cmd, timeMs, arg, targetValue, fullValue).1
    ensures GoalOf(l.cur, cmd, targetValue, fullValue, arg).Some?
    ensures var from, goal := InitFade(l, cmd, timeMs, arg, targetValue, fullValue).0,
                              GoalOf(l.cur, cmd, targetValue, fullValue, arg).value;
            && from.cmd == cmd && from.cur == l.cur && from.value == l.cur as real && from.goal == goal as real
            && from.step == StepSize(l.cur as real, goal as real, timeMs)
            && FinalLevel(from, targetValue) == goal
            && (cmd == Black ==> goal == 0 && l.cur != 0)
            && (cmd == FadeOut ==> goal == 0 < l.cur)
            && (cmd == FadeIn ==> l.cur < goal)
            && (cmd.Black? || cmd.FadeOut? || cmd.FadeIn? || cmd.FadeTo?)
            && (Stuck(l.cur, cmd, fullValue, arg) <==> l.cur == goal)
            && OnCourse(from, from, 0)
  {
  }

  /**
   The course of an accepted fade: it runs for FadeLength ticks, on a straight
   line, and stands exactly at its goal from then on.
   */
  lemma {:induction false} FadeCourse(l: MixLine, cmd: CtrlCmd, timeMs: int, arg: int, targetValue: int, fullValue: int,
                                      j: nat)
    requires InitFade(l, cmd, timeMs, arg, targetValue, fullValue).1 && !Stuck(l.cur, cmd, fullValue, arg)
    ensures var from, at := InitFade(l, cmd, timeMs, arg, targetValue, fullValue).0,
                            Ticks(InitFade(l, cmd, timeMs, arg, targetValue, fullValue).0, targetValue, j);
            if j == 0 then at == from && from.cmd == cmd && from.cur == l.cur
            else if j < FadeLength(cmd, l.cur, timeMs) then OnCourse(at, from, j) && at.cur == Trunc(at.value)
            else at.cmd == NoCmd && at.cur == GoalOf(l.cur, cmd, targetValue, fullValue, arg).value
    decreases j
  {
    hide InitFade, GoalOf, StepSize, FadeLength, Tick, FinalLevel, Stuck, GoalReached, Along;
    Accepted(l, cmd, timeMs, arg, targetValue, fullValue);
    var from := InitFade(l, cmd, timeMs, arg, targetValue, fullValue).0;
    var goal := GoalOf(l.cur, cmd, targetValue, fullValue, arg).value;
    var n := FadeLength(cmd, l.cur, timeMs);
    if j > n {
      FadeCourse(l, cmd, timeMs, arg, targetValue, fullValue, j - 1);
      IdleStays(from, targetValue, j - 1, j);
    } else if j > 0 {
      FadeCourse(l, cmd, timeMs, arg, targetValue, fullValue, j - 1);
      ReachedWhen(cmd, l.cur, goal, timeMs, j);
      TickOnCourse(Ticks(from, targetValue, j - 1), from, targetValue, j);
    }
  }

  /**
   The same in figures: a command runs for a tick per 20 ms of its time, at least one, and has then brought the
   line to 0, to its target, or to the level asked for but at most full; a BLACK from below 0 takes one tick.
   */
  lemma {:induction false} CommandLasts(l: MixLine, cmd: CtrlCmd, timeMs: int, arg: int, targetValue: int, fullValue: int,
                                        j: nat)
    requires Accepts(cmd, l.cur, targetValue, arg) && !(cmd.FadeTo? && l.cur == fullValue < arg)
    ensures var at := Ticks(InitFade(l, cmd, timeMs, arg, targetValue, fullValue).0, targetValue, j);
            var n := if timeMs < 40 || (cmd.Black? && l.cur < 0) then 1 else timeMs / 20;
            if j < n then at.cmd == cmd
            else at.cmd == NoCmd && at.cur == if cmd.FadeIn? then targetValue else if cmd.FadeTo? then Min(arg, fullValue) else 0
  {
    AcceptedIff(l, cmd, timeMs, arg, targetValue, fullValue);
    FadeCourse(l, cmd, timeMs, arg, targetValue, fullValue, j);
  }

  /** A stuck fade keeps running at its level for ever. */
  lemma {:induction false} StuckForEver(l: MixLine, timeMs: int, arg: int, targetValue: int, fullValue: int, j: nat)
    requires Stuck(l.cur, FadeTo, fullValue, arg)
    ensures var from := InitFade(l, FadeTo, timeMs, arg, targetValue, fullValue);
            && from.1
            && Ticks(from.0, targetValue, j).cmd == FadeTo && Ticks(from.0, targetValue, j).cur == l.cur
            && Ticks(from.0, targetValue, j).step == 0.0 && Ticks(from.0, targetValue, j).value == l.cur as real
    decreases j
  {
    ZeroStepIff(l, FadeTo, timeMs, arg, targetValue, fullValue);
    if j > 0 {
      StuckForEver(l, timeMs, arg, targetValue, fullValue, j - 1);
    }
  }

  ghost predicate Ends(l: MixLine, targetValue: int) {
    exists n: nat :: Ticks(l, targetValue, n).cmd == NoCmd
  }

  /** An accepted fade ends, unless it is a FADETO beyond full from full. */
  lemma {:induction false} AcceptedFadeEndsIff(l: MixLine, cmd: CtrlCmd, timeMs: int, arg: int, targetValue: int, fullValue: int)
    requires InitFade(l, cmd, timeMs, arg, targetValue, fullValue).1
    ensures Ends(InitFade(l, cmd, timeMs, arg, targetValue, fullValue).0, targetValue)
            <==> !Stuck(l.cur, cmd, fullValue, arg)
  {
    var from := InitFade(l, cmd, timeMs, arg, targetValue, fullValue).0;
    if Stuck(l.cur, cmd, fullValue, arg) {
      forall n: nat ensures Ticks(from, targetValue, n).cmd != NoCmd {
        StuckForEver(l, timeMs, arg, targetValue, fullValue, n);
      }
    } else {
      var n := FadeLength(cmd, l.cur, timeMs);
      FadeCourse(l, cmd, timeMs, arg, targetValue, fullValue, n);
      assert Ticks(from, targetValue, n).cmd == NoCmd;
    }
  }

  // ----- The levels on the way

  predicate Ordered(a: int, b: int, c: int, d: int) {
    a <= b <= c <= d || a >= b >= c >= d
  }

  /** The level moves from start to goal in one direction and never leaves the range between them. */
  lemma {:induction false} FadeIsMonotone(l: MixLine, cmd: CtrlCmd, timeMs: int, arg: int, targetValue: int, fullValue: int,
                                          j: nat, k: nat)
    requires InitFade(l, cmd, timeMs, arg, targetValue, fullValue).1 && j <= k
    ensures var from := InitFade(l, cmd, timeMs, arg, targetValue, fullValue).0;
            Ordered(l.cur, Ticks(from, targetValue, j).cur, Ticks(from, targetValue, k).cur,
                    GoalOf(l.cur, cmd, targetValue, fullValue, arg).value)
  {
    hide InitFade, GoalOf, StepSize, Tick, Ticks, FinalLevel, Stuck, OnCourse;
    Accepted(l, cmd, timeMs, arg, targetValue, fullValue);
    if Stuck(l.cur, cmd, fullValue, arg) {
      StuckLevel(l, cmd, timeMs, arg, targetValue, fullValue, j);
      StuckLevel(l, cmd, timeMs, arg, targetValue, fullValue, k);
    } else {
      LevelAt(l, cmd, timeMs, arg, targetValue, fullValue, j);
      LevelAt(l, cmd, timeMs, arg, targetValue, fullValue, k);
      var goal, n := GoalOf(l.cur, cmd, targetValue, fullValue, arg).value, StepCount(timeMs);
      LevelsOnLine(l.cur, goal, timeMs, Min(j, n), Min(k, n));
    }
  }

  lemma {:induction false} StuckLevel(l: MixLine, cmd: CtrlCmd, timeMs: int, arg: int, targetValue: int, fullValue: int,
                                      j: nat)
    requires Stuck(l.cur, cmd, fullValue, arg)
    ensures Ticks(InitFade(l, cmd, timeMs, arg, targetValue, fullValue).0, targetValue, j).cur == l.cur
  {
    StuckForEver(l, timeMs, arg, targetValue, fullValue, j);
  }

  /** The level after j steps of a fade. */
  function LineLevel(start: int, goal: int, timeMs: int, j: nat): int {
    Trunc(Along(start as real, StepSize(start as real, goal as real, timeMs), j))
  }

  lemma {:induction false} LevelAt(l: MixLine, cmd: CtrlCmd, timeMs: int, arg: int, targetValue: int, fullValue: int,
                                   j: nat)
    requires InitFade(l, cmd, timeMs, arg, targetValue, fullValue).1 && !Stuck(l.cur, cmd, fullValue, arg)
    ensures var goal := GoalOf(l.cur, cmd, targetValue, fullValue, arg).value;
            Ticks(InitFade(l, cmd, timeMs, arg, targetValue, fullValue).0, targetValue, j).cur ==
            if j > 0 && cmd == Black && l.cur < 0 then goal else LineLevel(l.cur, goal, timeMs, Min(j, StepCount(timeMs)))
  {
    hide Tick, Ticks, FinalLevel, InitFade, GoalOf, StepSize, Stuck, Along;
    Accepted(l, cmd, timeMs, arg, targetValue, fullValue);
    FadeCourse(l, cmd, timeMs, arg, targetValue, fullValue, j);
    var goal := GoalOf(l.cur, cmd, targetValue, fullValue, arg).value;
    StepsToGoal(l.cur as real, goal as real, timeMs, 0, 0);
  }

  /** The levels of a fade, in order. */
  lemma {:induction false} LevelsOnLine(start: int, goal: int, timeMs: int, j: nat, k: nat)
    requires j <= k <= StepCount(timeMs)
    ensures Ordered(start, LineLevel(start, goal, timeMs, j), LineLevel(start, goal, timeMs, k), goal)
  {
    hide StepSize, Along, StepCount;
    StepsToGoal(start as real, goal as real, timeMs, j, k);
  }

  // ----- FADEOUT against a running fade

  /** What every line satisfies whose targets are not negative and not edited during a fade. */
  predicate LineInv(l: MixLine, targetValue: int) {
    && 0 <= l.cur && 0 <= targetValue
    && match l.cmd
       case NoCmd => true
       case Black => l.step < 0.0 && l.goal == 0.0 && 0.0 <= l.value && l.cur == Trunc(l.value)
       case FadeOut => l.step < 0.0 && l.goal == 0.0 && 0.0 <= l.value && l.cur == Trunc(l.value)
       case FadeIn => l.step > 0.0 && l.goal == targetValue as real && 0.0 <= l.value < l.goal && l.cur == Trunc(l.value)
       case FadeTo =>
         && 0.0 <= l.goal == l.goal.Floor as real && 0.0 <= l.value && l.cur == Trunc(l.value)
         && (l.step > 0.0 ==> l.value < l.goal)
         && (l.step < 0.0 ==> l.goal <= l.value)
         && (l.step == 0.0 ==> 0.0 < l.goal == l.value)
       case OtherCmd => false
  }

  lemma {:induction false} WholeLevel(level: int)
    ensures Trunc(level as real) == level && (level as real).Floor == level
  {
  }

  lemma {:induction false} InitKeepsInv(l: MixLine, cmd: CtrlCmd, timeMs: int, arg: int, targetValue: int, fullValue: int)
    requires LineInv(l, targetValue) && 0 <= arg && 0 < fullValue
    ensures LineInv(InitFade(l, cmd, timeMs, arg, targetValue, fullValue).0, targetValue)
  {
    hide StepSize, Along, Stuck, FinalLevel, Trunc;
    WholeLevel(l.cur);
    if InitFade(l, cmd, timeMs, arg, targetValue, fullValue).1 {
      var goal := GoalOf(l.cur, cmd, targetValue, fullValue, arg).value;
      WholeLevel(goal);
      StepsToGoal(l.cur as real, goal as real, timeMs, 0, 0);
    } else {
      hide GoalOf;
      RejectedKeepsInv(l, targetValue);
    }
  }

  lemma {:induction false} LevelBelowValue(value: real, level: int)
    requires 0.0 <= value && level == Trunc(value)
    ensures level as real <= value < level as real + 1.0
  {
  }

  lemma {:induction false} WholeGap(a: int, b: int)
    ensures if a <= b then a as real <= b as real else a as real >= b as real + 1.0
  {
  }

  /** Resetting the fade value to the level. */
  lemma {:induction false} RejectedKeepsInv(l: MixLine, targetValue: int)
    requires LineInv(l, targetValue)
    ensures LineInv(l.(start := l.cur as real, value := l.cur as real), targetValue)
  {
    WholeLevel(l.cur);
    if l.cmd != NoCmd {
      LevelBelowValue(l.value, l.cur);
      if l.cmd == FadeTo && l.step <= 0.0 {
        WholeGap(l.goal.Floor, l.cur);
      }
    }
    hide Trunc;
  }

  lemma {:induction false} TickKeepsInv(l: MixLine, targetValue: int)
    requires LineInv(l, targetValue)
    ensures LineInv(Tick(l, targetValue).0, targetValue)
    ensures Tick(l, targetValue).1 <==> Tick(l, targetValue).0.cmd != NoCmd
  {
  }

  /** A running fade that leads to a level above 0. */
  predicate Rising(l: MixLine) {
    l.cmd == FadeIn || (l.cmd == FadeTo && l.step > 0.0)
  }

  ghost predicate Clears(l: MixLine, targetValue: int) {
    exists n: nat :: Ticks(l, targetValue, n).cmd == NoCmd && Ticks(l, targetValue, n).cur == 0
  }

  /** A fade that rises from 0 goes on and ends above 0. */
  lemma {:induction false} RisesOn(l: MixLine, targetValue: int, n: nat)
    requires LineInv(l, targetValue) && Rising(l)
    ensures var at := Ticks(l, targetValue, n);
            if at.cmd == NoCmd then at.cur > 0 else Rising(at) && LineInv(at, targetValue)
    decreases n
  {
    if n > 0 {
      RisesOn(l, targetValue, n - 1);
      TickKeepsInv(Ticks(l, targetValue, n - 1), targetValue);
    }
  }

  /** Otherwise FADEOUT or BLACK has cleared the line by the end of its time. */
  lemma {:induction false} FadeOutClearsBy(l: MixLine, cmd: CtrlCmd, timeMs: int, arg: int, targetValue: int, fullValue: int, n: nat)
    requires LineInv(l, targetValue) && (l.cur > 0 || !Rising(l)) && StepCount(timeMs) <= n && (cmd.FadeOut? || cmd.Black?)
    ensures var at := Ticks(InitFade(l, cmd, timeMs, arg, targetValue, fullValue).0, targetValue, n);
            at.cmd == NoCmd && at.cur == 0
  {
    var from := InitFade(l, cmd, timeMs, arg, targetValue, fullValue).0;
    if l.cur > 0 {
      FadeCourse(l, cmd, timeMs, arg, targetValue, fullValue, n);
    } else {
      assert Ticks(from, targetValue, 0) == from;
      assert Ticks(from, targetValue, 1) == Tick(from, targetValue).0;
      IdleStays(from, targetValue, if l.cmd == NoCmd then 0 else 1, n);
    }
  }

  /**
   FADEOUT and BLACK bring a line to 0 exactly if the line is above 0 or no rising fade
   runs on it: at level 0 the command is rejected and does not stop the fade-in.
   */
  lemma {:induction false} FadeOutClearsIff(l: MixLine, cmd: CtrlCmd, timeMs: int, arg: int, targetValue: int, fullValue: int)
    requires LineInv(l, targetValue) && (cmd.FadeOut? || cmd.Black?)
    ensures Clears(InitFade(l, cmd, timeMs, arg, targetValue, fullValue).0, targetValue)
            <==> (l.cur > 0 || !Rising(l))
  {
    var from := InitFade(l, cmd, timeMs, arg, targetValue, fullValue).0;
    if l.cur > 0 || !Rising(l) {
      FadeOutClearsBy(l, cmd, timeMs, arg, targetValue, fullValue, StepCount(timeMs));
      assert Ticks(from, targetValue, StepCount(timeMs)).cmd == NoCmd;
    } else {
      forall n: nat ensures !(Ticks(from, targetValue, n).cmd == NoCmd && Ticks(from, targetValue, n).cur == 0) {
        RisesOn(from, targetValue, n);
      }
    }
  }

  // ----- Where a running line ends, and what a command over it does

  /** The level at which the line comes to rest; None if it never does. */
  function LeadsTo(l: MixLine, targetValue: int): Option<int> {
    match l.cmd
    case NoCmd => Some(l.cur)
    case FadeIn => Some(targetValue)
    case FadeTo => if l.step == 0.0 then None else Some(Trunc(l.goal))
    case OtherCmd => None
    case _ => Some(0)
  }

  ghost predicate Settles(l: MixLine, targetValue: int, level: int) {
    exists n: nat :: Ticks(l, targetValue, n).cmd == NoCmd && Ticks(l, targetValue, n).cur == level
  }

  lemma {:induction false} TicksNext(l: MixLine, targetValue: int, n: nat)
    ensures Ticks(Tick(l, targetValue).0, targetValue, n) == Ticks(l, targetValue, n + 1)
    decreases n
  {
    hide Tick;
    if n == 0 {
      assert Ticks(l, targetValue, 1) == Tick(Ticks(l, targetValue, 0), targetValue).0;
    } else {
      TicksNext(l, targetValue, n - 1);
    }
  }

  /** How far a running line still has to go. */
  function Distance(l: MixLine): real {
    if l.step > 0.0 then l.goal - l.value else l.value - l.goal
  }

  function Stride(l: MixLine): real {
    if l.step > 0.0 then l.step else -l.step
  }

  lemma {:induction false} EnoughStrides(distance: real, stride: real) returns (k: nat)
    requires 0.0 < stride
    ensures distance <= Scaled(k as real, stride)
  {
    var q := distance / stride;
    k := Max(0, q.Floor + 1);
    assert Scaled(q, stride) == distance;
    ScaleIsMonotone(q, k as real, stride);
  }

  lemma {:induction false} OneStrideLess(k: nat, stride: real)
    requires 0 < k
    ensures Scaled((k - 1) as real, stride) == Scaled(k as real, stride) - stride
  {
  }

  /** A running line with a step comes to rest at the level it leads to. */
  lemma {:induction false} RunningEnds(l: MixLine, targetValue: int, k: nat) returns (n: nat)
    requires LineInv(l, targetValue) && l.cmd != NoCmd && l.step != 0.0 && Distance(l) <= Scaled(k as real, Stride(l))
    ensures Ticks(l, targetValue, n).cmd == NoCmd && Some(Ticks(l, targetValue, n).cur) == LeadsTo(l, targetValue)
    decreases k
  {
    hide Scaled;
    var next := Tick(l, targetValue).0;
    TickKeepsInv(l, targetValue);
    ScaleIsMonotone(0.0, 0.0, Stride(l));
    if next.cmd == NoCmd {
      n := 1;
      assert Ticks(l, targetValue, 1) == Tick(Ticks(l, targetValue, 0), targetValue).0;
    } else {
      hide LineInv, Trunc;
      RunsCloser(l, targetValue);
      if k > 0 {
        OneStrideLess(k, Stride(l));
      }
      assert k > 0;
      n := RunningEnds(next, targetValue, k - 1);
      TicksNext(l, targetValue, n);
      n := n + 1;
    }
  }

  lemma {:induction false} RunsCloser(l: MixLine, targetValue: int)
    requires LineInv(l, targetValue) && l.cmd != NoCmd && l.step != 0.0 && Tick(l, targetValue).0.cmd != NoCmd
    ensures var next := Tick(l, targetValue).0;
            && next.step == l.step && LeadsTo(next, targetValue) == LeadsTo(l, targetValue)
            && Stride(next) == Stride(l) && Distance(next) == Distance(l) - Stride(l) && 0.0 < Distance(l)
  {
    hide Trunc;
  }

  lemma {:induction false} WithoutStepStays(l: MixLine, targetValue: int, n: nat)
    requires l.cmd == FadeTo && l.step == 0.0
    ensures Ticks(l, targetValue, n).cmd == FadeTo && Ticks(l, targetValue, n).step == 0.0
    decreases n
  {
    if n > 0 {
      WithoutStepStays(l, targetValue, n - 1);
    }
  }

  /** A line in order comes to rest at exactly this level, if at all. */
  lemma {:induction false} SettlesIff(l: MixLine, targetValue: int, level: int)
    requires LineInv(l, targetValue)
    ensures Settles(l, targetValue, level) <==> LeadsTo(l, targetValue) == Some(level)
  {
    if l.cmd == FadeTo && l.step == 0.0 {
      forall n: nat ensures Ticks(l, targetValue, n).cmd != NoCmd {
        WithoutStepStays(l, targetValue, n);
      }
    } else {
      var n: nat := 0;
      if l.cmd != NoCmd {
        var k := EnoughStrides(Distance(l), Stride(l));
        n := RunningEnds(l, targetValue, k);
      }
      hide LineInv, Tick;
      assert Ticks(l, targetValue, n).cmd == NoCmd && Some(Ticks(l, targetValue, n).cur) == LeadsTo(l, targetValue);
      forall j: nat | Ticks(l, targetValue, j).cmd == NoCmd
        ensures Some(Ticks(l, targetValue, j).cur) == LeadsTo(l, targetValue)
      {
        IdleStays(l, targetValue, n, Max(n, j));
        IdleStays(l, targetValue, j, Max(n, j));
      }
    }
  }

  /** The level a command asks for. */
  function Wanted(cmd: CtrlCmd, targetValue: int, fullValue: int, arg: int): int {
    match cmd
    case FadeIn => targetValue
    case FadeTo => Min(arg, fullValue)
    case _ => 0
  }

  /**
   A command to any line in order brings it to the level it asks for exactly if it is accepted and not a FADETO
   beyond full from full, or if it is rejected over a line that is at that level or led to it by its running fade.
   */
  lemma {:induction false} CommandReachesIff(l: MixLine, cmd: CtrlCmd, timeMs: int, arg: int, targetValue: int, fullValue: int)
    requires LineInv(l, targetValue) && 0 <= arg && 0 < fullValue
    requires cmd.Black? || cmd.FadeOut? || cmd.FadeIn? || cmd.FadeTo?
    ensures Settles(InitFade(l, cmd, timeMs, arg, targetValue, fullValue).0, targetValue, Wanted(cmd, targetValue, fullValue, arg))
      <==> if Accepts(cmd, l.cur, targetValue, arg) then !(cmd.FadeTo? && l.cur == fullValue < arg)
           else LeadsTo(l, targetValue) == Some(Wanted(cmd, targetValue, fullValue, arg))
  {
    AcceptedIff(l, cmd, timeMs, arg, targetValue, fullValue);
    var from := InitFade(l, cmd, timeMs, arg, targetValue, fullValue).0;
    InitKeepsInv(l, cmd, timeMs, arg, targetValue, fullValue);
    SettlesIff(from, targetValue, Wanted(cmd, targetValue, fullValue, arg));
    if GoalOf(l.cur, cmd, targetValue, fullValue, arg).Some? {
      ZeroStepIff(l, cmd, timeMs, arg, targetValue, fullValue);
      WholeLevel(GoalOf(l.cur, cmd, targetValue, fullValue, arg).value);
    }
  }

  /** A FADETO to the level at which a FADEOUT or BLACK just stands is rejected, and the line goes out. */
  lemma {:induction false} FadeToOverFadeOutGoesOut(l: MixLine, timeMs: int, targetValue: int, fullValue: int)
    requires LineInv(l, targetValue) && (l.cmd.FadeOut? || l.cmd.Black?) && 0 < l.cur <= fullValue
    ensures var (r, ok) := InitFade(l, FadeTo, timeMs, l.cur, targetValue, fullValue);
            !ok && Settles(r, targetValue, 0) && !Settles(r, targetValue, l.cur)
  {
    var r := InitFade(l, FadeTo, timeMs, l.cur, targetValue, fullValue).0;
    RejectedKeepsInv(l, targetValue);
    SettlesIff(r, targetValue, 0);
    SettlesIff(r, targetValue, l.cur);
  }

  /** So is a FADEIN while a falling fade still stands at the target or above it. */
  lemma {:induction false} FadeInOverFadeOutGoesOut(l: MixLine, timeMs: int, arg: int, targetValue: int, fullValue: int)
    requires LineInv(l, targetValue) && (l.cmd.FadeOut? || l.cmd.Black?) && 0 < targetValue <= l.cur
    ensures var (r, ok) := InitFade(l, FadeIn, timeMs, arg, targetValue, fullValue);
            !ok && Settles(r, targetValue, 0) && !Settles(r, targetValue, targetValue)
  {
    var r := InitFade(l, FadeIn, timeMs, arg, targetValue, fullValue).0;
    RejectedKeepsInv(l, targetValue);
    SettlesIff(r, targetValue, 0);
    SettlesIff(r, targetValue, targetValue);
  }

  // ----- The flag for a changed level

  lemma {:induction false} TickMarks(l: MixLine, targetValue: int)
    ensures var next := Tick(l, targetValue).0;
            && (l.changed ==> next.changed)
            && (l.cmd == NoCmd ==> next == l)
            && (l.cmd != NoCmd ==> (next.changed <==> l.changed || Trunc(l.value + l.step) != l.cur))
  {
  }

  /** At every tick of an accepted fade the flag tells whether the level has left its start. */
  lemma {:induction false} ChangeIsMarked(l: MixLine, cmd: CtrlCmd, timeMs: int, arg: int, targetValue: int, fullValue: int, j: nat)
    requires Accepts(cmd, l.cur, targetValue, arg)
    ensures var at := Ticks(InitFade(l, cmd, timeMs, arg, targetValue, fullValue).0, targetValue, j);
            at.changed <==> l.changed || at.cur != l.cur
    decreases j
  {
    AcceptedIff(l, cmd, timeMs, arg, targetValue, fullValue);
    var from := InitFade(l, cmd, timeMs, arg, targetValue, fullValue).0;
    hide InitFade, GoalOf, StepSize, Tick, FinalLevel, GoalReached, Along, Trunc, FadeLength;
    if j > 0 {
      ChangeIsMarked(l, cmd, timeMs, arg, targetValue, fullValue, j - 1);
      FadeIsMonotone(l, cmd, timeMs, arg, targetValue, fullValue, j - 1, j);
      var before := Ticks(from, targetValue, j - 1);
      TickMarks(before, targetValue);
      if cmd.Black? && l.cur < 0 {
        CommandLasts(l, cmd, timeMs, arg, targetValue, fullValue, j - 1);
        CommandLasts(l, cmd, timeMs, arg, targetValue, fullValue, j);
        RisesALevel(l, timeMs, arg, targetValue, fullValue);
      } else {
        LevelFollowsValue(l, cmd, timeMs, arg, targetValue, fullValue, j);
      }
    }
  }

  /** The first step of a BLACK from below 0 changes the level. */
  lemma {:induction false} RisesALevel(l: MixLine, timeMs: int, arg: int, targetValue: int, fullValue: int)
    requires l.cur < 0
    ensures var from := InitFade(l, Black, timeMs, arg, targetValue, fullValue).0; Trunc(from.value + from.step) != l.cur
  {
    var step := StepSize(l.cur as real, 0.0, timeMs);
    StepsToGoal(l.cur as real, 0.0, timeMs, 1, StepCount(timeMs));
    AlongNext(l.cur as real, step, 1);
    assert l.cur as real < l.cur as real + step <= 0.0;
  }

  /** The level after a tick that runs is the fade value, cut to an integer, also with the last tick. */
  lemma {:induction false} LevelFollowsValue(l: MixLine, cmd: CtrlCmd, timeMs: int, arg: int, targetValue: int, fullValue: int,
                                             j: nat)
    requires Accepts(cmd, l.cur, targetValue, arg) && !(cmd.Black? && l.cur < 0) && 1 <= j
    ensures var from := InitFade(l, cmd, timeMs, arg, targetValue, fullValue).0;
            var before := Ticks(from, targetValue, j - 1);
            before.cmd != NoCmd ==> Ticks(from, targetValue, j).cur == Trunc(before.value + before.step)
  {
    AcceptedIff(l, cmd, timeMs, arg, targetValue, fullValue);
    Accepted(l, cmd, timeMs, arg, targetValue, fullValue);
    var from := InitFade(l, cmd, timeMs, arg, targetValue, fullValue).0;
    if Stuck(l.cur, cmd, fullValue, arg) {
      StuckForEver(l, timeMs, arg, targetValue, fullValue, j - 1);
      StuckForEver(l, timeMs, arg, targetValue, fullValue, j);
      WholeLevel(l.cur);
    } else {
      hide InitFade, GoalOf, StepSize, Tick, FinalLevel, GoalReached, Along, Trunc;
      FadeCourse(l, cmd, timeMs, arg, targetValue, fullValue, j - 1);
      LevelAt(l, cmd, timeMs, arg, targetValue, fullValue, j);
      if Ticks(from, targetValue, j - 1).cmd != NoCmd {
        AlongNext(from.value, from.step, j);
        AlongNext(from.value, from.step, 1);
      }
    }
  }

  // ----- Rejected commands hold a fade up

  /** n times: a tick, then the command again. */
  function TicksUnder(l: MixLine, cmd: CtrlCmd, timeMs: int, arg: int, targetValue: int, fullValue: int, n: nat): MixLine {
    if n == 0 then l
    else
      InitFade(Tick(TicksUnder(l, cmd, timeMs, arg, targetValue, fullValue, n - 1), targetValue).0, cmd, timeMs, arg,
               targetValue, fullValue).0
  }

  /** A fade that rises from 0 by less than a level per tick is held at 0 for as long as a rejected FADEOUT comes every tick. */
  lemma {:induction false} RejectedHoldsAtZero(l: MixLine, timeMs: int, arg: int, targetValue: int, fullValue: int, n: nat)
    requires LineInv(l, targetValue) && Rising(l) && l.cur == 0 && l.value == 0.0 && l.step < 1.0 <= l.goal
    ensures TicksUnder(l, FadeOut, timeMs, arg, targetValue, fullValue, n).(start := l.start) == l
    decreases n
  {
    if n > 0 {
      RejectedHoldsAtZero(l, timeMs, arg, targetValue, fullValue, n - 1);
    }
  }
}
