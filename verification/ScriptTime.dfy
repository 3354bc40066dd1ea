/** How long the playback of a script lasts, and when that is the duration the list shows. */
module ScriptTimes {
  import opened Common
  import opened ScriptMachine
  import opened ScriptTermination
  import opened ScriptPlayback
  import opened ScriptLists

  predicate PlainScript(script: seq<Line>) {
    forall i :: 0 <= i < |script| ==> !IsLoop(script[i]) && (script[i].Line? ==> !script[i].cmd.Pause?)
  }

  lemma {:induction false} PlainIsCounted(script: seq<Line>)
    requires PlainScript(script)
    ensures AllCounted(script)
  {
    forall i {:trigger JumpAt(script, i)} | 0 <= i < |script| ensures !JumpAt(script, i).Always? {
      assert !IsLoop(script[i]);
    }
  }

  // ----- Calls at the target times

  /** The time of the call that ends the script, if every call comes exactly at its target time; None if n calls are too few. */
  ghost function LastCall(script: seq<Line>, m: Machine, now: int, n: nat): Option<int>
    requires WellFormed(script, m)
    decreases n
  {
    if n == 0 || !Returns(script, m, now) then None
    else
      var r := ResultOf(script, m, now);
      if r.exit == Done then Some(now) else LastCall(script, r.m, Max(now, NextTarget(r.exit, now)), n - 1)
  }

  /** The time at which a line is over that is reached at `now`. */
  function LineEnd(line: Line, now: int): (t: int)
    ensures now <= t
  {
    (if TooEarly(line, now) then line.execTimeMs else now) + Max(0, LineDuration(line))
  }

  /** The time after all lines. */
  function TimeAfter(lines: seq<Line>, from: int): (t: int)
    ensures from <= t
  {
    if lines == [] then from else LineEnd(lines[|lines| - 1], TimeAfter(lines[..|lines| - 1], from))
  }

  lemma {:induction false} TimeNext(script: seq<Line>, i: nat, from: int)
    requires i < |script|
    ensures TimeAfter(script[..i + 1], from) == LineEnd(script[i], TimeAfter(script[..i], from))
  {
    assert script[..i + 1][..i] == script[..i];
  }

  /** A line that does not wait leaves the rest to the same call. */
  lemma {:induction false} SameCall(script: seq<Line>, m: Machine, now: int, n: nat)
    requires WellFormed(script, m) && !Finished(script, m) && !TooEarly(script[m.pc], now)
    requires script[m.pc].Line? ==> !script[m.pc].cmd.Wait? && !script[m.pc].cmd.Pause?
    requires Returns(script, m, now)
    ensures LastCall(script, m, now, n) == LastCall(script, Dispatch(script, m), now, n)
  {
    ReturnsStep(script, m, now);
  }

  lemma {:induction false} CallAtWait(script: seq<Line>, m: Machine, now: int, n: nat)
    requires WellFormed(script, m) && !Finished(script, m) && n > 0
    requires TooEarly(script[m.pc], now) || (script[m.pc].Line? && script[m.pc].cmd.Wait?)
    ensures LastCall(script, m, now, n) ==
      if TooEarly(script[m.pc], now) then LastCall(script, m, script[m.pc].execTimeMs, n - 1)
      else LastCall(script, Dispatch(script, m), now + Max(0, LineDuration(script[m.pc])), n - 1)
  {
    ResultIs(script, m, now, 0);
  }

  /** From any line on, reached at this time: a call comes then, or at the absolute time of the line. */
  lemma {:induction false} CallsFrom(script: seq<Line>, m: Machine, from: int, now: int, n: nat)
    requires PlainScript(script) && CountersInRange(script, m) && 0 <= m.pc <= |script|
    requires var at := TimeAfter(script[..m.pc], from);
      now == at || (m.pc < |script| && TooEarly(script[m.pc], at) && now == script[m.pc].execTimeMs)
    requires 2 * (|script| - m.pc) + (if m.pc < |script| && !TooEarly(script[m.pc], now) then 0 else 1) <= n
    ensures LastCall(script, m, now, n) == Some(TimeAfter(script, from))
    decreases n, |script| - m.pc
  {
    hide LastCall, TimeAfter;
    if m.pc == |script| {
      assert script[..m.pc] == script;
      LastIsDone(script, m, now, n);
    } else {
      var line := script[m.pc];
      TimeNext(script, m.pc, from);
      if TooEarly(line, now) {
        CallAtWait(script, m, now, n);
        CallsFrom(script, m, from, line.execTimeMs, n - 1);
      } else {
        var next := Dispatch(script, m);
        assert next.pc == m.pc + 1;
        DispatchKeepsRange(script, m);
        if line.Line? && line.cmd.Wait? {
          CallAtWait(script, m, now, n);
          CallsFrom(script, next, from, LineEnd(line, now), n - 1);
        } else {
          PlainIsCounted(script);
          CallReturns(script, m, now);
          SameCall(script, m, now, n);
          CallsFrom(script, next, from, now, n);
        }
      }
    }
  }

  lemma {:induction false} LastIsDone(script: seq<Line>, m: Machine, now: int, n: nat)
    requires WellFormed(script, m) && Finished(script, m) && n > 0
    ensures LastCall(script, m, now, n) == Some(now)
  {
    ResultIs(script, m, now, 0);
  }

  /** A script without LOOP and PAUSE, called exactly at its target times, ends at the time after all its lines. */
  lemma {:induction false} PlaybackLasts(script: seq<Line>, n: nat)
    requires PlainScript(script) && 2 * |script| + 1 <= n
    ensures LastCall(script, Start(script), 0, n) == Some(TimeAfter(script, 0))
  {
    StartInRange(script);
    CallsFrom(script, Start(script), 0, 0, n);
  }

  // ----- The duration shown

  /** What negative waits take off the duration shown; in playback they do not wait at all. */
  function Lost(lines: seq<Line>): (ms: int)
    ensures 0 <= ms
    ensures ms == 0 <==> forall i :: 0 <= i < |lines| ==> 0 <= LineDuration(lines[i])
  {
    if lines == [] then 0 else Max(0, -LineDuration(lines[0])) + Lost(lines[1..])
  }

  lemma {:induction false} TimeOfTail(head: seq<Line>, lines: seq<Line>)
    requires forall i :: 0 <= i < |lines| ==> lines[i].execTimeMs <= 0
    ensures TimeAfter(head + lines, 0) == TimeAfter(head, 0) + WaitSum(lines) + Lost(lines)
    decreases |lines|
  {
    if lines == [] {
      assert head + lines == head;
    } else {
      assert (head + [lines[0]])[..|head|] == head;
      assert head + [lines[0]] + lines[1..] == head + lines;
      TimeOfTail(head + [lines[0]], lines[1..]);
    }
  }

  /** Without absolute times the playback lasts as shown exactly if no wait is negative. */
  lemma {:induction false} WaitsAreShownIff(lines: seq<Line>)
    requires forall i :: 0 <= i < |lines| ==> lines[i].execTimeMs <= 0
    ensures TimeAfter(lines, 0) == Duration(lines) <==> forall i :: 0 <= i < |lines| ==> 0 <= LineDuration(lines[i])
  {
    assert [] + lines == lines;
    TimeOfTail([], lines);
    DurationAfter([], lines);
  }

  /** The last line with a positive absolute time. */
  predicate LastAbsolute(script: seq<Line>, j: nat) {
    && j < |script| && 0 < script[j].execTimeMs
    && forall i :: j < i < |script| ==> script[i].execTimeMs <= 0
  }

  /**
   Else it lasts as shown exactly if the last line with an absolute time is reached in time, does not wait itself,
   and no later wait is negative; a blank line is not put off to its time, so there the lines before it must take it.
   */
  lemma {:induction false} DurationIsShownIff(script: seq<Line>, j: nat)
    requires LastAbsolute(script, j)
    ensures TimeAfter(script, 0) == Duration(script) <==>
      var at, lost := TimeAfter(script[..j], 0), Lost(script[j + 1..]);
      if script[j].Blank? then at + lost == script[j].execTimeMs
      else at <= script[j].execTimeMs && LineDuration(script[j]) <= 0 && lost == 0
  {
    var head, tail := script[..j + 1], script[j + 1..];
    assert head + tail == script && head[..j] == script[..j];
    TimeOfTail(head, tail);
    DurationAfter(head, tail);
    TimeNext(script, j, 0);
  }

  /** If only lines with a command carry absolute times, the playback is never shorter than shown. */
  lemma {:induction false} NeverShorterThanShown(lines: seq<Line>)
    requires forall i :: 0 <= i < |lines| && lines[i].Blank? ==> lines[i].execTimeMs <= 0
    ensures Duration(lines) <= TimeAfter(lines, 0)
  {
    if lines != [] {
      NeverShorterThanShown(lines[..|lines| - 1]);
    }
  }
}
