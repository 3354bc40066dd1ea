/**
 Script playback in calls. One call of the script executer runs lines until it
 must wait, pause or has finished; the exec loop calls it again later. When the
 calls come decides how the run is cut, never which lines are played.
 */
module ScriptPlayback {
  import opened Common
  import opened ScriptMachine
  import opened ScriptTermination
  import opened ScriptUnroll

  // Why a call returned. Waiting carries the new event target time.
  datatype Exit = Waiting(targetMs: int) | Pausing | Done

  datatype Result = Result(m: Machine, trace: seq<Line>, steps: nat, exit: Exit)

  /** A line with an absolute time is not run before that time. */
  predicate TooEarly(line: Line, now: int) {
    line.Line? && 0 <= line.execTimeMs && now < line.execTimeMs
  }

  /** One call at run time `now`; None if it is still busy after `fuel` lines. */
  function Call(script: seq<Line>, m: Machine, now: int, fuel: nat): (r: Option<Result>)
    requires WellFormed(script, m)
    ensures r.Some? ==> WellFormed(script, r.value.m)
    decreases fuel
  {
    if Finished(script, m) then Some(Result(m, [], 0, Done))
    else
      var line := script[m.pc];
      if TooEarly(line, now) then Some(Result(m, [], 0, Waiting(line.execTimeMs)))
      else
        var next := Dispatch(script, m);
        if line.Line? && line.cmd.Wait? then Some(Result(next, Emit(line), 1, Waiting(now + line.cmd.delayMs)))
        else if line.Line? && line.cmd.Pause? then Some(Result(next, Emit(line), 1, Pausing))
        else if fuel == 0 then None
        else
          match Call(script, next, now, fuel - 1)
          case None => None
          case Some(r) => Some(Result(r.m, Emit(line) + r.trace, r.steps + 1, r.exit))
  }

  /** The call comes back. */
  ghost predicate Returns(script: seq<Line>, m: Machine, now: int)
    requires WellFormed(script, m)
  {
    exists fuel: nat :: Call(script, m, now, fuel).Some?
  }

  ghost function ResultOf(script: seq<Line>, m: Machine, now: int): (r: Result)
    requires WellFormed(script, m) && Returns(script, m, now)
    ensures WellFormed(script, r.m)
  {
    var fuel: nat :| Call(script, m, now, fuel).Some?;
    Call(script, m, now, fuel).value
  }

  lemma {:induction false} MoreFuel(script: seq<Line>, m: Machine, now: int, fuel: nat, more: nat)
    requires WellFormed(script, m) && fuel <= more && Call(script, m, now, fuel).Some?
    ensures Call(script, m, now, more) == Call(script, m, now, fuel)
    decreases fuel
  {
    if fuel > 0 && !Finished(script, m) && Call(script, Dispatch(script, m), now, fuel - 1).Some? {
      MoreFuel(script, Dispatch(script, m), now, fuel - 1, more - 1);
    }
  }

  lemma {:induction false} ResultIs(script: seq<Line>, m: Machine, now: int, fuel: nat)
    requires WellFormed(script, m) && Call(script, m, now, fuel).Some?
    ensures Returns(script, m, now) && ResultOf(script, m, now) == Call(script, m, now, fuel).value
  {
    var f: nat :| Call(script, m, now, f).Some? && ResultOf(script, m, now) == Call(script, m, now, f).value;
    MoreFuel(script, m, now, f, Max(f, fuel));
    MoreFuel(script, m, now, fuel, Max(f, fuel));
  }

  /** A call that runs on after its first line returns exactly if the rest of it does. */
  lemma {:induction false} ReturnsStep(script: seq<Line>, m: Machine, now: int)
    requires WellFormed(script, m) && !Finished(script, m) && !TooEarly(script[m.pc], now)
    requires script[m.pc].Line? ==> !script[m.pc].cmd.Wait? && !script[m.pc].cmd.Pause?
    requires Returns(script, m, now)
    ensures Returns(script, Dispatch(script, m), now)
    ensures var rest := ResultOf(script, Dispatch(script, m), now);
            ResultOf(script, m, now) == Result(rest.m, Emit(script[m.pc]) + rest.trace, rest.steps + 1, rest.exit)
  {
    var fuel: nat :| Call(script, m, now, fuel).Some?;
    ResultIs(script, m, now, fuel);
    ResultIs(script, Dispatch(script, m), now, fuel - 1);
  }

  /** Counted loops cannot keep a call busy for ever. */
  lemma {:induction false} CountedReturns(script: seq<Line>, m: Machine, now: int, fuel: nat)
    requires AllCounted(script) && CountersInRange(script, m) && Remaining(script, m, |script|) <= fuel
    ensures Call(script, m, now, fuel).Some? && CountersInRange(script, Call(script, m, now, fuel).value.m)
    decreases fuel
  {
    if !Finished(script, m) {
      RemainingBounds(script, m, |script|);
      DispatchKeepsRange(script, m);
      DispatchDecreases(script, m, |script|);
      if fuel > 0 {
        RemainingBounds(script, Dispatch(script, m), |script|);
        CountedReturns(script, Dispatch(script, m), now, fuel - 1);
      }
    }
  }

  /** A call executes the next lines of the run, in order, and says Done only at its end. */
  lemma {:induction false} CallFollowsRun(script: seq<Line>, m: Machine, now: int, fuel: nat)
    requires WellFormed(script, m) && Call(script, m, now, fuel).Some?
    ensures var r := Call(script, m, now, fuel).value;
            && r.m == Run(script, m, r.steps)
            && r.trace == Trace(script, m, r.steps)
            && (r.exit == Done ==> Finished(script, r.m))
    decreases fuel
  {
    hide Run, Trace, Emit;
    RunsNowhere(script, m);
    if !Finished(script, m) && !TooEarly(script[m.pc], now) {
      var next := Dispatch(script, m);
      LineRuns(script, m);
      if fuel > 0 && Call(script, next, now, fuel - 1).Some? {
        CallFollowsRun(script, next, now, fuel - 1);
        var r := Call(script, next, now, fuel - 1).value;
        RunsOn(script, m, 1, next, Emit(script[m.pc]), r.steps, r.m, r.trace);
      }
    }
  }

  lemma {:induction false} CallReturns(script: seq<Line>, m: Machine, now: int)
    requires AllCounted(script) && CountersInRange(script, m)
    ensures Returns(script, m, now)
    ensures CountersInRange(script, ResultOf(script, m, now).m)
  {
    RemainingBounds(script, m, |script|);
    CountedReturns(script, m, now, Budget(script, |script|));
    ResultIs(script, m, now, Budget(script, |script|));
  }

  /** A call executes no line before its absolute time, not even one that only steers. */
  lemma {:induction false} NeverTooEarly(script: seq<Line>, m: Machine, now: int, fuel: nat)
    requires WellFormed(script, m) && Call(script, m, now, fuel).Some?
    ensures forall k :: 0 <= k < Call(script, m, now, fuel).value.steps ==>
              var at := Run(script, m, k);
              !Finished(script, at) && (script[at.pc].Line? && 0 <= script[at.pc].execTimeMs ==> script[at.pc].execTimeMs <= now)
    decreases fuel
  {
    if !Finished(script, m) && !TooEarly(script[m.pc], now) {
      var next, r := Dispatch(script, m), Call(script, m, now, fuel).value;
      if fuel > 0 && Call(script, next, now, fuel - 1).Some? {
        NeverTooEarly(script, next, now, fuel - 1);
      }
      forall k | 0 <= k < r.steps
        ensures var at := Run(script, m, k);
          !Finished(script, at) && (script[at.pc].Line? && 0 <= script[at.pc].execTimeMs ==> script[at.pc].execTimeMs <= now)
      {
        if k > 0 {
          assert Run(script, m, k) == Run(script, next, k - 1);
        }
      }
    }
  }

  /** The last line a call has executed. */
  function LastLine(script: seq<Line>, m: Machine, steps: nat): Option<Line>
    requires WellFormed(script, m)
  {
    if steps == 0 then None
    else
      var at := Run(script, m, steps - 1);
      if Finished(script, at) then None else Some(script[at.pc])
  }

  /**
   Where a call ends: with a WAIT, due when its time is over; with a PAUSE; before the absolute time of the next
   line, due then; or at the end. No line is executed after a WAIT or a PAUSE.
   */
  lemma {:induction false} CallEndsAt(script: seq<Line>, m: Machine, now: int, fuel: nat)
    requires WellFormed(script, m) && Call(script, m, now, fuel).Some?
    ensures var r := Call(script, m, now, fuel).value;
            var last := LastLine(script, m, r.steps);
            && (forall k :: 0 < k < r.steps ==>
                  var line := LastLine(script, m, k);
                  line.Some? && !(line.value.Line? && (line.value.cmd.Wait? || line.value.cmd.Pause?)))
            && match r.exit
               case Done => Finished(script, r.m) && !(last.Some? && last.value.Line? && (last.value.cmd.Wait? || last.value.cmd.Pause?))
               case Pausing => last.Some? && last.value.Line? && last.value.cmd.Pause?
               case Waiting(targetMs) =>
                 || (last.Some? && last.value.Line? && last.value.cmd.Wait? && targetMs == now + last.value.cmd.delayMs)
                 || (!Finished(script, r.m) && script[r.m.pc].Line? && now < targetMs == script[r.m.pc].execTimeMs
                     && !(last.Some? && last.value.Line? && (last.value.cmd.Wait? || last.value.cmd.Pause?)))
    decreases fuel
  {
    if !Finished(script, m) && !TooEarly(script[m.pc], now) {
      var next, r := Dispatch(script, m), Call(script, m, now, fuel).value;
      var line := script[m.pc];
      assert LastLine(script, m, 1) == Some(line) by { assert Run(script, m, 0) == m; }
      if !(line.Line? && (line.cmd.Wait? || line.cmd.Pause?)) {
        CallEndsAt(script, next, now, fuel - 1);
        forall k | 1 < k <= r.steps ensures LastLine(script, m, k) == LastLine(script, next, k - 1) {
          assert Run(script, m, k - 1) == Run(script, next, k - 2);
        }
      }
    }
  }

  // ----- A whole playback: calls at the times `nows`, until one says Done

  datatype Play = Play(m: Machine, trace: seq<Line>, done: bool)

  function NextTarget(exit: Exit, targetMs: int): int {
    if exit.Waiting? then exit.targetMs else targetMs
  }

  /** None if one of the calls never comes back. */
  ghost function Playback(script: seq<Line>, m: Machine, nows: seq<int>): (p: Option<Play>)
    requires WellFormed(script, m)
    ensures p.Some? ==> WellFormed(script, p.value.m)
    decreases |nows|
  {
    if nows == [] then Some(Play(m, [], false))
    else if !Returns(script, m, nows[0]) then None
    else
      var r := ResultOf(script, m, nows[0]);
      if r.exit == Done then Some(Play(r.m, r.trace, true))
      else
        match Playback(script, r.m, nows[1..])
        case None => None
        case Some(p) => Some(p.(trace := r.trace + p.trace))
  }

  lemma {:induction false} ResultFollowsRun(script: seq<Line>, m: Machine, now: int)
    requires WellFormed(script, m) && Returns(script, m, now)
    ensures var r := ResultOf(script, m, now);
            && r.m == Run(script, m, r.steps)
            && r.trace == Trace(script, m, r.steps)
            && (r.exit == Done ==> Finished(script, r.m))
  {
    var fuel: nat :| Call(script, m, now, fuel).Some?;
    ResultIs(script, m, now, fuel);
    CallFollowsRun(script, m, now, fuel);
  }

  /** However a run is cut into calls, as long as they come back it executes the lines of the uncut run. */
  lemma {:induction false} PlaybackFollowsRun(script: seq<Line>, m: Machine, nows: seq<int>) returns (n: nat)
    requires WellFormed(script, m) && Playback(script, m, nows).Some?
    ensures var p := Playback(script, m, nows).value;
            && p.m == Run(script, m, n)
            && p.trace == Trace(script, m, n)
            && (p.done ==> Finished(script, p.m))
    decreases |nows|
  {
    n := 0;
    if nows != [] {
      ResultFollowsRun(script, m, nows[0]);
      var r := ResultOf(script, m, nows[0]);
      n := r.steps;
      if r.exit != Done {
        var k := PlaybackFollowsRun(script, r.m, nows[1..]);
        RunSplit(script, m, r.steps, k);
        n := r.steps + k;
      }
    }
  }

  /** With counted loops every call of a playback comes back. */
  lemma {:induction false} CountedPlaybackReturns(script: seq<Line>, m: Machine, nows: seq<int>)
    requires AllCounted(script) && CountersInRange(script, m)
    ensures Playback(script, m, nows).Some?
    decreases |nows|
  {
    if nows != [] {
      CallReturns(script, m, nows[0]);
      CountedPlaybackReturns(script, ResultOf(script, m, nows[0]).m, nows[1..]);
    }
  }

  /** The playback of a fresh executer. */
  ghost function Played(script: seq<Line>, nows: seq<int>): (p: Option<Play>)
    ensures p.Some? ==> WellFormed(script, p.value.m)
  {
    Playback(script, Start(script), nows)
  }

  ghost predicate PlayedToEnd(script: seq<Line>, nows: seq<int>) {
    Played(script, nows).Some? && Played(script, nows).value.done
  }

  /** Two playbacks of the same script that were both finished played the same lines. */
  lemma {:induction false} CallTimesDoNotMatter(script: seq<Line>, nows: seq<int>, others: seq<int>)
    requires PlayedToEnd(script, nows) && PlayedToEnd(script, others)
    ensures Played(script, nows) == Played(script, others)
  {
    var m := Start(script);
    var i := PlaybackFollowsRun(script, m, nows);
    var j := PlaybackFollowsRun(script, m, others);
    FinishedStays(script, m, i, Max(i, j));
    FinishedStays(script, m, j, Max(i, j));
  }

  // ----- How many calls a playback takes

  /** The exec loop calls only when the target time is reached. */
  ghost predicate Gated(script: seq<Line>, m: Machine, targetMs: int, nows: seq<int>)
    requires WellFormed(script, m)
    decreases |nows|
  {
    nows == [] ||
    (targetMs <= nows[0] &&
     (Returns(script, m, nows[0]) ==>
        var r := ResultOf(script, m, nows[0]);
        r.exit == Done || Gated(script, r.m, NextTarget(r.exit, targetMs), nows[1..])))
  }

  /** Two calls for every line that is left, one more if the current line is not due at the target time. */
  ghost function OpenCalls(script: seq<Line>, m: Machine, targetMs: int): int
    requires WellFormed(script, m)
  {
    2 * Remaining(script, m, |script|) +
    if !Finished(script, m) && TooEarly(script[m.pc], targetMs) then 1 else 0
  }

  lemma {:induction false} CallUsesLines(script: seq<Line>, m: Machine, now: int, fuel: nat)
    requires AllCounted(script) && CountersInRange(script, m) && Call(script, m, now, fuel).Some?
    ensures var r := Call(script, m, now, fuel).value;
            Remaining(script, r.m, |script|) + r.steps <= Remaining(script, m, |script|)
    ensures var r := Call(script, m, now, fuel).value;
            r.exit == Done || r.steps > 0 ||
            (r.m == m && !Finished(script, m) && TooEarly(script[m.pc], now) && r.exit == Waiting(script[m.pc].execTimeMs))
    decreases fuel
  {
    if !Finished(script, m) && !TooEarly(script[m.pc], now) {
      DispatchKeepsRange(script, m);
      DispatchDecreases(script, m, |script|);
      if fuel > 0 && Call(script, Dispatch(script, m), now, fuel - 1).Some? {
        CallUsesLines(script, Dispatch(script, m), now, fuel - 1);
      }
    }
  }

  lemma {:induction false} GatedPlaybackEnds(script: seq<Line>, m: Machine, targetMs: int, nows: seq<int>)
    requires AllCounted(script) && CountersInRange(script, m)
    requires Gated(script, m, targetMs, nows) && OpenCalls(script, m, targetMs) < |nows|
    ensures Playback(script, m, nows).Some? && Playback(script, m, nows).value.done
    decreases |nows|
  {
    RemainingBounds(script, m, |script|);
    CallReturns(script, m, nows[0]);
    var r := ResultOf(script, m, nows[0]);
    var fuel: nat :| Call(script, m, nows[0], fuel).Some?;
    ResultIs(script, m, nows[0], fuel);
    CallUsesLines(script, m, nows[0], fuel);
    if r.exit != Done {
      GatedPlaybackEnds(script, r.m, NextTarget(r.exit, targetMs), nows[1..]);
    }
  }

  ghost predicate GatedFromStart(script: seq<Line>, nows: seq<int>) {
    Gated(script, Start(script), 0, nows)
  }

  /** A script of counted loops is finished, with its whole trace, after at most 2 * Budget + 2 gated calls. */
  lemma {:induction false} CountedPlaybackEnds(script: seq<Line>, nows: seq<int>)
    requires AllCounted(script) && GatedFromStart(script, nows) && 2 * Budget(script, |script|) + 2 <= |nows|
    ensures PlayedToEnd(script, nows)
    ensures Played(script, nows).value.trace == Trace(script, Start(script), Budget(script, |script|))
  {
    var m, b := Start(script), Budget(script, |script|);
    StartInRange(script);
    RemainingBounds(script, m, |script|);
    GatedPlaybackEnds(script, m, 0, nows);
    var n := PlaybackFollowsRun(script, m, nows);
    CountedScriptEnds(script);
    FinishedStays(script, m, n, Max(n, b));
    FinishedStays(script, m, b, Max(n, b));
  }

  lemma {:induction false} FlattenIsCounted(script: seq<Line>, m: Machine, b: Block, at: nat, i: nat)
    requires Proper(b) && Placed(script, m, b, at) && at <= i < at + |Flatten(b, at)|
    ensures !JumpAt(script, i).Always?
    decreases b
  {
    match b
    case End =>
    case Do(_, rest) =>
      DoParts(script, m, b, at);
      if i > at { FlattenIsCounted(script, m.(pc := at + 1), rest, at + 1, i); }
    case Repeat(body, _, _, rest) =>
      LoopParts(script, m, b, at);
      var loop := at + |Flatten(body, at)|;
      if i < loop {
        FlattenIsCounted(script, m, body, at, i);
      } else if i > loop {
        FlattenIsCounted(script, m, rest, loop + 1, i);
      }
  }

  /** Whenever its calls come, a finished playback of nested counted loops has played what the unrolled script plays. */
  lemma {:induction false} NestedPlaybackUnrolls(b: Block, nows: seq<int>, others: seq<int>)
    requires Proper(b)
    ensures Proper(Unroll(b)) && Straight(Unroll(b))
    ensures AllCounted(Flatten(b, 0)) && AllCounted(Flatten(Unroll(b), 0))
    ensures Played(Flatten(b, 0), nows).Some? && Played(Flatten(Unroll(b), 0), others).Some?
    ensures PlayedToEnd(Flatten(b, 0), nows) && PlayedToEnd(Flatten(Unroll(b), 0), others) ==>
              Played(Flatten(b, 0), nows).value.trace == Played(Flatten(Unroll(b), 0), others).value.trace == Shown(b)
  {
    UnrollShows(b);
    FlattenedPlayback(b, nows);
    FlattenedPlayback(Unroll(b), others);
  }

  lemma {:induction false} FlattenedPlayback(b: Block, nows: seq<int>)
    requires Proper(b)
    ensures AllCounted(Flatten(b, 0)) && Played(Flatten(b, 0), nows).Some?
    ensures PlayedToEnd(Flatten(b, 0), nows) ==> Played(Flatten(b, 0), nows).value.trace == Shown(b)
  {
    var script, m := Flatten(b, 0), Start(Flatten(b, 0));
    forall i {:trigger JumpAt(script, i)} | 0 <= i < |script| ensures !JumpAt(script, i).Always? {
      FlattenIsCounted(script, m, b, 0, i);
    }
    StartInRange(script);
    CountedPlaybackReturns(script, m, nows);
    var j := PlaybackFollowsRun(script, m, nows);
    if Played(script, nows).value.done {
      EndOfNested(b, j);
    }
  }
}
