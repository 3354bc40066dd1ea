/** The script executer and the script list as objects, proved against ScriptMachine and ScriptPlayback. */
module ScriptExecuters {
  import opened Common
  import opened ScriptMachine
  import opened ScriptPlayback

  class ScriptExecuter {
    const script: seq<Line>
    var loopCount: seq<int>
    var currentLineNum: int
    var eventTargetTimeMs: int
    var state: ExecState
    ghost var played: seq<Line>  // the visible lines executed so far

    predicate Valid()
      reads this
    {
      |loopCount| == |script|
    }

    function Position(): (m: Machine)
      reads this
    {
      Machine(currentLineNum, loopCount)
    }

    constructor (script: seq<Line>)
      ensures Valid() && this.script == script
      ensures Position() == Start(script) && eventTargetTimeMs == 0 && state == Idle && played == []
    {
      this.script := script;
      loopCount := seq(|script|, _ => 0);
      currentLineNum := 0;
      eventTargetTimeMs := 0;
      state := Idle;
      played := [];
    }

    /** Sets the line before the target; the caller then moves on by one. */
    method ExecuteLoopExt(paras: seq<int>) returns (ok: bool)
      requires Valid() && 0 <= currentLineNum < |script|
      modifies this`loopCount, this`currentLineNum
      ensures Valid()
      ensures Machine(currentLineNum + 1, loopCount) == ExecLoop(script, old(Position()), paras)
      ensures ok <==> JumpOf(|script|, paras) != Invalid
    {
      var line := currentLineNum;
      loopCount := loopCount[line := loopCount[line] + 1];
      if |paras| == 0 {
        currentLineNum := -1;
        return true;
      }
      var linenum := paras[0];
      if linenum == 0 || linenum > |script| {
        return false;
      }
      if |paras| == 1 {
        currentLineNum := linenum - 2;
        return true;
      }
      var targetcount := paras[1];
      if targetcount == 0 {
        return false;
      }
      if loopCount[line] >= targetcount {
        loopCount := loopCount[line := 0];
      } else {
        currentLineNum := linenum - 2;
      }
      return true;
    }

    /** Executes the current line, which is not blank, unless its time has not come. */
    method ExecuteLine(now: int) returns (proceed: bool, reExecDelayed: bool)
      requires Valid() && state == Running && 0 <= currentLineNum < |script| && script[currentLineNum].Line?
      modifies this
      ensures Valid()
      ensures var line := script[old(currentLineNum)];
        && reExecDelayed == TooEarly(line, now)
        && (if reExecDelayed then Position() == old(Position())
            else Machine(currentLineNum + 1, loopCount) == Dispatch(script, old(Position())))
        && played == old(played) + (if reExecDelayed then [] else Emit(line))
        && proceed == (!reExecDelayed && !line.cmd.Wait? && !line.cmd.Pause?)
        && state == (if !reExecDelayed && line.cmd.Pause? then Paused else Running)
        && eventTargetTimeMs == (if reExecDelayed then line.execTimeMs
                                 else if line.cmd.Wait? then now + line.cmd.delayMs
                                 else old(eventTargetTimeMs))
    {
      var line := script[currentLineNum];
      proceed, reExecDelayed := true, false;
      if line.execTimeMs >= 0 && line.execTimeMs > now {
        eventTargetTimeMs := line.execTimeMs;
        return false, true;
      }
      played := played + Emit(line);
      match line.cmd
      case Wait(delayMs) =>
        eventTargetTimeMs := now + delayMs;
        proceed := false;
      case Pause =>
        state := Paused;
        proceed := false;
      case Loop(paras) =>
        var ok := ExecuteLoopExt(paras);
      case Effect(_) =>
    }

    /**
     One call at run time `now`. It must come back at all, which ScriptPlayback
     proves for scripts of counted loops (CallReturns); ScriptBusyLoops says
     which other calls do.
     */
    method ProcessExecuter(now: int) returns (active: bool)
      requires Valid()
      requires state == Running ==> Returns(script, Position(), now)
      modifies this
      ensures Valid()
      ensures old(state) != Running ==>
        !active && Position() == old(Position()) && played == old(played)
        && state == old(state) && eventTargetTimeMs == old(eventTargetTimeMs)
      ensures old(state) == Running ==>
        var r := ResultOf(script, old(Position()), now);
        && Position() == r.m
        && played == old(played) + r.trace
        && active == (r.exit != Done)
        && state == (if r.exit == Pausing then Paused else Running)
        && (r.exit.Waiting? ==> eventTargetTimeMs == r.exit.targetMs)
        && (!r.exit.Waiting? ==> eventTargetTimeMs == old(eventTargetTimeMs))
    {
      hide ResultOf, Returns, ExecLoop;
      if state == Idle {
        return false;
      }
      ghost var running := state == Running;
      ghost var whole := if running then ResultOf(script, Position(), now) else Result(Position(), [], 0, Done);
      var proceed := true;
      active := true;
      while proceed
        invariant Valid()
        invariant proceed ==> active && eventTargetTimeMs == old(eventTargetTimeMs)
        invariant !running ==> state == old(state) && Position() == old(Position()) && played == old(played)
        invariant running && proceed ==>
          && state == Running && Returns(script, Position(), now)
          && var rest := ResultOf(script, Position(), now);
             whole.m == rest.m && whole.exit == rest.exit && old(played) + whole.trace == played + rest.trace
        invariant running && !proceed ==>
          && whole.m == Position() && played == old(played) + whole.trace
          && active == (whole.exit != Done)
          && state == (if whole.exit == Pausing then Paused else Running)
          && eventTargetTimeMs == NextTarget(whole.exit, old(eventTargetTimeMs))
        invariant !running && !proceed ==> !active && eventTargetTimeMs == old(eventTargetTimeMs)
        decreases proceed, if running && proceed then ResultOf(script, Position(), now).steps else 0
      {
        if 0 <= currentLineNum < |script| && state == Running {
          var line := script[currentLineNum];
          ghost var before := Position();
          UnfoldResult(script, before, now);
          var reExecDelayed := false;
          if line.Line? {
            proceed, reExecDelayed := ExecuteLine(now);
          }
          if !reExecDelayed {
            currentLineNum := currentLineNum + 1;
          }
        } else {
          if running {
            ResultIs(script, Position(), now, 0);
          }
          proceed, active := false, false;
        }
      }
    }
  }

  /** What a call does with its first line. */
  lemma {:induction false} UnfoldResult(script: seq<Line>, m: Machine, now: int)
    requires WellFormed(script, m) && !Finished(script, m) && Returns(script, m, now)
    ensures var line, r := script[m.pc], ResultOf(script, m, now);
            if TooEarly(line, now) then r == Result(m, [], 0, Waiting(line.execTimeMs))
            else if line.Line? && line.cmd.Wait? then
              r == Result(Dispatch(script, m), Emit(line), 1, Waiting(now + line.cmd.delayMs))
            else if line.Line? && line.cmd.Pause? then r == Result(Dispatch(script, m), Emit(line), 1, Pausing)
            else
              && Returns(script, Dispatch(script, m), now)
              && var rest := ResultOf(script, Dispatch(script, m), now);
                 r == Result(rest.m, Emit(line) + rest.trace, rest.steps + 1, rest.exit)
  {
    var line := script[m.pc];
    if TooEarly(line, now) || (line.Line? && (line.cmd.Wait? || line.cmd.Pause?)) {
      ResultIs(script, m, now, 0);
    } else {
      ReturnsStep(script, m, now);
    }
  }
}
