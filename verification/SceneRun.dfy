/** What whole fades of a scene do to its light, its status flags and its place among the active scenes. */
module SceneRun {
  import opened Common
  import opened DmxFade
  import opened PairedFade
  import opened SceneFade

  // ----- One pass

  /** What a pass does to the tubes and to each flag. */
  lemma {:induction false} StepFacts(s: Scene)
    requires WellFormed(s)
    ensures |Step(s).tubes| == |s.tubes|
    ensures forall i :: 0 <= i < |s.tubes| ==> Step(s).tubes[i] == TickTube(s.tubes, i)
    ensures ActiveIntern in Step(s).status <==> SomeRuns(s.tubes, 0)
    ensures ActiveExtern in Step(s).status <==> SomeRuns(s.tubes, 1)
    ensures StageLive in Step(s).status <==> StageLive in s.status
    ensures StageExtern in Step(s).status <==> StageExtern in s.status
    ensures StageIntern in Step(s).status <==>
              StageIntern in s.status && (SomeRuns(s.tubes, 0) || ActiveIntern !in s.last || OnStage(Step(s).tubes))
  {
    hide TickLine, SomeRuns, OnStage;
  }

  lemma {:induction false} TickRunsIff(l: MixLine, targetValue: int)
    ensures Tick(l, targetValue).1 ==> Tick(l, targetValue).0.cmd != NoCmd
    ensures l.cmd != OtherCmd ==>
              (Tick(l, targetValue).1 <==> Tick(l, targetValue).0.cmd != NoCmd) && Tick(l, targetValue).0.cmd != OtherCmd
  {
  }

  /** The line that a sub takes its level from is idle. */
  predicate LedByIdle(tubes: seq<Tube>, i: nat, mix: nat)
    requires PairsRight(tubes) && i < |tubes| && mix < 2
  {
    if tubes[i].role != Sub then tubes[i].lines[mix].cmd == NoCmd
    else i > 0 && tubes[i - 1].role == Main ==> tubes[i - 1].lines[mix].cmd == NoCmd
  }

  /** The same for a tube in any role; it stays as it is when its leading line is idle. */
  lemma {:induction false} LineRunsIff(tubes: seq<Tube>, i: nat, mix: nat)
    requires PairsRight(tubes) && i < |tubes| && mix < 2
    ensures var (l, runs), before := TickLine(tubes, i, mix), tubes[i].lines[mix];
            && (runs ==> l.cmd != NoCmd && tubes[i].role != Sub)
            && (tubes[i].role != Sub && before.cmd != OtherCmd ==> (runs <==> l.cmd != NoCmd) && l.cmd != OtherCmd)
            && (tubes[i].role == Sub ==> l.cmd == before.cmd)
            && (LedByIdle(tubes, i, mix) ==> l == before)
  {
    hide PairLevels, PairFinal;
  }

  predicate Orderly(s: Scene) {
    && WellFormed(s)
    && forall i :: 0 <= i < |s.tubes| ==> s.tubes[i].lines[0].cmd != OtherCmd && s.tubes[i].lines[1].cmd != OtherCmd
  }

  predicate AnyRunning(s: Scene, mix: nat)
    requires WellFormed(s) && mix < 2
  {
    exists i :: 0 <= i < |s.tubes| && s.tubes[i].role != Sub && s.tubes[i].lines[mix].cmd != NoCmd
  }

  /** After a tick the active flags say whether some tube, single or paired, still runs a command on that mix line. */
  lemma {:induction false} ActiveIffRunning(s: Scene)
    requires Orderly(s)
    ensures ActiveIntern in Step(s).status <==> AnyRunning(Step(s), 0)
    ensures ActiveExtern in Step(s).status <==> AnyRunning(Step(s), 1)
    ensures Orderly(Step(s))
  {
    StepFacts(s);
    hide Step, TickLine;
    var r := Step(s);
    forall i | 0 <= i < |s.tubes|
      ensures Runs(s.tubes, 0, i) <==> r.tubes[i].role != Sub && r.tubes[i].lines[0].cmd != NoCmd
      ensures Runs(s.tubes, 1, i) <==> r.tubes[i].role != Sub && r.tubes[i].lines[1].cmd != NoCmd
      ensures r.tubes[i].lines[0].cmd != OtherCmd && r.tubes[i].lines[1].cmd != OtherCmd
    {
      LineRunsIff(s.tubes, i, 0);
      LineRunsIff(s.tubes, i, 1);
    }
  }

  // ----- Tubes over many passes

  /** Passes change nothing but the mix lines of a tube. */
  lemma {:induction false} StepsKeepTube(s: Scene, n: nat, i: nat)
    requires WellFormed(s) && i < |s.tubes|
    ensures |Steps(s, n).tubes| == |s.tubes|
    ensures Steps(s, n).tubes[i].(lines := s.tubes[i].lines) == s.tubes[i]
  {
    hide Step, TickLine;
    if n > 0 {
      StepsKeepTube(s, n - 1, i);
      StepFacts(Steps(s, n - 1));
    }
  }

  /** Single tubes fade independently of all others. */
  lemma {:induction false} StepsOfTube(s: Scene, n: nat, i: nat)
    requires WellFormed(s) && i < |s.tubes| && s.tubes[i].role == Single
    ensures |Steps(s, n).tubes| == |s.tubes|
    ensures var t := s.tubes[i];
            Steps(s, n).tubes[i] == t.(lines := [Ticks(t.lines[0], t.targetValue, n), Ticks(t.lines[1], t.targetValue, n)])
  {
    hide Step, Tick;
    if n > 0 {
      StepsOfTube(s, n - 1, i);
      StepFacts(Steps(s, n - 1));
    }
  }

  /** The tubes of a pair do not change on a mix line on which their main tube is idle. */
  lemma {:induction false} StepsOfIdlePair(s: Scene, n: nat, i: nat, mix: nat)
    requires WellFormed(s) && i < |s.tubes| && s.tubes[i].role != Single && mix < 2
    requires forall j :: 0 <= j < |s.tubes| && s.tubes[j].role == Main ==> s.tubes[j].lines[mix].cmd == NoCmd
    ensures |Steps(s, n).tubes| == |s.tubes| && Steps(s, n).tubes[i].lines[mix] == s.tubes[i].lines[mix]
    decreases n
  {
    hide Step, TickLine;
    if n > 0 {
      var before := Steps(s, n - 1);
      StepsOfIdlePair(s, n - 1, i, mix);
      StepsKeepTube(s, n - 1, i);
      StepFacts(before);
      LineRunsIff(before.tubes, i, mix);
      if i > 0 {
        StepsKeepTube(s, n - 1, i - 1);
        if s.tubes[i - 1].role == Main {
          StepsOfIdlePair(s, n - 1, i - 1, mix);
        }
      }
    }
  }

  lemma {:induction false} InactiveWhenIdle(s: Scene, n: nat, mix: nat)
    requires WellFormed(s) && 1 <= n && mix < 2
    requires forall i :: 0 <= i < |Steps(s, n).tubes| ==> Steps(s, n).tubes[i].lines[mix].cmd == NoCmd
    ensures ActiveFlag(mix) !in Steps(s, n).status && !SomeRuns(Steps(s, n - 1).tubes, mix)
  {
    hide Step, TickLine;
    var before := Steps(s, n - 1);
    StepFacts(before);
    forall i | 0 <= i < |before.tubes| ensures !Runs(before.tubes, mix, i) {
      assert Steps(s, n).tubes[i] == TickTube(before.tubes, i);
      LineRunsIff(before.tubes, i, mix);
    }
  }

  // ----- A scene that a command leads as a whole

  /** Every tube is either faded by the command or left alone and idle on the intern line. */
  predicate Regular(s: Scene) {
    && WellFormed(s)
    && forall i :: 0 <= i < |s.tubes| ==>
         Fades(s.tubes, i) || (LeftAlone(s.tubes, i) && s.tubes[i].lines[0].cmd == NoCmd)
  }

  /** After an intern command the faded tubes are single, and the pairs are idle. */
  lemma {:induction false} AfterCommand(s: Scene, cmd: CtrlCmd, cmdTime: int)
    requires Regular(s) && IsSceneCmd(cmd)
    ensures var time, r := CmdTime(s, cmd, cmdTime), InitScene(s, 0, cmd, cmdTime).0;
            && (forall i :: 0 <= i < |s.tubes| && Fades(s.tubes, i) ==>
                  r.tubes[i].role == Single &&
                  r.tubes[i].lines[0] == InitFade(s.tubes[i].lines[0], cmd, time, 0, s.tubes[i].targetValue, s.tubes[i].fullValue).0)
            && (forall i :: 0 <= i < |s.tubes| && LeftAlone(s.tubes, i) ==> r.tubes[i].lines[0] == s.tubes[i].lines[0])
            && forall i :: 0 <= i < |s.tubes| && r.tubes[i].role == Main ==> r.tubes[i].lines[0].cmd == NoCmd
  {
    hide InitFade;
    var time, r := CmdTime(s, cmd, cmdTime), InitScene(s, 0, cmd, cmdTime).0;
    assert forall i :: 0 <= i < |s.tubes| ==> r.tubes[i] == InitTube(s.tubes, i, 0, cmd, time);
  }

  /** The intern line of each tube after the command and n passes. */
  lemma {:induction false} LineAfter(s: Scene, cmd: CtrlCmd, cmdTime: int, n: nat, i: nat)
    requires Regular(s) && IsSceneCmd(cmd) && i < |s.tubes|
    ensures var time, at := CmdTime(s, cmd, cmdTime), Steps(InitScene(s, 0, cmd, cmdTime).0, n);
            var t := s.tubes[i];
            && |at.tubes| == |s.tubes| && at.tubes[i].dimmer == t.dimmer && at.tubes[i].targetValue == t.targetValue
            && at.tubes[i].lines[0] ==
                 if Fades(s.tubes, i)
                 then Ticks(InitFade(t.lines[0], cmd, time, 0, t.targetValue, t.fullValue).0, t.targetValue, n)
                 else t.lines[0]
  {
    var time, from := CmdTime(s, cmd, cmdTime), InitScene(s, 0, cmd, cmdTime).0;
    AfterCommand(s, cmd, cmdTime);
    assert from.tubes[i] == InitTube(s.tubes, i, 0, cmd, time);
    StepsKeepTube(from, n, i);
    hide InitScene, InitFade, Fades, LeftAlone, Tick;
    if from.tubes[i].role == Single {
      StepsOfTube(from, n, i);
      if !Fades(s.tubes, i) {
        IdleStays(from.tubes[i].lines[0], from.tubes[i].targetValue, 0, n);
      }
    } else {
      StepsOfIdlePair(from, n, i, 0);
    }
  }

  // ----- Fading in

  /** Nothing runs on the intern line and no dimmer is above 0. */
  predicate Dark(s: Scene) {
    && Regular(s)
    && forall i :: 0 <= i < |s.tubes| ==>
         var t := s.tubes[i];
         && t.lines[0].cmd == NoCmd && (t.dimmer ==> t.lines[0].cur <= 0)
         && (Fades(s.tubes, i) ==> t.lines[0].cur == 0)
  }

  predicate HasLight(s: Scene)
    requires WellFormed(s)
  {
    exists i :: 0 <= i < |s.tubes| && Fades(s.tubes, i) && s.tubes[i].dimmer && s.tubes[i].targetValue > 0
  }

  /**
   Some tube rises whose own type is no position or special type. Every dimmer is one, but so is a tube without
   a type of its own that stands for a colour or a gobo in the universe layout.
   */
  predicate HasLocalLight(s: Scene)
    requires WellFormed(s)
  {
    exists i :: 0 <= i < |s.tubes| && Fades(s.tubes, i) && s.tubes[i].localDimmer && s.tubes[i].targetValue > 0
  }

  predicate AnyRises(s: Scene)
    requires WellFormed(s)
  {
    exists i :: 0 <= i < |s.tubes| && Fades(s.tubes, i) && s.tubes[i].targetValue > 0
  }

  /** A fade-in that is over with its first pass keeps the stage flag without any light, if nothing ran before. */
  predicate StaysWithoutLight(s: Scene, timeMs: int)
    requires WellFormed(s)
  {
    HasLocalLight(s) && StepCount(timeMs) == 1 && ActiveIntern !in s.last
  }

  lemma {:induction false} StageStaysOff(s: Scene, n: nat)
    requires WellFormed(s) && StageIntern !in s.status
    ensures StageIntern !in Steps(s, n).status
  {
    hide Step;
    if n > 0 {
      StageStaysOff(s, n - 1);
      StepFacts(Steps(s, n - 1));
    }
  }

  lemma {:induction false} FadeInTube(s: Scene, cmdTime: int, i: nat, n: nat)
    requires Dark(s) && i < |s.tubes| && Fades(s.tubes, i) && StepCount(CmdTime(s, FadeIn, cmdTime)) <= n
    ensures var at := Steps(InitScene(s, 0, FadeIn, cmdTime).0, n);
            && |at.tubes| == |s.tubes|
            && at.tubes[i].lines[0].cmd == NoCmd && at.tubes[i].lines[0].cur == Max(0, s.tubes[i].targetValue)
  {
    var time, t := CmdTime(s, FadeIn, cmdTime), s.tubes[i];
    LineAfter(s, FadeIn, cmdTime, n, i);
    if t.targetValue > 0 {
      FadeCourse(t.lines[0], FadeIn, time, 0, t.targetValue, t.fullValue, n);
    } else {
      IdleStays(InitFade(t.lines[0], FadeIn, time, 0, t.targetValue, t.fullValue).0, t.targetValue, 0, n);
    }
  }

  /** After n passes a rising dimmer is above 0, or the last pass has reported it as running. */
  lemma {:induction false} LitOrRunning(s: Scene, cmdTime: int, i: nat, n: nat)
    requires Dark(s) && i < |s.tubes| && Fades(s.tubes, i) && s.tubes[i].targetValue > 0 && 1 <= n
    ensures var from := InitScene(s, 0, FadeIn, cmdTime).0;
            && |Steps(from, n - 1).tubes| == |Steps(from, n).tubes| == |s.tubes|
            && (Runs(Steps(from, n - 1).tubes, 0, i) || Steps(from, n).tubes[i].lines[0].cur > 0)
  {
    hide Steps, Tick, Ticks, InitScene, InitFade, Fades, LeftAlone, CmdTime, StepCount;
    var time, from, t := CmdTime(s, FadeIn, cmdTime), InitScene(s, 0, FadeIn, cmdTime).0, s.tubes[i];
    RisingLine(t.lines[0], time, t.targetValue, t.fullValue, n);
    AfterCommand(s, FadeIn, cmdTime);
    LineAfter(s, FadeIn, cmdTime, n - 1, i);
    LineAfter(s, FadeIn, cmdTime, n, i);
    StepsKeepTube(from, n - 1, i);
    var before := Steps(from, n - 1).tubes;
    assert before[i].role == Single;
    assert TickLine(before, i, 0) == Tick(before[i].lines[0], before[i].targetValue);
  }

  lemma {:induction false} RisingLine(l: MixLine, timeMs: int, targetValue: int, fullValue: int, n: nat)
    requires 0 <= l.cur < targetValue && 1 <= n
    ensures var from := InitFade(l, FadeIn, timeMs, 0, targetValue, fullValue).0;
            Tick(Ticks(from, targetValue, n - 1), targetValue).1 || Ticks(from, targetValue, n).cur > 0
  {
    var from := InitFade(l, FadeIn, timeMs, 0, targetValue, fullValue).0;
    FadeCourse(l, FadeIn, timeMs, 0, targetValue, fullValue, n - 1);
    FadeCourse(l, FadeIn, timeMs, 0, targetValue, fullValue, n);
    hide StepSize;
    TickRunsIff(Ticks(from, targetValue, n - 1), targetValue);
  }

  /** The command of a line that is faded in from 0. */
  lemma {:induction false} FadeInCmd(l: MixLine, timeMs: int, targetValue: int, fullValue: int, n: nat)
    requires l.cmd == NoCmd && l.cur == 0
    ensures Ticks(InitFade(l, FadeIn, timeMs, 0, targetValue, fullValue).0, targetValue, n).cmd ==
            if 0 < targetValue && n < StepCount(timeMs) then FadeIn else NoCmd
  {
    if 0 < targetValue {
      FadeCourse(l, FadeIn, timeMs, 0, targetValue, fullValue, n);
    } else {
      IdleStays(InitFade(l, FadeIn, timeMs, 0, targetValue, fullValue).0, targetValue, 0, n);
    }
  }

  lemma {:induction false} CmdDuringFadeIn(s: Scene, cmdTime: int, n: nat, i: nat)
    requires Dark(s) && i < |s.tubes|
    ensures var at := Steps(InitScene(s, 0, FadeIn, cmdTime).0, n).tubes;
            && |at| == |s.tubes|
            && (Fades(s.tubes, i) ==> at[i].role == Single)
            && at[i].lines[0].cmd ==
                 if Fades(s.tubes, i) && 0 < s.tubes[i].targetValue && n < StepCount(CmdTime(s, FadeIn, cmdTime))
                 then FadeIn else NoCmd
  {
    hide InitScene, InitFade, Steps, Ticks, Fades, LeftAlone, StepCount;
    var t := s.tubes[i];
    LineAfter(s, FadeIn, cmdTime, n, i);
    if Fades(s.tubes, i) {
      AfterCommand(s, FadeIn, cmdTime);
      StepsKeepTube(InitScene(s, 0, FadeIn, cmdTime).0, n, i);
      FadeInCmd(t.lines[0], CmdTime(s, FadeIn, cmdTime), t.targetValue, t.fullValue, n);
    }
  }

  lemma {:induction false} RunsIff(s: Scene, cmdTime: int, n: nat, i: nat)
    requires Dark(s) && 1 <= n && i < |s.tubes|
    ensures var before := Steps(InitScene(s, 0, FadeIn, cmdTime).0, n - 1).tubes;
            && |before| == |s.tubes|
            && (Runs(before, 0, i) <==> Fades(s.tubes, i) && 0 < s.tubes[i].targetValue && n < StepCount(CmdTime(s, FadeIn, cmdTime)))
  {
    var from := InitScene(s, 0, FadeIn, cmdTime).0;
    CmdDuringFadeIn(s, cmdTime, n - 1, i);
    CmdDuringFadeIn(s, cmdTime, n, i);
    hide InitScene, Fades, TickLine, StepCount, CmdTime, Dark;
    var before := Steps(from, n - 1);
    assert Steps(from, n) == Step(before);
    StepFacts(before);
    hide Step;
    LineRunsIff(before.tubes, i, 0);
  }

  /** Pass n of a fade-in from dark reports a running fade exactly if a tube rises and the time is not over. */
  lemma {:induction false} SomeRunsIff(s: Scene, cmdTime: int, n: nat)
    requires Dark(s) && 1 <= n
    ensures SomeRuns(Steps(InitScene(s, 0, FadeIn, cmdTime).0, n - 1).tubes, 0)
       <==> AnyRises(s) && n < StepCount(CmdTime(s, FadeIn, cmdTime))
  {
    assert WellFormed(s);
    hide Runs, Fades, InitScene, Steps, StepCount, CmdTime, Dark, PairsRight;
    var before := Steps(InitScene(s, 0, FadeIn, cmdTime).0, n - 1).tubes;
    StepsLength(InitScene(s, 0, FadeIn, cmdTime).0, n - 1);
    forall i | 0 <= i < |s.tubes|
      ensures Runs(before, 0, i) <==> Fades(s.tubes, i) && 0 < s.tubes[i].targetValue && n < StepCount(CmdTime(s, FadeIn, cmdTime))
    {
      RunsIff(s, cmdTime, n, i);
    }
  }

  /** Without light to come no dimmer is above 0 at any time. */
  lemma {:induction false} StaysDark(s: Scene, cmdTime: int, n: nat)
    requires Dark(s) && !HasLight(s)
    ensures !OnStage(Steps(InitScene(s, 0, FadeIn, cmdTime).0, n).tubes)
  {
    var time, from := CmdTime(s, FadeIn, cmdTime), InitScene(s, 0, FadeIn, cmdTime).0;
    hide InitScene, Steps, Fades, InitFade;
    StepsLength(from, n);
    forall i | 0 <= i < |s.tubes|
      ensures var t := Steps(from, n).tubes[i]; t.dimmer ==> t.lines[0].cur <= 0
    {
      var t := s.tubes[i];
      LineAfter(s, FadeIn, cmdTime, n, i);
      if t.dimmer && Fades(s.tubes, i) {
        assert t.targetValue <= 0;
        RejectedFadeIn(t.lines[0], time, t.targetValue, t.fullValue, n);
      }
    }
  }

  lemma {:induction false} RejectedFadeIn(l: MixLine, timeMs: int, targetValue: int, fullValue: int, n: nat)
    requires l.cmd == NoCmd && targetValue <= l.cur
    ensures Ticks(InitFade(l, FadeIn, timeMs, 0, targetValue, fullValue).0, targetValue, n).cur == l.cur
  {
    IdleStays(InitFade(l, FadeIn, timeMs, 0, targetValue, fullValue).0, targetValue, 0, n);
  }

  /** With light to come a pass finds a fade running or a dimmer above 0. */
  lemma {:induction false} LightKeepsStage(s: Scene, cmdTime: int, n: nat)
    requires Dark(s) && HasLight(s) && 1 <= n
    ensures var from := InitScene(s, 0, FadeIn, cmdTime).0;
            SomeRuns(Steps(from, n - 1).tubes, 0) || OnStage(Steps(from, n).tubes)
  {
    hide Steps, InitScene, Fades, TickLine;
    var i :| 0 <= i < |s.tubes| && Fades(s.tubes, i) && s.tubes[i].dimmer && s.tubes[i].targetValue > 0;
    LitOrRunning(s, cmdTime, i, n);
    LineAfter(s, FadeIn, cmdTime, n, i);
  }

  /**
   During a fade-in from dark the scene is on stage exactly if a tube without a position or special type of its
   own rises. Afterwards it is exactly if it has light, or if the fade was over with its first pass.
   */
  lemma {:induction false} FadeInStage(s: Scene, cmdTime: int, n: nat)
    requires Dark(s)
    ensures var time := CmdTime(s, FadeIn, cmdTime);
            StageIntern in Steps(InitScene(s, 0, FadeIn, cmdTime).0, n).status <==>
              HasLight(s) || (n < StepCount(time) && HasLocalLight(s)) || StaysWithoutLight(s, time)
  {
    var time, from := CmdTime(s, FadeIn, cmdTime), InitScene(s, 0, FadeIn, cmdTime).0;
    StagedFromDark(s, cmdTime);
    LightIsLocal(s);
    assert from.last == s.last;
    hide InitScene, Fades, Dark, HasLight, HasLocalLight, AnyRises, OnStage, SomeRuns, CmdTime, StepCount;
    if n > 0 {
      var before := Steps(from, n - 1);
      FadeInStage(s, cmdTime, n - 1);
      StepFacts(before);
      SomeRunsIff(s, cmdTime, n);
      if HasLight(s) {
        LightKeepsStage(s, cmdTime, n);
      } else {
        StaysDark(s, cmdTime, n);
        if n > 1 {
          StepFacts(Steps(from, n - 2));
          SomeRunsIff(s, cmdTime, n - 1);
          assert before.last == before.status;
        }
      }
    }
  }

  lemma {:induction false} LightIsLocal(s: Scene)
    requires WellFormed(s)
    ensures (HasLight(s) ==> HasLocalLight(s)) && (HasLocalLight(s) ==> AnyRises(s))
  {
    hide Fades;
  }

  lemma {:induction false} StagedFromDark(s: Scene, cmdTime: int)
    requires Dark(s)
    ensures StageIntern in InitScene(s, 0, FadeIn, cmdTime).0.status <==> HasLocalLight(s)
  {
    var time := CmdTime(s, FadeIn, cmdTime);
    hide StepSize, Visited;
    forall i | 0 <= i < |s.tubes|
      ensures Starts(s.tubes, 0, FadeIn, time, i) <==> Fades(s.tubes, i) && s.tubes[i].targetValue > 0
    {
    }
  }

  /**
   When the fade-in time is over, all faded tubes are at their targets and nothing runs. The stage flag tells
   whether a dimmer is above 0, except after a fade that was over with its first pass.
   */
  lemma {:induction false} FadeInCompletes(s: Scene, cmdTime: int, n: nat)
    requires Dark(s) && StepCount(CmdTime(s, FadeIn, cmdTime)) <= n
    ensures var at := Steps(InitScene(s, 0, FadeIn, cmdTime).0, n);
            && |at.tubes| == |s.tubes|
            && (forall i :: 0 <= i < |s.tubes| && Fades(s.tubes, i) ==> at.tubes[i].lines[0].cur == Max(0, s.tubes[i].targetValue))
            && !AnyRunning(at, 0)
            && (OnStage(at.tubes) <==> HasLight(s))
            && (StageIntern in at.status <==> OnStage(at.tubes) || StaysWithoutLight(s, CmdTime(s, FadeIn, cmdTime)))
  {
    hide Step, Steps, InitScene, Fades, LeftAlone, InitFade, StaysWithoutLight;
    var at := Steps(InitScene(s, 0, FadeIn, cmdTime).0, n);
    FadeInStage(s, cmdTime, n);
    StepsLength(InitScene(s, 0, FadeIn, cmdTime).0, n);
    forall i | 0 <= i < |s.tubes|
      ensures at.tubes[i].lines[0].cmd == NoCmd && at.tubes[i].dimmer == s.tubes[i].dimmer
      ensures if Fades(s.tubes, i) then at.tubes[i].lines[0].cur == Max(0, s.tubes[i].targetValue)
              else at.tubes[i].lines[0].cur == s.tubes[i].lines[0].cur
    {
      LineAfter(s, FadeIn, cmdTime, n, i);
      if Fades(s.tubes, i) {
        FadeInTube(s, cmdTime, i, n);
      }
    }
    if HasLight(s) {
      var i :| 0 <= i < |s.tubes| && Fades(s.tubes, i) && s.tubes[i].dimmer && s.tubes[i].targetValue > 0;
      assert at.tubes[i].lines[0].cur > 0;
    }
  }

  lemma {:induction false} StepsLength(s: Scene, n: nat)
    requires WellFormed(s)
    ensures |Steps(s, n).tubes| == |s.tubes|
  {
    hide Step;
    if n > 0 {
      StepsLength(s, n - 1);
      StepFacts(Steps(s, n - 1));
    }
  }

  // ----- Fading out

  /** The intern lines of the faded tubes are in order. */
  predicate Lively(s: Scene) {
    && Regular(s)
    && forall i :: 0 <= i < |s.tubes| && Fades(s.tubes, i) ==> LineInv(s.tubes[i].lines[0], s.tubes[i].targetValue)
  }

  /** No faded tube has a rising fade that is still at level 0. */
  predicate Stoppable(s: Scene)
    requires WellFormed(s)
  {
    forall i :: 0 <= i < |s.tubes| && Fades(s.tubes, i) ==> s.tubes[i].lines[0].cur > 0 || !Rising(s.tubes[i].lines[0])
  }

  /** All tubes that `s` fades are at 0, nothing runs on the intern line and both intern flags are clear. */
  predicate AllOut(s: Scene, at: Scene)
    requires WellFormed(s) && WellFormed(at)
  {
    && |at.tubes| == |s.tubes|
    && (forall i :: 0 <= i < |s.tubes| ==> at.tubes[i].lines[0].cmd == NoCmd)
    && (forall i :: 0 <= i < |s.tubes| && Fades(s.tubes, i) ==> at.tubes[i].lines[0].cur == 0)
    && StageIntern !in at.status && ActiveIntern !in at.status
  }

  lemma {:induction false} FadeOutBy(s: Scene, cmd: CtrlCmd, cmdTime: int, n: nat)
    requires Lively(s) && Stoppable(s) && StepCount(CmdTime(s, cmd, cmdTime)) <= n && (cmd.FadeOut? || cmd.Black?)
    ensures AllOut(s, Steps(InitScene(s, 0, cmd, cmdTime).0, n))
  {
    var time, from := CmdTime(s, cmd, cmdTime), InitScene(s, 0, cmd, cmdTime).0;
    var at := Steps(from, n);
    StageStaysOff(from, n);
    hide InitScene, Step, Steps, Fades, LeftAlone, InitFade;
    StepsLength(from, n);
    forall i | 0 <= i < |at.tubes|
      ensures at.tubes[i].lines[0].cmd == NoCmd
      ensures Fades(s.tubes, i) ==> at.tubes[i].lines[0].cur == 0
    {
      LineAfter(s, cmd, cmdTime, n, i);
      if Fades(s.tubes, i) {
        FadeOutClearsBy(s.tubes[i].lines[0], cmd, time, 0, s.tubes[i].targetValue, s.tubes[i].fullValue, n);
      }
    }
    InactiveWhenIdle(from, n, 0);
  }

  ghost predicate GoesOut(s: Scene, from: Scene)
    requires WellFormed(s) && WellFormed(from)
  {
    exists n: nat :: AllOut(s, Steps(from, n))
  }

  /**
   FADEOUT and BLACK bring all tubes that the scene fades to 0 and clear both intern flags exactly if none of them
   has a rising fade still at level 0.
   */
  lemma {:induction false} SceneFadeOutIff(s: Scene, cmd: CtrlCmd, cmdTime: int)
    requires Lively(s) && (cmd.FadeOut? || cmd.Black?)
    ensures GoesOut(s, InitScene(s, 0, cmd, cmdTime).0) <==> Stoppable(s)
  {
    var time, from := CmdTime(s, cmd, cmdTime), InitScene(s, 0, cmd, cmdTime).0;
    hide InitScene, Steps, Fades, LeftAlone;
    if Stoppable(s) {
      FadeOutBy(s, cmd, cmdTime, StepCount(time));
    } else {
      var i :| 0 <= i < |s.tubes| && Fades(s.tubes, i) && s.tubes[i].lines[0].cur <= 0 && Rising(s.tubes[i].lines[0]);
      var t := s.tubes[i];
      forall n: nat ensures !AllOut(s, Steps(from, n)) {
        LineAfter(s, cmd, cmdTime, n, i);
        RisesOn(InitFade(t.lines[0], cmd, time, 0, t.targetValue, t.fullValue).0, t.targetValue, n);
      }
    }
  }

  /** FADETO has no target of its own when it is given to a scene: every idle tube it fades goes to 0. */
  lemma {:induction false} FadeToGoesToZero(s: Scene, cmdTime: int, i: nat, n: nat)
    requires Regular(s) && i < |s.tubes| && Fades(s.tubes, i) && s.tubes[i].lines[0].cmd == NoCmd
    requires StepCount(CmdTime(s, FadeTo, cmdTime)) <= n
    ensures var at, t := Steps(InitScene(s, 0, FadeTo, cmdTime).0, n), s.tubes[i];
            && |at.tubes| == |s.tubes|
            && at.tubes[i].lines[0].cur == if t.lines[0].cur == 0 then 0 else Min(0, t.fullValue)
  {
    var time, t := CmdTime(s, FadeTo, cmdTime), s.tubes[i];
    LineAfter(s, FadeTo, cmdTime, n, i);
    hide InitScene, Steps;
    if t.lines[0].cur == 0 {
      IdleStays(InitFade(t.lines[0], FadeTo, time, 0, t.targetValue, t.fullValue).0, t.targetValue, 0, n);
    } else if Stuck(t.lines[0].cur, FadeTo, t.fullValue, 0) {
      StuckForEver(t.lines[0], time, 0, t.targetValue, t.fullValue, n);
    } else {
      FadeCourse(t.lines[0], FadeTo, time, 0, t.targetValue, t.fullValue, n);
    }
  }

  // ----- Scenes stay regular

  lemma {:induction false} SameRoles(a: seq<Tube>, b: seq<Tube>, i: nat)
    requires |a| == |b| && i < |a|
    requires forall k :: 0 <= k < |a| ==> a[k].role == b[k].role && a[k].kind == b[k].kind && a[k].visible == b[k].visible
    ensures Visited(a, i) == Visited(b, i)
  {
    if i > 0 {
      SameRoles(a, b, i - 1);
    }
  }

  /** A second command finds the roles that the first one has left. */
  lemma {:induction false} PairingSettles(tubes: seq<Tube>, r: seq<Tube>, i: nat)
    requires |r| == |tubes| && i < |r|
    requires forall k :: 0 <= k < |r| ==>
      r[k].role == RoleAfter(tubes, k) && r[k].kind == tubes[k].kind && r[k].visible == tubes[k].visible
    ensures Visited(r, i) == RoleAfter(tubes, i)
  {
    if i > 0 {
      PairingSettles(tubes, r, i - 1);
    }
  }

  lemma {:induction false} FadedIsNoMain(s: Scene, i: nat)
    requires WellFormed(s) && i < |s.tubes| && Fades(s.tubes, i)
    ensures s.tubes[i].role != Main
  {
  }

  /** A command treats the tube as it will be treated later, and touches only the lines it fades. */
  lemma {:induction false} CommandKeepsRegular(s: Scene, mix: nat, cmd: CtrlCmd, cmdTime: int, i: nat)
    requires Regular(s) && mix < 2 && i < |s.tubes|
    ensures var time, r, t := CmdTime(s, cmd, cmdTime), InitScene(s, mix, cmd, cmdTime).0, s.tubes[i];
            && (Fades(r.tubes, i) <==> Fades(s.tubes, i)) && (LeftAlone(r.tubes, i) <==> LeftAlone(s.tubes, i))
            && r.tubes[i].targetValue == t.targetValue
            && r.tubes[i].lines[0] ==
                 if Fades(s.tubes, i) && mix == 0 && IsSceneCmd(cmd)
                 then InitFade(t.lines[0], cmd, time, 0, t.targetValue, t.fullValue).0 else t.lines[0]
  {
    hide InitFade, Visited;
    if IsSceneCmd(cmd) {
      var r := InitScene(s, mix, cmd, cmdTime).0;
      assert forall k :: 0 <= k < |s.tubes| ==> r.tubes[k] == InitTube(s.tubes, k, mix, cmd, CmdTime(s, cmd, cmdTime));
      PairingSettles(s.tubes, r.tubes, i);
    }
  }

  /** So does a pass. */
  lemma {:induction false} StepKeepsRegular(s: Scene, i: nat)
    requires Regular(s) && i < |s.tubes|
    ensures var r, t := Step(s), s.tubes[i];
            && |r.tubes| == |s.tubes|
            && (Fades(r.tubes, i) <==> Fades(s.tubes, i)) && (LeftAlone(r.tubes, i) <==> LeftAlone(s.tubes, i))
            && r.tubes[i].targetValue == t.targetValue
            && (r.tubes[i].lines[0] == t.lines[0] || (Fades(s.tubes, i) && r.tubes[i].lines[0] == Tick(t.lines[0], t.targetValue).0))
  {
    StepFacts(s);
    hide Step, Tick, Visited;
    SameRoles(s.tubes, Step(s).tubes, i);
    if s.tubes[i].role != Single || !Fades(s.tubes, i) {
      IdleLead(s, i);
      LineRunsIff(s.tubes, i, 0);
    }
  }

  lemma {:induction false} IdleLead(s: Scene, i: nat)
    requires Regular(s) && i < |s.tubes| && (s.tubes[i].role != Single || !Fades(s.tubes, i))
    ensures LedByIdle(s.tubes, i, 0)
  {
    if Fades(s.tubes, i) {
      FadedIsNoMain(s, i);
    }
    if i > 0 && Fades(s.tubes, i - 1) {
      FadedIsNoMain(s, i - 1);
    }
  }

  /** Every command on either mix line and every pass leave a scene regular. */
  lemma {:induction false} StaysRegular(s: Scene, mix: nat, cmd: CtrlCmd, cmdTime: int)
    requires Regular(s) && mix < 2
    ensures Regular(InitScene(s, mix, cmd, cmdTime).0) && Regular(Step(s))
  {
    hide InitScene, Step, Fades, LeftAlone;
    forall i | 0 <= i < |s.tubes|
      ensures var r := InitScene(s, mix, cmd, cmdTime).0;
        Fades(r.tubes, i) || (LeftAlone(r.tubes, i) && r.tubes[i].lines[0].cmd == NoCmd)
      ensures var r := Step(s);
        |r.tubes| == |s.tubes| && (Fades(r.tubes, i) || (LeftAlone(r.tubes, i) && r.tubes[i].lines[0].cmd == NoCmd))
    {
      CommandKeepsRegular(s, mix, cmd, cmdTime, i);
      StepKeepsRegular(s, i);
      NotBoth(s.tubes, i);
    }
    StepsLengthOne(s);
  }

  lemma {:induction false} NotBoth(tubes: seq<Tube>, i: nat)
    requires i < |tubes|
    ensures !(Fades(tubes, i) && LeftAlone(tubes, i))
  {
  }

  lemma {:induction false} StepsLengthOne(s: Scene)
    requires WellFormed(s)
    ensures |Step(s).tubes| == |s.tubes|
  {
    StepFacts(s);
  }

  /** and keep the intern lines of the faded tubes in order. */
  lemma {:induction false} StaysLively(s: Scene, mix: nat, cmd: CtrlCmd, cmdTime: int)
    requires Lively(s) && mix < 2
    requires forall i :: 0 <= i < |s.tubes| ==> 0 < s.tubes[i].fullValue
    ensures Lively(InitScene(s, mix, cmd, cmdTime).0) && Lively(Step(s))
  {
    hide InitScene, Step, Fades, LeftAlone, LineInv, InitFade, Tick;
    StaysRegular(s, mix, cmd, cmdTime);
    StepsLengthOne(s);
    forall i | 0 <= i < |s.tubes| && Fades(s.tubes, i)
      ensures LineInv(InitScene(s, mix, cmd, cmdTime).0.tubes[i].lines[0], s.tubes[i].targetValue)
      ensures LineInv(Step(s).tubes[i].lines[0], s.tubes[i].targetValue)
    {
      var t := s.tubes[i];
      CommandKeepsRegular(s, mix, cmd, cmdTime, i);
      StepKeepsRegular(s, i);
      InitKeepsInv(t.lines[0], cmd, CmdTime(s, cmd, cmdTime), 0, t.targetValue, t.fullValue);
      TickKeepsInv(t.lines[0], t.targetValue);
    }
    forall i | 0 <= i < |s.tubes|
      ensures Fades(InitScene(s, mix, cmd, cmdTime).0.tubes, i) == Fades(s.tubes, i) == Fades(Step(s).tubes, i)
      ensures InitScene(s, mix, cmd, cmdTime).0.tubes[i].targetValue == s.tubes[i].targetValue == Step(s).tubes[i].targetValue
    {
      CommandKeepsRegular(s, mix, cmd, cmdTime, i);
      StepKeepsRegular(s, i);
    }
  }

  // ----- The set of active scenes

  predicate Visible(status: set<SceneFlag>) {
    status * {StageIntern, StageExtern, ActiveIntern, ActiveExtern, StageLive} != {}
  }

  // A scene, and whether the light loop still passes it.
  datatype Held = Held(scene: Scene, active: bool)

  /** A pass moves an active scene on and gives it up if it is not visible afterwards. */
  function Pass(h: Held): (r: Held)
    requires WellFormed(h.scene)
    ensures WellFormed(r.scene)
  {
    if h.active then Held(Step(h.scene), Visible(Step(h.scene).status)) else h
  }

  function Passes(h: Held, n: nat): (r: Held)
    requires WellFormed(h.scene)
    ensures WellFormed(r.scene)
  {
    if n == 0 then h else Pass(Passes(h, n - 1))
  }

  /** Exactly when a pass keeps a scene. */
  lemma {:induction false} KeptIff(s: Scene)
    requires WellFormed(s)
    ensures Pass(Held(s, true)).active <==>
              || SomeRuns(s.tubes, 0) || SomeRuns(s.tubes, 1) || StageLive in s.status || StageExtern in s.status
              || (StageIntern in s.status && (ActiveIntern !in s.last || OnStage(Step(s).tubes)))
  {
    StepFacts(s);
    hide Step, SomeRuns, OnStage;
    var all := {StageIntern, StageExtern, ActiveIntern, ActiveExtern, StageLive};
    var status := Step(s).status;
    forall f | f in all ensures f in status ==> Visible(status) {
      assert f in status ==> f in status * all;
    }
  }

  /** A scene with a dimmer above 0 is given up exactly if nothing runs in it and it has no stage flag. */
  lemma {:induction false} LitSceneGivenUpIff(s: Scene)
    requires WellFormed(s) && OnStage(Step(s).tubes)
    ensures !Pass(Held(s, true)).active <==>
              !SomeRuns(s.tubes, 0) && !SomeRuns(s.tubes, 1) && s.status * {StageLive, StageIntern, StageExtern} == {}
  {
    hide Step, SomeRuns, OnStage;
    KeptIff(s);
    var stage := {StageLive, StageIntern, StageExtern};
    if s.status * stage == {} {
      forall f | f in stage ensures f !in s.status {
        assert f in s.status ==> f in s.status * stage;
      }
    }
  }

  lemma {:induction false} PassesAre(s: Scene, n: nat)
    requires WellFormed(s)
    ensures var h := Passes(Held(s, true), n);
            h.active ==> h.scene == Steps(s, n) && (n > 0 ==> Visible(Steps(s, n).status))
  {
    hide Step;
    if n > 0 {
      PassesAre(s, n - 1);
    }
  }

  // ----- A fade-in of a lit scene

  /** The tube is a dimmer that FADEIN makes rise. */
  predicate Lifts(tubes: seq<Tube>, i: nat)
    requires PairsRight(tubes) && i < |tubes|
  {
    && tubes[i].localDimmer && !LeftAlone(tubes, i)
    && if Visited(tubes, i) == Main
       then PairOf(tubes, i, 0).Level() < PairOf(tubes, i, 0).Target(tubes[i].targetValue)
       else tubes[i].lines[0].cur < tubes[i].targetValue
  }

  predicate AnyLifts(tubes: seq<Tube>)
    requires PairsRight(tubes)
  {
    exists i :: 0 <= i < |tubes| && Lifts(tubes, i)
  }

  /** FADEIN leaves the scene on stage if and only if some dimmer is below its target. */
  lemma {:induction false} StagedIff(s: Scene, cmdTime: int)
    requires WellFormed(s)
    ensures StageIntern in InitScene(s, 0, FadeIn, cmdTime).0.status <==> AnyLifts(s.tubes)
  {
    var time := CmdTime(s, FadeIn, cmdTime);
    hide StepSize, Visited;
    forall i | 0 <= i < |s.tubes|
      ensures Lifts(s.tubes, i) <==> Starts(s.tubes, 0, FadeIn, time, i) && s.tubes[i].localDimmer
    {
    }
  }

  /** Nothing runs in the scene, and only the stage flag of the intern line can keep it active. */
  predicate Quiet(s: Scene) {
    && Regular(s) && StageLive !in s.status && StageExtern !in s.status
    && forall i :: 0 <= i < |s.tubes| ==> s.tubes[i].lines[0].cmd == NoCmd && s.tubes[i].lines[1].cmd == NoCmd
  }

  lemma {:induction false} ExternStaysIdle(s: Scene, cmd: CtrlCmd, cmdTime: int, n: nat, i: nat)
    requires Regular(s) && i < |s.tubes| && forall k :: 0 <= k < |s.tubes| ==> s.tubes[k].lines[1].cmd == NoCmd
    ensures var at := Steps(InitScene(s, 0, cmd, cmdTime).0, n);
            |at.tubes| == |s.tubes| && at.tubes[i].lines[1] == s.tubes[i].lines[1]
  {
    var from := InitScene(s, 0, cmd, cmdTime).0;
    hide Step, Tick, InitFade;
    assert forall k :: 0 <= k < |s.tubes| ==> from.tubes[k].lines[1] == s.tubes[k].lines[1];
    hide InitScene;
    if from.tubes[i].role == Single {
      StepsOfTube(from, n, i);
      IdleStays(from.tubes[i].lines[1], from.tubes[i].targetValue, 0, n);
    } else {
      StepsOfIdlePair(from, n, i, 1);
    }
  }

  /** A fade-in of a quiet line never lowers it. */
  lemma {:induction false} FadeInNeverLowers(l: MixLine, timeMs: int, targetValue: int, fullValue: int, n: nat)
    requires l.cmd == NoCmd
    ensures Ticks(InitFade(l, FadeIn, timeMs, 0, targetValue, fullValue).0, targetValue, n).cur >= l.cur
  {
    var from := InitFade(l, FadeIn, timeMs, 0, targetValue, fullValue);
    hide StepSize;
    if from.1 {
      FadeIsMonotone(l, FadeIn, timeMs, 0, targetValue, fullValue, 0, n);
    } else {
      IdleStays(from.0, targetValue, 0, n);
    }
  }

  lemma {:induction false} StaysLit(s: Scene, cmdTime: int, n: nat)
    requires Quiet(s) && OnStage(s.tubes)
    ensures OnStage(Steps(InitScene(s, 0, FadeIn, cmdTime).0, n).tubes)
  {
    hide InitScene, Steps, InitFade, Ticks, Fades;
    var i :| 0 <= i < |s.tubes| && s.tubes[i].dimmer && s.tubes[i].lines[0].cur > 0;
    var t := s.tubes[i];
    LineAfter(s, FadeIn, cmdTime, n, i);
    FadeInNeverLowers(t.lines[0], CmdTime(s, FadeIn, cmdTime), t.targetValue, t.fullValue, n);
    var at := Steps(InitScene(s, 0, FadeIn, cmdTime).0, n).tubes;
    assert at[i].dimmer && at[i].lines[0].cur > 0;
  }

  lemma {:induction false} LitStaysOnStage(s: Scene)
    requires WellFormed(s) && StageIntern in s.status && OnStage(Step(s).tubes)
    ensures StageIntern in Step(s).status
  {
    StepFacts(s);
  }

  lemma {:induction false} LiftedStaysOnStage(s: Scene, cmdTime: int, n: nat)
    requires Quiet(s) && OnStage(s.tubes) && AnyLifts(s.tubes)
    ensures StageIntern in Steps(InitScene(s, 0, FadeIn, cmdTime).0, n).status
  {
    hide InitScene, Step, OnStage, AnyLifts, TickLine;
    StagedIff(s, cmdTime);
    var from := InitScene(s, 0, FadeIn, cmdTime).0;
    if n > 0 {
      LiftedStaysOnStage(s, cmdTime, n - 1);
      StaysLit(s, cmdTime, n);
      LitStaysOnStage(Steps(from, n - 1));
    }
  }

  /** With a dimmer to lift, the scene stays on stage and active for ever. */
  lemma {:induction false} LiftedStaysActive(s: Scene, cmdTime: int, n: nat)
    requires Quiet(s) && OnStage(s.tubes) && AnyLifts(s.tubes)
    ensures var from := InitScene(s, 0, FadeIn, cmdTime).0;
            Passes(Held(from, true), n) == Held(Steps(from, n), true)
  {
    var from := InitScene(s, 0, FadeIn, cmdTime).0;
    hide InitScene, Step, OnStage, AnyLifts;
    if n > 0 {
      LiftedStaysActive(s, cmdTime, n - 1);
      LiftedStaysOnStage(s, cmdTime, n);
      assert StageIntern in Steps(from, n).status * {StageIntern, StageExtern, ActiveIntern, ActiveExtern, StageLive};
    }
  }

  /** Without one, it is off stage, and given up when the last fade has ended. */
  lemma {:induction false} GivenUpBy(s: Scene, cmdTime: int, n: nat)
    requires Quiet(s) && !AnyLifts(s.tubes) && StepCount(CmdTime(s, FadeIn, cmdTime)) <= n
    ensures !Passes(Held(InitScene(s, 0, FadeIn, cmdTime).0, true), n).active
  {
    var time, from := CmdTime(s, FadeIn, cmdTime), InitScene(s, 0, FadeIn, cmdTime).0;
    var at := Steps(from, n);
    StagedIff(s, cmdTime);
    assert StageLive !in from.status && StageExtern !in from.status;
    hide InitScene, Step, Steps, Fades, LeftAlone, InitFade;
    StepsLength(from, n);
    forall i | 0 <= i < |s.tubes| ensures at.tubes[i].lines[0].cmd == NoCmd && at.tubes[i].lines[1].cmd == NoCmd {
      LineAfter(s, FadeIn, cmdTime, n, i);
      ExternStaysIdle(s, FadeIn, cmdTime, n, i);
      if Fades(s.tubes, i) {
        FadeInEnds(s.tubes[i].lines[0], time, s.tubes[i].targetValue, s.tubes[i].fullValue, n);
      }
    }
    InactiveWhenIdle(from, n, 0);
    InactiveWhenIdle(from, n, 1);
    StageStaysOff(from, n);
    OtherStagesStay(from, n);
    PassesAre(from, n);
  }

  lemma {:induction false} FadeInEnds(l: MixLine, timeMs: int, targetValue: int, fullValue: int, n: nat)
    requires l.cmd == NoCmd && StepCount(timeMs) <= n
    ensures Ticks(InitFade(l, FadeIn, timeMs, 0, targetValue, fullValue).0, targetValue, n).cmd == NoCmd
  {
    var from := InitFade(l, FadeIn, timeMs, 0, targetValue, fullValue);
    if from.1 {
      FadeCourse(l, FadeIn, timeMs, 0, targetValue, fullValue, n);
    } else {
      IdleStays(from.0, targetValue, 0, n);
    }
  }

  lemma {:induction false} OtherStagesStay(s: Scene, n: nat)
    requires WellFormed(s)
    ensures StageLive in Steps(s, n).status <==> StageLive in s.status
    ensures StageExtern in Steps(s, n).status <==> StageExtern in s.status
  {
    hide Step;
    if n > 0 {
      OtherStagesStay(s, n - 1);
      StepFacts(Steps(s, n - 1));
    }
  }

  ghost predicate IsGivenUp(s: Scene)
    requires WellFormed(s)
  {
    exists n: nat :: !Passes(Held(s, true), n).active
  }

  /**
   FADEIN to a quiet scene with a dimmer above 0: the light loop gives the lit scene up, and with it its light, if
   and only if no dimmer is below its target.
   */
  lemma {:induction false} LitFadeInGivesUpIff(s: Scene, cmdTime: int)
    requires Quiet(s) && OnStage(s.tubes)
    ensures IsGivenUp(InitScene(s, 0, FadeIn, cmdTime).0) <==> !AnyLifts(s.tubes)
    ensures forall n: nat :: OnStage(Passes(Held(InitScene(s, 0, FadeIn, cmdTime).0, true), n).scene.tubes)
  {
    assert WellFormed(s);
    hide InitScene, Step, Steps, OnStage, AnyLifts, Quiet, Pass, Passes, WellFormed;
    var from := InitScene(s, 0, FadeIn, cmdTime).0;
    forall n: nat ensures OnStage(Passes(Held(from, true), n).scene.tubes) {
      var k := PassesStop(from, n);
      StaysLit(s, cmdTime, k);
    }
    if AnyLifts(s.tubes) {
      forall n: nat ensures Passes(Held(from, true), n).active {
        LiftedStaysActive(s, cmdTime, n);
      }
    } else {
      GivenUpBy(s, cmdTime, StepCount(CmdTime(s, FadeIn, cmdTime)));
    }
  }

  /** A scene that has been given up stands where it was then. */
  lemma {:induction false} PassesStop(s: Scene, n: nat) returns (k: nat)
    requires WellFormed(s)
    ensures k <= n && Passes(Held(s, true), n).scene == Steps(s, k)
    ensures Passes(Held(s, true), n).active ==> k == n
  {
    hide Step;
    if n == 0 {
      k := 0;
    } else {
      k := PassesStop(s, n - 1);
      if Passes(Held(s, true), n - 1).active {
        k := n;
      }
    }
  }

  lemma {:induction false} RegularOverPasses(s: Scene, n: nat)
    requires Regular(s)
    ensures Regular(Steps(s, n)) && |Steps(s, n).tubes| == |s.tubes|
    ensures forall i :: 0 <= i < |s.tubes| ==>
              Fades(Steps(s, n).tubes, i) == Fades(s.tubes, i) && Steps(s, n).tubes[i].targetValue == s.tubes[i].targetValue
  {
    hide Step, Fades, LeftAlone;
    if n > 0 {
      var before := Steps(s, n - 1);
      RegularOverPasses(s, n - 1);
      StaysRegular(before, 0, NoCmd, 0);
      StepsLengthOne(before);
      forall i | 0 <= i < |s.tubes|
        ensures Fades(Steps(s, n).tubes, i) == Fades(s.tubes, i) && Steps(s, n).tubes[i].targetValue == s.tubes[i].targetValue
      {
        StepKeepsRegular(before, i);
      }
    }
  }

  /** A scene after a whole fade-in from dark: quiet, and every faded tube at its target. */
  lemma {:induction false} LitIsQuiet(s: Scene, cmdTime: int, n: nat)
    requires Dark(s) && StepCount(CmdTime(s, FadeIn, cmdTime)) <= n
    requires forall i :: 0 <= i < |s.tubes| ==> s.tubes[i].lines[1].cmd == NoCmd
    requires StageLive !in s.status && StageExtern !in s.status
    ensures var lit := Steps(InitScene(s, 0, FadeIn, cmdTime).0, n);
            && Quiet(lit) && |lit.tubes| == |s.tubes|
            && forall i :: 0 <= i < |lit.tubes| && Fades(lit.tubes, i) ==> lit.tubes[i].lines[0].cur >= lit.tubes[i].targetValue
  {
    var from := InitScene(s, 0, FadeIn, cmdTime).0;
    assert StageLive !in from.status && StageExtern !in from.status;
    hide InitScene, Step, Steps, Fades, LeftAlone, InitFade;
    var lit := Steps(from, n);
    StaysRegular(s, 0, FadeIn, cmdTime);
    RegularOverPasses(from, n);
    OtherStagesStay(from, n);
    forall i | 0 <= i < |s.tubes|
      ensures lit.tubes[i].lines[0].cmd == NoCmd && lit.tubes[i].lines[1].cmd == NoCmd
      ensures Fades(lit.tubes, i) ==> lit.tubes[i].lines[0].cur >= lit.tubes[i].targetValue
    {
      LineAfter(s, FadeIn, cmdTime, n, i);
      ExternStaysIdle(s, FadeIn, cmdTime, n, i);
      CommandKeepsRegular(s, 0, FadeIn, cmdTime, i);
      if Fades(s.tubes, i) {
        FadeInTube(s, cmdTime, i, n);
      }
    }
  }

  /** In particular the second of two FADEINs puts the light out: no level changes, and the next pass gives the scene up. */
  lemma {:induction false} SecondFadeInGivesUp(s: Scene, cmdTime: int, again: int, n: nat)
    requires Dark(s) && StepCount(CmdTime(s, FadeIn, cmdTime)) <= n
    requires forall i :: 0 <= i < |s.tubes| ==> s.tubes[i].lines[1].cmd == NoCmd
    requires StageLive !in s.status && StageExtern !in s.status
    ensures var lit := Steps(InitScene(s, 0, FadeIn, cmdTime).0, n);
            var (r, active) := InitScene(lit, 0, FadeIn, again);
            && !active && StageIntern !in r.status && !Pass(Held(r, true)).active
            && |r.tubes| == |lit.tubes| == |s.tubes|
            && forall i :: 0 <= i < |s.tubes| ==> r.tubes[i].lines[0].cur == lit.tubes[i].lines[0].cur
  {
    var lit := Steps(InitScene(s, 0, FadeIn, cmdTime).0, n);
    var r := InitScene(lit, 0, FadeIn, again).0;
    hide InitScene, Step, Steps;
    LitIsQuiet(s, cmdTime, n);
    NothingStarts(lit, again);
    KeptIff(r);
  }

  lemma {:induction false} NothingStarts(s: Scene, cmdTime: int)
    requires Quiet(s)
    requires forall i :: 0 <= i < |s.tubes| && Fades(s.tubes, i) ==> s.tubes[i].lines[0].cur >= s.tubes[i].targetValue
    ensures var (r, active) := InitScene(s, 0, FadeIn, cmdTime);
            && !active && StageIntern !in r.status && StageLive !in r.status && StageExtern !in r.status
            && !SomeRuns(r.tubes, 0) && !SomeRuns(r.tubes, 1)
            && forall i :: 0 <= i < |s.tubes| ==> r.tubes[i].lines[0].cur == s.tubes[i].lines[0].cur
  {
    var r := InitScene(s, 0, FadeIn, cmdTime).0;
    hide StepSize, Visited;
    forall i | 0 <= i < |s.tubes|
      ensures r.tubes[i].lines[0].cmd == NoCmd && r.tubes[i].lines[1].cmd == NoCmd
      ensures r.tubes[i].lines[0].cur == s.tubes[i].lines[0].cur
      ensures !Starts(s.tubes, 0, FadeIn, CmdTime(s, FadeIn, cmdTime), i)
    {
      assert r.tubes[i] == InitTube(s.tubes, i, 0, FadeIn, CmdTime(s, FadeIn, cmdTime));
    }
    hide InitScene, TickLine;
    forall i, mix: nat | 0 <= i < |r.tubes| && mix < 2 ensures !Runs(r.tubes, mix, i) {
      LineRunsIff(r.tubes, i, mix);
      if r.tubes[i].role != Sub {
        assert LedByIdle(r.tubes, i, mix);
      }
    }
  }

  // ----- How long a fade-in from dark keeps a scene active

  /** Dark, with nothing but this fade-in to keep the scene active. */
  predicate Alone(s: Scene) {
    && Dark(s) && StageLive !in s.status && StageExtern !in s.status
    && forall i :: 0 <= i < |s.tubes| ==> s.tubes[i].lines[1].cmd == NoCmd
  }

  /** The scene needs no running fade to stay active. */
  predicate StaysActive(s: Scene, timeMs: int)
    requires WellFormed(s)
  {
    HasLight(s) || StaysWithoutLight(s, timeMs)
  }

  lemma {:induction false} VisibleIff(s: Scene)
    requires WellFormed(s)
    ensures Visible(s.status) <==> StageIntern in s.status || StageExtern in s.status || ActiveIntern in s.status
                                   || ActiveExtern in s.status || StageLive in s.status
  {
    var all := {StageIntern, StageExtern, ActiveIntern, ActiveExtern, StageLive};
    forall f | f in all ensures f in s.status ==> Visible(s.status) {
      assert f in s.status ==> f in s.status * all;
    }
  }

  lemma {:induction false} ExternIsClear(s: Scene, cmdTime: int, n: nat)
    requires Alone(s) && 1 <= n
    ensures var status := Steps(InitScene(s, 0, FadeIn, cmdTime).0, n).status;
            StageExtern !in status && ActiveExtern !in status && StageLive !in status
  {
    var from := InitScene(s, 0, FadeIn, cmdTime).0;
    assert StageLive !in from.status && StageExtern !in from.status;
    hide InitScene, Steps, Fades;
    OtherStagesStay(from, n);
    StepsLength(from, n);
    forall i | 0 <= i < |s.tubes| ensures Steps(from, n).tubes[i].lines[1].cmd == NoCmd {
      ExternStaysIdle(s, FadeIn, cmdTime, n, i);
    }
    InactiveWhenIdle(from, n, 1);
  }

  lemma {:induction false} VisibleDuringFadeIn(s: Scene, cmdTime: int, n: nat)
    requires Alone(s) && 1 <= n
    ensures var time := CmdTime(s, FadeIn, cmdTime);
            Visible(Steps(InitScene(s, 0, FadeIn, cmdTime).0, n).status) <==>
              StaysActive(s, time) || (n < StepCount(time) && AnyRises(s))
  {
    var from := InitScene(s, 0, FadeIn, cmdTime).0;
    ExternIsClear(s, cmdTime, n);
    FadeInStage(s, cmdTime, n);
    SomeRunsIff(s, cmdTime, n);
    LightIsLocal(s);
    hide InitScene, Dark, HasLight, HasLocalLight, AnyRises, SomeRuns, CmdTime, StepCount, Visible;
    var before := Steps(from, n - 1);
    assert Steps(from, n) == Step(before);
    StepFacts(before);
    VisibleIff(Steps(from, n));
  }

  lemma {:induction false} NextPass(s: Scene, n: nat)
    requires WellFormed(s) && 1 <= n
    ensures var before, h := Passes(Held(s, true), n - 1), Passes(Held(s, true), n);
            && (h.active <==> before.active && Visible(Steps(s, n).status))
            && (before.active ==> h.scene == Steps(s, n))
  {
    hide Step, Visible;
    PassesAre(s, n - 1);
  }

  lemma {:induction false} ActiveWhileVisible(s: Scene, stays: bool, rises: bool, until: nat, n: nat)
    requires WellFormed(s)
    requires forall k: nat :: 1 <= k ==> (Visible(Steps(s, k).status) <==> stays || (k < until && rises))
    ensures Passes(Held(s, true), n).active <==> n == 0 || stays || (n < until && rises)
    decreases n
  {
    hide Steps, Pass, WellFormed, Visible;
    if n > 0 {
      ActiveWhileVisible(s, stays, rises, until, n - 1);
      NextPass(s, n);
    }
  }

  /** A scene that gets FADEIN, after n passes of the light loop. */
  function FadedIn(s: Scene, cmdTime: int, n: nat): (r: Held)
    requires WellFormed(s)
    ensures WellFormed(r.scene)
  {
    Passes(Held(InitScene(s, 0, FadeIn, cmdTime).0, true), n)
  }

  function FadeInTicks(s: Scene, cmdTime: int): (k: nat)
    ensures 1 <= k
  {
    StepCount(CmdTime(s, FadeIn, cmdTime))
  }

  /** Exactly how long the light loop passes a scene that is faded in from dark. */
  lemma {:induction false} FadeInActiveIff(s: Scene, cmdTime: int, n: nat)
    requires Alone(s)
    ensures FadedIn(s, cmdTime, n).active <==>
              n == 0 || StaysActive(s, CmdTime(s, FadeIn, cmdTime)) || (n < FadeInTicks(s, cmdTime) && AnyRises(s))
  {
    assert WellFormed(s);
    hide Steps, Passes, Alone, WellFormed, StaysActive, AnyRises, CmdTime, StepCount, Visible;
    var time, from := CmdTime(s, FadeIn, cmdTime), InitScene(s, 0, FadeIn, cmdTime).0;
    forall k: nat | 1 <= k
      ensures Visible(Steps(from, k).status) <==> StaysActive(s, time) || (k < StepCount(time) && AnyRises(s))
    {
      VisibleDuringFadeIn(s, cmdTime, k);
    }
    hide InitScene;
    ActiveWhileVisible(from, StaysActive(s, time), AnyRises(s), StepCount(time), n);
  }

  /** As long as it is passed, and after the pass that gives it up, it stands where its fades have come. */
  lemma {:induction false} FadedInStands(s: Scene, cmdTime: int, n: nat)
    requires WellFormed(s) && 1 <= n && FadedIn(s, cmdTime, n - 1).active
    ensures FadedIn(s, cmdTime, n).scene == Steps(InitScene(s, 0, FadeIn, cmdTime).0, n)
  {
    hide InitScene, Steps, Passes, WellFormed;
    NextPass(InitScene(s, 0, FadeIn, cmdTime).0, n);
  }

  predicate AtTargets(s: Scene, at: Scene)
    requires WellFormed(s)
  {
    && |at.tubes| == |s.tubes|
    && forall i :: 0 <= i < |s.tubes| && Fades(s.tubes, i) ==>
         |at.tubes[i].lines| == 2 && at.tubes[i].lines[0].cur == Max(0, s.tubes[i].targetValue)
  }

  lemma {:induction false} FadeInArrives(s: Scene, cmdTime: int)
    requires Dark(s)
    ensures AtTargets(s, Steps(InitScene(s, 0, FadeIn, cmdTime).0, FadeInTicks(s, cmdTime)))
  {
    hide InitScene, Steps, Fades, StepCount, CmdTime;
    FadeInCompletes(s, cmdTime, FadeInTicks(s, cmdTime));
  }

  /**
   A scene without light to come is given up at the end of a fade-in of more than one tick, with all its faded
   tubes at their targets: the light loop drops them just when they have arrived.
   */
  lemma {:induction false} LightlessFadeInIsGivenUp(s: Scene, cmdTime: int)
    requires Alone(s) && !HasLight(s) && AnyRises(s) && 2 <= FadeInTicks(s, cmdTime)
    ensures var k := FadeInTicks(s, cmdTime);
            && FadedIn(s, cmdTime, k - 1).active && !FadedIn(s, cmdTime, k).active
            && AtTargets(s, FadedIn(s, cmdTime, k).scene)
  {
    var k := FadeInTicks(s, cmdTime);
    assert WellFormed(s) && Dark(s) && !StaysActive(s, CmdTime(s, FadeIn, cmdTime));
    hide FadedIn, AtTargets, FadeInTicks, Alone, Dark, WellFormed, AnyRises, HasLight, StaysActive, CmdTime;
    FadeInActiveIff(s, cmdTime, k - 1);
    FadeInActiveIff(s, cmdTime, k);
    FadedInStands(s, cmdTime, k);
    FadeInArrives(s, cmdTime);
  }

  /** One tube without a type of its own on a colour channel, faded in within one tick: on stage for ever, without any light. */
  lemma {:induction false} ColourStaysOnStage(fullValue: int, n: nat)
    requires 0 < fullValue && 1 <= n
    ensures var idle := MixLine(0, false, NoCmd, 0.0, 0.0, 0.0, 0.0);
            var colour := Tube([idle, idle], 100, fullValue, true, true, false, Plain, Single);
            var s := Scene([colour], {}, {}, [false, false], 0, 0);
            && Alone(s)
            && var h := FadedIn(s, 0, n);
               h.active && StageIntern in h.scene.status && !OnStage(h.scene.tubes) && !AnyRunning(h.scene, 0)
  {
    var idle := MixLine(0, false, NoCmd, 0.0, 0.0, 0.0, 0.0);
    var colour := Tube([idle, idle], 100, fullValue, true, true, false, Plain, Single);
    var s := Scene([colour], {}, {}, [false, false], 0, 0);
    assert Fades(s.tubes, 0) && s.tubes[0].targetValue > 0;
    assert Alone(s) && HasLocalLight(s) && !HasLight(s) && StepCount(CmdTime(s, FadeIn, 0)) == 1;
    hide InitScene, Step, Fades;
    FadeInActiveIff(s, 0, n);
    FadeInActiveIff(s, 0, n - 1);
    FadeInCompletes(s, 0, n);
    FadedInStands(s, 0, n);
  }

  // ----- A command in figures

  /** On either mix line a single faded tube takes the command; its other line and all other commands go on. */
  lemma {:induction false} FadedLine(s: Scene, mix: nat, cmd: CtrlCmd, cmdTime: int, n: nat, i: nat)
    requires WellFormed(s) && mix < 2 && IsSceneCmd(cmd) && i < |s.tubes| && Fades(s.tubes, i)
    ensures var time, at, t := CmdTime(s, cmd, cmdTime), Steps(InitScene(s, mix, cmd, cmdTime).0, n), s.tubes[i];
            && |at.tubes| == |s.tubes|
            && at.tubes[i].lines[mix] == Ticks(InitFade(t.lines[mix], cmd, time, 0, t.targetValue, t.fullValue).0, t.targetValue, n)
            && at.tubes[i].lines[1 - mix] == Ticks(t.lines[1 - mix], t.targetValue, n)
  {
    var time, from := CmdTime(s, cmd, cmdTime), InitScene(s, mix, cmd, cmdTime).0;
    assert from.tubes[i] == InitTube(s.tubes, i, mix, cmd, time);
    assert from.tubes[i].role == Single;
    hide InitScene, InitFade, Tick;
    StepsOfTube(from, n, i);
  }

  /**
   A command to a scene, in figures: without a time of its own it takes the default fade-in or fade-out time, BLACK
   none. A tube that accepts it runs it for a tick per 20 ms, at least one, and is then at its target or at 0.
   */
  lemma {:induction false} SceneCommandLasts(s: Scene, mix: nat, cmd: CtrlCmd, cmdTime: int, n: nat, i: nat)
    requires WellFormed(s) && mix < 2 && IsSceneCmd(cmd) && i < |s.tubes| && Fades(s.tubes, i)
    requires var t := s.tubes[i];
             Accepts(cmd, t.lines[mix].cur, t.targetValue, 0) && !(cmd.FadeTo? && t.lines[mix].cur == t.fullValue < 0)
    ensures var (r, active) := InitScene(s, mix, cmd, cmdTime);
            var at, t := Steps(r, n), s.tubes[i];
            var timeMs := if cmdTime != 0 then cmdTime
                          else if cmd.FadeOut? then s.fadeOutTime
                          else if cmd.Black? then 0 else s.fadeInTime;
            var ticks := if timeMs < 40 || (cmd.Black? && t.lines[mix].cur < 0) then 1 else timeMs / 20;
            && active && |at.tubes| == |s.tubes|
            && if n < ticks then at.tubes[i].lines[mix].cmd == cmd
               else
                 && at.tubes[i].lines[mix].cmd == NoCmd
                 && at.tubes[i].lines[mix].cur == if cmd.FadeIn? then t.targetValue else if cmd.FadeTo? then Min(0, t.fullValue) else 0
  {
    var time, t := CmdTime(s, cmd, cmdTime), s.tubes[i];
    AcceptedIff(t.lines[mix], cmd, time, 0, t.targetValue, t.fullValue);
    assert Starts(s.tubes, mix, cmd, time, i);
    FadedLine(s, mix, cmd, cmdTime, n, i);
    CommandLasts(t.lines[mix], cmd, time, 0, t.targetValue, t.fullValue, n);
    hide Steps, InitFade, Ticks, Fades;
  }

  // ----- Which tubes a command fades

  /** A coarse position channel and its fine one. */
  predicate Position16(coarse: Kind, fine: Kind) {
    (coarse == Pan && fine == PanFine) || (coarse == Tilt && fine == TiltFine)
  }

  lemma {:induction false} VisitedFresh(tubes: seq<Tube>, i: nat)
    requires i < |tubes| && forall k :: 0 <= k < |tubes| ==> tubes[k].role == Single
    ensures Visited(tubes, i) ==
            if i > 0 && tubes[i - 1].visible && Position16(tubes[i - 1].kind, tubes[i].kind) then Sub else Single
  {
    if i > 0 {
      VisitedFresh(tubes, i - 1);
    }
  }

  /**
   In a scene without pairs a command fades exactly the visible tubes that are no pan, tilt or speed channel and do
   not stand, as its fine channel, behind a visible pan or tilt channel; all others keep their lines.
   */
  lemma {:induction false} FadesIff(s: Scene, mix: nat, cmd: CtrlCmd, cmdTime: int, i: nat)
    requires WellFormed(s) && mix < 2 && i < |s.tubes| && forall k :: 0 <= k < |s.tubes| ==> s.tubes[k].role == Single
    ensures var t := s.tubes[i];
            Fades(s.tubes, i) <==>
              && t.visible && t.kind != Pan && t.kind != Tilt && t.kind != Speed
              && !(i > 0 && s.tubes[i - 1].visible && Position16(s.tubes[i - 1].kind, t.kind))
    ensures !Fades(s.tubes, i) ==> InitScene(s, mix, cmd, cmdTime).0.tubes[i].lines == s.tubes[i].lines
  {
    VisitedFresh(s.tubes, i);
    hide InitFade, Visited;
    if IsSceneCmd(cmd) {
      assert InitScene(s, mix, cmd, cmdTime).0.tubes[i] == InitTube(s.tubes, i, mix, cmd, CmdTime(s, cmd, cmdTime));
    }
  }

  /** It pairs exactly the visible coarse position channels with a fine one right behind them. */
  lemma {:induction false} PairsIff(s: Scene, mix: nat, cmd: CtrlCmd, cmdTime: int, i: nat)
    requires WellFormed(s) && mix < 2 && i < |s.tubes| && forall k :: 0 <= k < |s.tubes| ==> s.tubes[k].role == Single
    requires IsSceneCmd(cmd)
    ensures var role := InitScene(s, mix, cmd, cmdTime).0.tubes[i].role;
            && (role == Main <==> i + 1 < |s.tubes| && s.tubes[i].visible && Position16(s.tubes[i].kind, s.tubes[i + 1].kind))
            && (role == Sub <==> i > 0 && s.tubes[i - 1].visible && Position16(s.tubes[i - 1].kind, s.tubes[i].kind))
  {
    VisitedFresh(s.tubes, i);
    hide InitFade, Visited;
    assert InitScene(s, mix, cmd, cmdTime).0.tubes[i] == InitTube(s.tubes, i, mix, cmd, CmdTime(s, cmd, cmdTime));
  }

  /** A visible coarse channel that has lost its fine one is released, and so is its partner. */
  lemma {:induction false} ReleasedIff(s: Scene, mix: nat, cmd: CtrlCmd, cmdTime: int, i: nat)
    requires WellFormed(s) && mix < 2 && i < |s.tubes| && Visited(s.tubes, i) == Main && IsSceneCmd(cmd)
    ensures var r, t, next := InitScene(s, mix, cmd, cmdTime).0.tubes, s.tubes[i], s.tubes[i + 1];
            && (r[i].role == Single <==> t.visible && (t.kind == Pan || t.kind == Tilt) && !Position16(t.kind, next.kind))
            && (r[i].role == Main || r[i].role == Single)
            && (r[i].role == Main ==> r[i + 1].role == Sub)
            && (r[i].role == Single ==> Visited(s.tubes, i + 1) == Single)
  {
    hide InitFade;
    var r, time := InitScene(s, mix, cmd, cmdTime).0.tubes, CmdTime(s, cmd, cmdTime);
    assert r[i] == InitTube(s.tubes, i, mix, cmd, time) && r[i + 1] == InitTube(s.tubes, i + 1, mix, cmd, time);
  }

  // ----- Pairs

  /** Over any number of passes the two tubes of a pair follow the paired fade, on both mix lines. */
  lemma {:induction false} StepsOfPair(s: Scene, n: nat, i: nat, mix: nat)
    requires WellFormed(s) && i < |s.tubes| && s.tubes[i].role == Main && mix < 2
    ensures |Steps(s, n).tubes| == |s.tubes|
    ensures var p := PairTicks(PairOf(s.tubes, i, mix), s.tubes[i].targetValue, s.tubes[i].fullValue, n);
            && Steps(s, n).tubes[i].lines[mix] == p.coarse
            && Steps(s, n).tubes[i + 1].lines[mix] == WithFine(s.tubes[i + 1].lines[mix], p.fine)
  {
    hide Step, TickPair;
    if n > 0 {
      var before := Steps(s, n - 1);
      StepsOfPair(s, n - 1, i, mix);
      StepsKeepTube(s, n - 1, i);
      StepsKeepTube(s, n - 1, i + 1);
      StepFacts(before);
    }
  }

  /** A pair whose main tube is faded by the scene itself starts the paired fade to its combined target. */
  lemma {:induction false} PairTakesCommand(s: Scene, mix: nat, cmd: CtrlCmd, cmdTime: int, i: nat)
    requires WellFormed(s) && mix < 2 && IsSceneCmd(cmd) && i < |s.tubes|
    requires Visited(s.tubes, i) == Main && s.tubes[i].visible && s.tubes[i].kind == Plain
    ensures var r, t := InitScene(s, mix, cmd, cmdTime).0, s.tubes[i];
            && r.tubes[i].role == Main
            && PairOf(r.tubes, i, mix) == InitPair(PairOf(s.tubes, i, mix), cmd, CmdTime(s, cmd, cmdTime), 0, t.targetValue).0
  {
    var r, time := InitScene(s, mix, cmd, cmdTime).0, CmdTime(s, cmd, cmdTime);
    assert r.tubes[i] == InitTube(s.tubes, i, mix, cmd, time) && r.tubes[i + 1] == InitTube(s.tubes, i + 1, mix, cmd, time);
    hide InitFade;
  }

  // ----- The flags of a command

  /** All that a command does to the flags and the black-out memory of its mix line; it leaves the other line's alone. */
  lemma {:induction false} CommandFlags(s: Scene, mix: nat, cmd: CtrlCmd, cmdTime: int)
    requires WellFormed(s) && mix < 2 && IsSceneCmd(cmd)
    ensures var (r, active) := InitScene(s, mix, cmd, cmdTime);
            && (StageLive in r.status <==> StageLive in s.status) && r.last == s.last
            && (mix == 0 ==>
                  && (StageExtern in r.status <==> StageExtern in s.status)
                  && (ActiveExtern in r.status <==> ActiveExtern in s.status)
                  && (ActiveIntern in r.status <==> active)
                  && (cmd.FadeOut? || cmd.Black? ==> StageIntern !in r.status)
                  && (cmd.FadeIn? || cmd.FadeTo? ==>
                        (StageIntern in r.status <==> AnyDimmerStarts(s.tubes, mix, cmd, CmdTime(s, cmd, cmdTime)))))
            && (mix == 1 ==>
                  && (StageIntern in r.status <==> StageIntern in s.status)
                  && (ActiveIntern in r.status <==> ActiveIntern in s.status)
                  && (ActiveExtern in r.status <==> active)
                  && (StageExtern in r.status <==> cmd.FadeIn? || cmd.FadeTo?))
            && r.blacked[1 - mix] == s.blacked[1 - mix]
            && (r.blacked[mix] <==>
                  cmd.Black? && (s.blacked[mix] || (if mix == 1 then StageExtern in s.status else StageIntern in s.status)))
  {
    hide AnyStarts, AnyDimmerStarts, InitTubes, PairsRight;
  }

  /** A scene faded in on the extern line stays active until another command. */
  lemma {:induction false} ExternFadeInStays(s: Scene, cmdTime: int, n: nat)
    requires WellFormed(s)
    ensures Passes(Held(InitScene(s, 1, FadeIn, cmdTime).0, true), n) == Held(Steps(InitScene(s, 1, FadeIn, cmdTime).0, n), true)
  {
    var from := InitScene(s, 1, FadeIn, cmdTime).0;
    CommandFlags(s, 1, FadeIn, cmdTime);
    hide InitScene, Step, WellFormed, Visible;
    if n > 0 {
      ExternFadeInStays(s, cmdTime, n - 1);
      OtherStagesStay(from, n);
      VisibleIff(Steps(from, n));
    }
  }
}
