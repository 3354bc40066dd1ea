/** A scene as an object, proved against SceneFade: commands to its tubes, ticks and status flags. */
module SceneItems {
  import opened Common
  import opened DmxFade
  import opened PairedFade
  import opened DmxChannels
  import opened SceneFade
  import SceneRun

  // Channel types, as numbered by the program.
  const DMX_GENERIC := 0
  const DMX_POSITION_PAN := 35
  const DMX_POSITION_PAN_FINE := 36
  const DMX_POSITION_TILT := 37
  const DMX_POSITION_TILT_FINE := 38
  const DMX_SPEED_PAN_TILT_SLOW_FAST := 45
  const DMX_SPEED_PAN_TILT_FAST_SLOW := 46

  function KindOf(dmxType: int): Kind {
    if dmxType == DMX_POSITION_PAN then Pan
    else if dmxType == DMX_POSITION_PAN_FINE then PanFine
    else if dmxType == DMX_POSITION_TILT then Tilt
    else if dmxType == DMX_POSITION_TILT_FINE then TiltFine
    else if dmxType == DMX_SPEED_PAN_TILT_SLOW_FAST || dmxType == DMX_SPEED_PAN_TILT_FAST_SLOW then Speed
    else Plain
  }

  class FxSceneItem {
    const globalDmxType: (int, int) -> int  // channel type in the universe layout
    var tubes: seq<DmxChannel>
    var myStatus: set<SceneFlag>
    var mLastStatus: set<SceneFlag>
    var wasBlacked: seq<bool>
    var defaultFadeInTime: int
    var defaultFadeOutTime: int

    constructor (globalDmxType: (int, int) -> int)
      ensures Valid() && tubes == [] && myStatus == {} && mLastStatus == {} && this.globalDmxType == globalDmxType
    {
      this.globalDmxType := globalDmxType;
      tubes, myStatus, mLastStatus, wasBlacked := [], {}, {}, [false, false];
      defaultFadeInTime, defaultFadeOutTime := 0, 0;
    }

    ghost predicate Valid()
      reads this, tubes
    {
      |wasBlacked| == 2 && TubesRight(tubes)
    }

    ghost predicate TubesRight(ts: seq<DmxChannel>)
      reads ts
    {
      AllDifferent(ts) && Sound(ts) && Linked(ts)
    }

    ghost predicate AllDifferent(ts: seq<DmxChannel>) {
      forall i, j :: 0 <= i < j < |ts| ==> ts[i] != ts[j]
    }

    ghost predicate Sound(ts: seq<DmxChannel>)
      reads ts
    {
      forall i :: 0 <= i < |ts| ==> ts[i].Valid() && ts[i].targetFullValue != 0
    }

    /** A paired main tube has the next tube as its partner. */
    ghost predicate Linked(ts: seq<DmxChannel>)
      reads ts`isPairedMain, ts`isPairedSub, ts`pairedDmxChannel
    {
      forall i :: 0 <= i < |ts| ==> LinkedAt(ts, i)
    }

    ghost predicate LinkedAt(ts: seq<DmxChannel>, i: nat)
      requires i < |ts|
      reads ts`isPairedMain, ts`isPairedSub, ts`pairedDmxChannel
    {
      if ts[i].isPairedMain
      then !ts[i].isPairedSub && i + 1 < |ts| && ts[i].pairedDmxChannel == ts[i + 1] && ts[i + 1].isPairedSub
      else ts[i].pairedDmxChannel == null
    }

    function TypeOf(tube: DmxChannel): int
      reads tube`dmxType, tube`dmxUniverse, tube`dmxChannel
    {
      if tube.dmxType > DMX_GENERIC then tube.dmxType else globalDmxType(tube.dmxUniverse, tube.dmxChannel)
    }

    function RoleOf(tube: DmxChannel): Role
      reads tube`isPairedSub, tube`isPairedMain
    {
      if tube.isPairedSub then Sub else if tube.isPairedMain then Main else Single
    }

    /** What neither commands nor ticks change in a tube. */
    function SetupOf(tube: DmxChannel): Tube
      reads tube`targetValue, tube`targetFullValue, tube`deskVisibleFlag, tube`dmxType, tube`dmxUniverse, tube`dmxChannel
    {
      Tube([], tube.targetValue, tube.targetFullValue, tube.deskVisibleFlag,
           tube.dmxType < DMX_POSITION_PAN, TypeOf(tube) < DMX_POSITION_PAN, KindOf(TypeOf(tube)), Single)
    }

    function LinesOf(tube: DmxChannel): (ls: seq<MixLine>)
      requires tube.Valid()
      reads tube`curValue, tube`curValueChanged, tube`curCmd
      reads tube`fadeStartValue, tube`fadeTargetValue, tube`fadeValue, tube`fadeStep
      ensures |ls| == 2
    {
      [tube.Line(0), tube.Line(1)]
    }

    function TubeOf(tube: DmxChannel): (t: Tube)
      requires tube.Valid()
      reads tube`targetValue, tube`targetFullValue, tube`deskVisibleFlag, tube`dmxType, tube`dmxUniverse, tube`dmxChannel
      reads tube`curValue, tube`curValueChanged, tube`curCmd
      reads tube`fadeStartValue, tube`fadeTargetValue, tube`fadeValue, tube`fadeStep
      reads tube`isPairedSub, tube`isPairedMain
      ensures |t.lines| == 2
    {
      SetupOf(tube).(lines := LinesOf(tube), role := RoleOf(tube))
    }

    /** The type set on the tube counts, else the one of its channel in the universe layout; the types by their numbers. */
    lemma {:induction false} KindIsByNumber(tube: DmxChannel)
      requires tube.Valid()
      ensures var layout := globalDmxType(tube.dmxUniverse, tube.dmxChannel);
        var number, t := if tube.dmxType > 0 then tube.dmxType else layout, TubeOf(tube);
        && (t.kind == Pan <==> number == 35) && (t.kind == PanFine <==> number == 36)
        && (t.kind == Tilt <==> number == 37) && (t.kind == TiltFine <==> number == 38)
        && (t.kind == Speed <==> number == 45 || number == 46)
        && (t.dimmer <==> number < 35) && (t.localDimmer <==> tube.dmxType < 35)
        && t.targetValue == tube.targetValue && t.fullValue == tube.targetFullValue && t.visible == tube.deskVisibleFlag
        && t.lines == [tube.Line(0), tube.Line(1)]
    {
    }

    lemma {:induction false} TubesArePaired(ts: seq<DmxChannel>, r: seq<Tube>)
      requires TubesRight(ts) && |r| == |ts| && forall i :: 0 <= i < |ts| ==> r[i] == TubeOf(ts[i])
      ensures PairsRight(r)
    {
      hide DmxChannel.Valid, LinesOf, AllDifferent;
      forall i | 0 <= i < |r| && r[i].role == Main ensures i + 1 < |r| && r[i + 1].role == Sub {
        assert LinkedAt(ts, i);
      }
    }

    ghost function TubesOf(ts: seq<DmxChannel>): (r: seq<Tube>)
      requires TubesRight(ts)
      reads ts
      ensures |r| == |ts| && forall i :: 0 <= i < |r| ==> r[i] == TubeOf(ts[i])
      ensures PairsRight(r)
    {
      var r := seq(|ts|, i requires 0 <= i < |ts| && TubesRight(ts) reads ts => TubeOf(ts[i]));
      TubesArePaired(ts, r);
      r
    }

    ghost function Tubes(): (r: seq<Tube>)
      requires Valid()
      reads this, tubes
      ensures |r| == |tubes| && PairsRight(r)
    {
      TubesOf(tubes)
    }

    ghost function Now(): (s: Scene)
      requires Valid()
      reads this, tubes
      ensures WellFormed(s)
    {
      Scene(Tubes(), myStatus, mLastStatus, wasBlacked, defaultFadeInTime, defaultFadeOutTime)
    }

    /**
     Starts a command on all desk-visible tubes; false if no tube starts a fade. What moving tubes start in the
     hidden scene that moves them is not part of this model.
     */
    method InitSceneCommand(mixline: nat, cmd: CtrlCmd, cmdTime: int) returns (active: bool)
      requires Valid() && mixline < MIX_LINES
      modifies this`myStatus, this`wasBlacked
      modifies tubes`curCmd, tubes`fadeStartValue, tubes`fadeTargetValue, tubes`fadeValue, tubes`fadeStep
      modifies tubes`pairedDmxChannel, tubes`isPairedMain, tubes`isPairedSub
      ensures Valid()
      ensures (Now(), active) == InitScene(old(Now()), mixline, cmd, cmdTime)
    {
      hide InitTubes, AnyStarts, AnyDimmerStarts, Announce, FlagsStarted, TubesRight, TubesOf, PairsRight;
      ghost var before := Now();
      var known, time := AnnounceCommand(mixline, cmd);
      if !known {
        return false;
      }
      if cmdTime != 0 {
        time := cmdTime;
      }
      assert time == CmdTime(before, cmd, cmdTime);
      hide CmdTime, Valid;
      assert Tubes() == before.tubes;
      active := StartTubes(mixline, cmd, time);
    }

    /** Starts the command on the tubes and sets the flags by what has started. */
    method StartTubes(mixline: nat, cmd: CtrlCmd, timeMs: int) returns (active: bool)
      requires Valid() && mixline < MIX_LINES
      modifies this`myStatus
      modifies tubes`curCmd, tubes`fadeStartValue, tubes`fadeTargetValue, tubes`fadeValue, tubes`fadeStep
      modifies tubes`pairedDmxChannel, tubes`isPairedMain, tubes`isPairedSub
      ensures Valid()
      ensures var before := old(Tubes());
        && Tubes() == InitTubes(before, mixline, cmd, timeMs)
        && active == AnyStarts(before, mixline, cmd, timeMs)
        && myStatus == FlagsStarted(old(myStatus), mixline, cmd, active, AnyDimmerStarts(before, mixline, cmd, timeMs))
    {
      hide InitTubes, AnyStarts, AnyDimmerStarts, FlagsStarted, TubesRight, TubesOf;
      ghost var before := Tubes();
      var onStage;
      active, onStage := InitTubeCommands(mixline, cmd, timeMs, before);
      SettleCommand(mixline, cmd, active, onStage);
    }

    method SettleCommand(mixline: nat, cmd: CtrlCmd, active: bool, onStage: bool)
      requires Valid() && mixline < MIX_LINES
      modifies this`myStatus
      ensures Valid() && Tubes() == old(Tubes())
      ensures myStatus == FlagsStarted(old(myStatus), mixline, cmd, active, onStage)
    {
      hide PairsRight, TubesRight, TubesOf;
      if mixline == MIX_INTERN && (cmd == FadeIn || cmd == FadeTo) && !onStage {
        myStatus := myStatus - {StageIntern};
      }
      if active {
        myStatus := myStatus + {ActiveFlag(mixline)};
      } else {
        myStatus := myStatus - {ActiveFlag(mixline)};
      }
    }

    /** Sets the stage flag for a scene command and picks its default time; false for other commands. */
    method AnnounceCommand(mixline: nat, cmd: CtrlCmd) returns (known: bool, time: int)
      requires Valid() && mixline < MIX_LINES
      modifies this`myStatus, this`wasBlacked
      ensures Valid() && Tubes() == old(Tubes())
      ensures known == IsSceneCmd(cmd)
      ensures known ==> (myStatus, wasBlacked) == Announce(old(Now()), mixline, cmd) && time == CmdTime(old(Now()), cmd, 0)
      ensures !known ==> myStatus == old(myStatus) && wasBlacked == old(wasBlacked)
    {
      hide TubesRight, TubesOf;
      known, time := true, 0;
      var stage := StageFlag(mixline);
      match cmd {
        case Black =>
          if stage in myStatus {
            myStatus := myStatus - {stage};
            wasBlacked := wasBlacked[mixline := true];
          }
        case FadeIn =>
          time := defaultFadeInTime;
          myStatus := myStatus + {stage};
          wasBlacked := wasBlacked[mixline := false];
        case FadeOut =>
          time := defaultFadeOutTime;
          myStatus := myStatus - {stage};
          wasBlacked := wasBlacked[mixline := false];
        case FadeTo =>
          time := defaultFadeInTime;
          myStatus := myStatus + {stage};
          wasBlacked := wasBlacked[mixline := false];
        case _ =>
          known := false;
      }
    }

    // ----- A command to each tube

    method InitTubeCommands(mixline: nat, cmd: CtrlCmd, timeMs: int, ghost before: seq<Tube>)
        returns (active: bool, onStage: bool)
      requires TubesRight(tubes) && TubesOf(tubes) == before && mixline < MIX_LINES
      modifies tubes`curCmd, tubes`fadeStartValue, tubes`fadeTargetValue, tubes`fadeValue, tubes`fadeStep
      modifies tubes`pairedDmxChannel, tubes`isPairedMain, tubes`isPairedSub
      ensures TubesRight(tubes) && TubesOf(tubes) == InitTubes(before, mixline, cmd, timeMs)
      ensures active == AnyStarts(before, mixline, cmd, timeMs)
      ensures onStage == AnyDimmerStarts(before, mixline, cmd, timeMs)
    {
      hide CommandedUpTo, AnyStarts, AnyDimmerStarts, InitTubes, TubesRight, TubesOf, PairsRight;
      NoneCommanded(before, mixline, cmd, timeMs);
      active, onStage := false, false;
      for t := 0 to |tubes|
        invariant CommandedUpTo(before, t, mixline, cmd, timeMs, active, onStage)
      {
        var ok, dimmer := InitNextTube(tubes[t], t, before, mixline, cmd, timeMs, active, onStage);
        active := active || ok;
        onStage := onStage || (ok && dimmer);
      }
      AllCommanded(before, mixline, cmd, timeMs, active, onStage);
    }

    /** The first t tubes have had the command; whether one of them, and whether a dimmer, has started. */
    ghost predicate CommandedUpTo(before: seq<Tube>, t: nat, mixline: nat, cmd: CtrlCmd, timeMs: int, active: bool, onStage: bool)
      reads this, tubes
    {
      && TubesRight(tubes) && PairsRight(before) && t <= |before| == |tubes| && mixline < MIX_LINES
      && CommandedTo(TubesOf(tubes), before, t, mixline, cmd, timeMs)
      && active == StartsAmong(before, mixline, cmd, timeMs, t, false)
      && onStage == StartsAmong(before, mixline, cmd, timeMs, t, true)
    }

    lemma {:induction false} NoneCommanded(before: seq<Tube>, mixline: nat, cmd: CtrlCmd, timeMs: int)
      requires TubesRight(tubes) && TubesOf(tubes) == before && mixline < MIX_LINES
      ensures CommandedUpTo(before, 0, mixline, cmd, timeMs, false, false)
    {
      assert PairsRight(before);
      hide TubesRight, TubesOf, PairsRight;
    }

    lemma {:induction false} AllCommanded(before: seq<Tube>, mixline: nat, cmd: CtrlCmd, timeMs: int, active: bool, onStage: bool)
      requires CommandedUpTo(before, |tubes|, mixline, cmd, timeMs, active, onStage)
      ensures TubesRight(tubes) && PairsRight(before) && mixline < MIX_LINES
      ensures TubesOf(tubes) == InitTubes(before, mixline, cmd, timeMs)
      ensures active == AnyStarts(before, mixline, cmd, timeMs) && onStage == AnyDimmerStarts(before, mixline, cmd, timeMs)
    {
      hide TubesRight, TubesOf, PairsRight, CommandedTo, StartsAmong;
      CommandDone(TubesOf(tubes), before, mixline, cmd, timeMs);
    }

    method InitNextTube(tube: DmxChannel, t: nat, ghost before: seq<Tube>, mixline: nat, cmd: CtrlCmd, timeMs: int,
                        ghost active: bool, ghost onStage: bool)
        returns (ok: bool, dimmer: bool)
      requires CommandedUpTo(before, t, mixline, cmd, timeMs, active, onStage) && t < |tubes| && tube == tubes[t]
      modifies tube`curCmd, tube`fadeStartValue, tube`fadeTargetValue, tube`fadeValue, tube`fadeStep
      modifies tubes`pairedDmxChannel, tubes`isPairedMain, tubes`isPairedSub
      ensures CommandedUpTo(before, t + 1, mixline, cmd, timeMs, active || ok, onStage || (ok && dimmer))
    {
      hide TubesRight, TubesOf, PairsRight, CommandedTo, StartsAmong, InitLine;
      StartsNext(before, mixline, cmd, timeMs, t, false);
      StartsNext(before, mixline, cmd, timeMs, t, true);
      ok, dimmer := InitTubeAt(tube, t, before, mixline, cmd, timeMs);
    }

    method InitTubeAt(tube: DmxChannel, t: nat, ghost before: seq<Tube>, mixline: nat, cmd: CtrlCmd, timeMs: int)
        returns (ok: bool, dimmer: bool)
      requires TubesRight(tubes) && t < |tubes| && tube == tubes[t]
      requires PairsRight(before) && |before| == |tubes| && mixline < MIX_LINES
      requires CommandedTo(TubesOf(tubes), before, t, mixline, cmd, timeMs)
      modifies tube`curCmd, tube`fadeStartValue, tube`fadeTargetValue, tube`fadeValue, tube`fadeStep
      modifies tubes`pairedDmxChannel, tubes`isPairedMain, tubes`isPairedSub
      ensures TubesRight(tubes) && CommandedTo(TubesOf(tubes), before, t + 1, mixline, cmd, timeMs)
      ensures ok == InitLine(before, t, mixline, cmd, timeMs).1 && dimmer == before[t].localDimmer
    {
      dimmer := tube.dmxType < DMX_POSITION_PAN;
      ghost var now := TubesOf(tubes);
      ReadTube(tubes, t);
      assert dimmer == before[t].localDimmer;
      hide TubesRight, TubesOf, CommandedTo, InitLine;
      if tube.isPairedSub || !tube.deskVisibleFlag {
        CommandSkips(now, before, t, mixline, cmd, timeMs);
        return false, dimmer;
      }
      PairTube(tube, t);
      if Moves(KindOf(TypeOf(tube))) {
        CommandMoves(now, before, t, mixline, cmd, timeMs);
        return false, dimmer;
      }
      CommandFades(now, before, t, mixline, cmd, timeMs);
      ok := FadeTubeAt(tube, t, mixline, cmd, timeMs);
    }

    lemma {:induction false} ReadTube(ts: seq<DmxChannel>, t: nat)
      requires TubesRight(ts) && t < |ts|
      ensures var tube, value := ts[t], TubesOf(ts)[t];
              && (tube.dmxType < DMX_POSITION_PAN) == value.localDimmer && tube.deskVisibleFlag == value.visible
              && KindOf(TypeOf(tube)) == value.kind && RoleOf(tube) == value.role
    {
    }

    /** Pairs a coarse position tube with the fine one behind it, or releases it. */
    method PairTube(tube: DmxChannel, t: nat)
      requires TubesRight(tubes) && t < |tubes| && tube == tubes[t] && !tube.isPairedSub
      modifies tubes`pairedDmxChannel, tubes`isPairedMain, tubes`isPairedSub
      ensures TubesRight(tubes) && TypeOf(tube) == old(TypeOf(tube))
      ensures TubesOf(tubes) == PairAtTube(old(TubesOf(tubes)), t)
      ensures !CanPair(KindOf(TypeOf(tube))) ==> tube.isPairedSub == old(tube.isPairedSub)
    {
      ghost var now := TubesOf(tubes);
      hide TubesRight, TubeOf, PairAtTube, Fits, CanPair;
      PairTwo(tube, t);
      PairedAtTube(now, TubesOf(tubes), t);
    }

    method PairTwo(tube: DmxChannel, t: nat)
      requires TubesRight(tubes) && t < |tubes| && tube == tubes[t] && !tube.isPairedSub
      modifies tubes`pairedDmxChannel, tubes`isPairedMain, tubes`isPairedSub
      ensures TubesRight(tubes)
      ensures forall i :: 0 <= i < |tubes| && i != t && i != t + 1 ==> TubeOf(tubes[i]) == old(TubeOf(tubes[i]))
      ensures var was := old(TubeOf(tube));
        if t + 1 < |tubes| && CanPair(was.kind) then
          var next := old(TubeOf(tubes[t + 1]));
          if Fits(was.kind, next.kind) then TubeOf(tube) == was.(role := Main) && TubeOf(tubes[t + 1]) == next.(role := Sub)
          else
            && TubeOf(tube) == was.(role := Single)
            && TubeOf(tubes[t + 1]) == next.(role := if was.role == Main then Single else next.role)
        else TubeOf(tube) == was && (t + 1 < |tubes| ==> TubeOf(tubes[t + 1]) == old(TubeOf(tubes[t + 1])))
      ensures !CanPair(KindOf(TypeOf(tube))) ==> tube.isPairedSub == old(tube.isPairedSub)
    {
      hide LinesOf, Linked, DmxChannel.Valid;
      LinkTube(tube, t);
    }

    /** The same, by the roles. */
    method LinkTube(tube: DmxChannel, t: nat)
      requires AllDifferent(tubes) && Linked(tubes) && t < |tubes| && tube == tubes[t] && !tube.isPairedSub
      modifies tubes`pairedDmxChannel, tubes`isPairedMain, tubes`isPairedSub
      ensures Linked(tubes)
      ensures forall i :: 0 <= i < |tubes| && i != t && i != t + 1 ==> RoleOf(tubes[i]) == old(RoleOf(tubes[i]))
      ensures var kind := KindOf(TypeOf(tube));
        if t + 1 < |tubes| && CanPair(kind) then
          if Fits(kind, KindOf(TypeOf(tubes[t + 1]))) then RoleOf(tube) == Main && RoleOf(tubes[t + 1]) == Sub
          else RoleOf(tube) == Single &&
               RoleOf(tubes[t + 1]) == if old(RoleOf(tube)) == Main then Single else old(RoleOf(tubes[t + 1]))
        else RoleOf(tube) == old(RoleOf(tube)) && (t + 1 < |tubes| ==> RoleOf(tubes[t + 1]) == old(RoleOf(tubes[t + 1])))
    {
      if t + 1 < |tubes| {
        var next := tubes[t + 1];
        assert LinkedAt(tubes, t) && (t > 0 ==> LinkedAt(tubes, t - 1));
        if Fits(KindOf(TypeOf(tube)), KindOf(TypeOf(next))) {
          var ok := tube.SetPairedWith(next);
        } else if CanPair(KindOf(TypeOf(tube))) {
          var ok := tube.ClrPairedWith();
        }
        forall i | 0 <= i < |tubes| ensures LinkedAt(tubes, i) {
          assert old(LinkedAt(tubes, i));
          assert i != t && i != t + 1 ==> tubes[i] != tube && tubes[i] != next;
        }
      }
    }

    /** The command to a tube, single or main of a pair. */
    method FadeTubeAt(tube: DmxChannel, t: nat, mixline: nat, cmd: CtrlCmd, timeMs: int) returns (ok: bool)
      requires TubesRight(tubes) && mixline < MIX_LINES && t < |tubes| && tube == tubes[t] && !tube.isPairedSub
      modifies tube`curCmd, tube`fadeStartValue, tube`fadeTargetValue, tube`fadeValue, tube`fadeStep
      ensures TubesRight(tubes)
      ensures (TubesOf(tubes), ok) == FadeAtTube(old(TubesOf(tubes)), t, mixline, cmd, timeMs)
    {
      assert LinkedAt(tubes, t);
      ghost var now := TubesOf(tubes);
      hide TubeOf, Linked, InitFade, InitPair, DmxChannel.Valid;
      ghost var fine := if t + 1 < |tubes| then now[t + 1] else now[t];
      ok := FadeTube(tube, now[t], fine, mixline, cmd, timeMs);
      assert TubesOf(tubes) == FadeAtTube(now, t, mixline, cmd, timeMs).0;
    }

    method FadeTube(tube: DmxChannel, ghost was: Tube, ghost fine: Tube, mixline: nat, cmd: CtrlCmd, timeMs: int) returns (ok: bool)
      requires tube.Valid() && mixline < MIX_LINES && !tube.isPairedSub && TubeOf(tube) == was && |fine.lines| == 2
      requires tube.isPairedMain ==>
        tube.pairedDmxChannel != null && tube.pairedDmxChannel.Valid() && TubeOf(tube.pairedDmxChannel) == fine
      modifies tube`curCmd, tube`fadeStartValue, tube`fadeTargetValue, tube`fadeValue, tube`fadeStep
      ensures tube.Valid() && (was.role == Main) == tube.isPairedMain
      ensures var (l, started) :=
          if was.role == Main then
            var (p, s) := InitPair(PairOfTwo(was, fine, mixline), cmd, timeMs, 0, was.targetValue); (p.coarse, s)
          else InitFade(was.lines[mixline], cmd, timeMs, 0, was.targetValue, was.fullValue);
        TubeOf(tube) == was.(lines := was.lines[mixline := l]) && ok == started
    {
      assert tube.isPairedMain ==> tube.PairAt(mixline) == PairOfTwo(was, fine, mixline);
      assert (was.role == Main) == tube.isPairedMain && tube.Line(mixline) == was.lines[mixline];
      hide InitFade, InitPair, PairOfTwo, LinesOf;
      ok := FadeLine(tube, mixline, cmd, timeMs);
    }

    method FadeLine(tube: DmxChannel, mixline: nat, cmd: CtrlCmd, timeMs: int) returns (ok: bool)
      requires tube.Valid() && mixline < MIX_LINES && !tube.isPairedSub
      requires tube.isPairedMain ==> tube.pairedDmxChannel != null && tube.pairedDmxChannel.Valid()
      modifies tube`curCmd, tube`fadeStartValue, tube`fadeTargetValue, tube`fadeValue, tube`fadeStep
      ensures tube.Valid()
      ensures var (l, started) :=
          if tube.isPairedMain then
            var (p, s) := InitPair(old(tube.PairAt(mixline)), cmd, timeMs, 0, tube.targetValue); (p.coarse, s)
          else InitFade(old(tube.Line(mixline)), cmd, timeMs, 0, tube.targetValue, tube.targetFullValue);
        LinesOf(tube) == old(LinesOf(tube))[mixline := l] && ok == started
    {
      hide InitFade, InitPair;
      ok := tube.InitFadeCmd(mixline, cmd, timeMs, 0);
      assert LinesOf(tube) == old(LinesOf(tube))[mixline := tube.Line(mixline)];
    }

    /** Some dimmer is above 0 on the intern mix line. */
    method EvaluateOnStageIntern() returns (onStage: bool)
      requires Valid()
      ensures onStage <==> OnStage(Tubes())
      ensures onStage <==> exists t ::
        && 0 <= t < |tubes| && tubes[t].curValue[0] > 0
        && (if tubes[t].dmxType > 0 then tubes[t].dmxType else globalDmxType(tubes[t].dmxUniverse, tubes[t].dmxChannel)) < 35
    {
      hide PairsRight;
      for t := 0 to |tubes|
        invariant forall i :: 0 <= i < t ==> !(TubeOf(tubes[i]).dimmer && TubeOf(tubes[i]).lines[0].cur > 0)
      {
        if TypeOf(tubes[t]) < DMX_POSITION_PAN && 0 < tubes[t].curValue[MIX_INTERN] {
          assert Tubes()[t].dimmer && Tubes()[t].lines[0].cur > 0;
          return true;
        }
      }
      return false;
    }

    /** One tick of all tubes; true while a tube runs a command. */
    method LoopFunction() returns (active: bool)
      requires Valid()
      modifies this`myStatus
      modifies tubes`curCmd, tubes`fadeValue, tubes`curValue, tubes`curValueChanged
      ensures Valid()
      ensures (Now(), active) == TickScene(old(Now()))
    {
      hide TickTubes, SomeRuns, OnStage, FlagsAfter, TubesRight, TubesOf;
      ghost var before := Now();
      var activeAuto, activeDirect := TickAllTubes(before.tubes);
      assert Tubes() == TickTubes(before.tubes);
      UpdateFlags(activeAuto, activeDirect);
      assert Tubes() == TickTubes(before.tubes);
      return activeAuto || activeDirect;
    }

    method UpdateFlags(activeAuto: bool, activeDirect: bool)
      requires Valid()
      modifies this`myStatus
      ensures Valid() && Tubes() == old(Tubes())
      ensures myStatus == FlagsAfter(old(myStatus), mLastStatus, activeAuto, activeDirect, OnStage(Tubes()))
    {
      hide OnStage, PairsRight, TubesRight, TubesOf;
      ghost var before := Tubes();
      if activeAuto {
        myStatus := myStatus + {ActiveIntern};
      } else {
        myStatus := myStatus - {ActiveIntern};
        if ActiveIntern in mLastStatus {
          var onStage := EvaluateOnStageIntern();
          assert Tubes() == before;
          assert onStage == OnStage(before);
          if !onStage {
            myStatus := myStatus - {StageIntern};
          }
        }
      }
      if activeDirect {
        myStatus := myStatus + {ActiveExtern};
      } else {
        myStatus := myStatus - {ActiveExtern};
      }
      assert myStatus == FlagsAfter(old(myStatus), mLastStatus, activeAuto, activeDirect, OnStage(before));
      hide FlagsAfter;
      assert Tubes() == before;
    }

    // ----- A tick of each tube

    method TickAllTubes(ghost before: seq<Tube>) returns (activeAuto: bool, activeDirect: bool)
      requires TubesRight(tubes) && TubesOf(tubes) == before
      modifies tubes`curCmd, tubes`fadeValue, tubes`curValue, tubes`curValueChanged
      ensures TubesRight(tubes) && TubesOf(tubes) == TickTubes(before)
      ensures activeAuto == SomeRuns(before, 0) && activeDirect == SomeRuns(before, 1)
    {
      hide TickedUpTo, SomeRuns, TickTubes, TubesRight, TubesOf, PairsRight;
      NoneTicked(before);
      activeAuto, activeDirect := false, false;
      for t := 0 to |tubes|
        invariant TickedUpTo(before, t, activeAuto, activeDirect)
      {
        var auto, direct := TickNextTube(tubes[t], t, before, activeAuto, activeDirect);
        activeAuto := activeAuto || auto;
        activeDirect := activeDirect || direct;
      }
      AllTicked(before, activeAuto, activeDirect);
    }

    /** The first t tubes have had their tick; whether one of them runs a command on each mix line. */
    ghost predicate TickedUpTo(before: seq<Tube>, t: nat, activeAuto: bool, activeDirect: bool)
      reads this, tubes
    {
      && TubesRight(tubes) && PairsRight(before) && t <= |before| == |tubes| && TickedTo(TubesOf(tubes), before, t)
      && activeAuto == RunsAmong(before, 0, t) && activeDirect == RunsAmong(before, 1, t)
    }

    lemma {:induction false} NoneTicked(before: seq<Tube>)
      requires TubesRight(tubes) && TubesOf(tubes) == before
      ensures TickedUpTo(before, 0, false, false)
    {
      assert PairsRight(before);
      hide TubesRight, TubesOf, PairsRight;
    }

    lemma {:induction false} AllTicked(before: seq<Tube>, activeAuto: bool, activeDirect: bool)
      requires TickedUpTo(before, |tubes|, activeAuto, activeDirect)
      ensures TubesRight(tubes) && PairsRight(before) && TubesOf(tubes) == TickTubes(before)
      ensures activeAuto == SomeRuns(before, 0) && activeDirect == SomeRuns(before, 1)
    {
      hide TubesRight, TubesOf, PairsRight, TickedTo, RunsAmong, SomeRuns;
      TickDone(TubesOf(tubes), before);
    }

    method TickNextTube(tube: DmxChannel, t: nat, ghost before: seq<Tube>, ghost activeAuto: bool, ghost activeDirect: bool)
        returns (auto: bool, direct: bool)
      requires TickedUpTo(before, t, activeAuto, activeDirect) && t < |tubes| && tube == tubes[t]
      modifies tubes`curCmd, tubes`fadeValue, tubes`curValue, tubes`curValueChanged
      ensures TickedUpTo(before, t + 1, activeAuto || auto, activeDirect || direct)
    {
      hide TubesRight, TubesOf, PairsRight, TickedTo, RunsAmong, TickLine, TickAtTube;
      TickedNext(TubesOf(tubes), before, t);
      RunsNext(before, 0, t);
      RunsNext(before, 1, t);
      auto, direct := TickTubeAt(tube, t);
    }

    method TickTubeAt(tube: DmxChannel, t: nat) returns (auto: bool, direct: bool)
      requires TubesRight(tubes) && t < |tubes| && tube == tubes[t]
      modifies tubes`curCmd, tubes`fadeValue, tubes`curValue, tubes`curValueChanged
      ensures TubesRight(tubes) && (TubesOf(tubes), auto, direct) == TickAtTube(old(TubesOf(tubes)), t)
    {
      ReadTube(tubes, t);
      ghost var now := TubesOf(tubes);
      assert LinkedAt(tubes, t);
      hide TubesRight, TubesOf, Tick, TickPair;
      if tube.isPairedSub {
        auto, direct := TickSubAt(tube, t);
      } else if tube.isPairedMain {
        auto, direct := TickMainAt(tube, t);
      } else {
        auto, direct := TickSingleAt(tube, t);
      }
    }

    method TickSubAt(tube: DmxChannel, t: nat) returns (auto: bool, direct: bool)
      requires TubesRight(tubes) && t < |tubes| && tube == tubes[t] && tube.isPairedSub
      modifies tube`curCmd, tube`fadeValue, tube`curValue, tube`curValueChanged
      ensures TubesRight(tubes) && TubesOf(tubes) == old(TubesOf(tubes)) && !auto && !direct
    {
      assert LinkedAt(tubes, t);
      ghost var now := TubesOf(tubes);
      hide TubeOf, Linked, DmxChannel.Valid;
      auto, direct := TickSub(tube);
      assert TubesOf(tubes) == now;
    }

    method TickSub(tube: DmxChannel) returns (auto: bool, direct: bool)
      requires tube.Valid() && tube.isPairedSub && !tube.isPairedMain
      modifies tube`curCmd, tube`fadeValue, tube`curValue, tube`curValueChanged
      ensures tube.Valid() && TubeOf(tube) == old(TubeOf(tube)) && !auto && !direct
    {
      auto := tube.LoopFunction(MIX_INTERN);
      direct := tube.LoopFunction(MIX_EXTERN);
    }

    method TickSingleAt(tube: DmxChannel, t: nat) returns (auto: bool, direct: bool)
      requires TubesRight(tubes) && t < |tubes| && tube == tubes[t] && !tube.isPairedSub && !tube.isPairedMain
      modifies tube`curCmd, tube`fadeValue, tube`curValue, tube`curValueChanged
      ensures TubesRight(tubes) && (TubesOf(tubes), auto, direct) == TickAtTube(old(TubesOf(tubes)), t)
    {
      ghost var now := TubesOf(tubes);
      assert now[t].role == Single;
      hide TubeOf, Linked, Tick, DmxChannel.Valid;
      auto, direct := TickSingle(tube, now[t]);
      assert TubesOf(tubes) == TickAtTube(now, t).0;
    }

    method TickSingle(tube: DmxChannel, ghost was: Tube) returns (auto: bool, direct: bool)
      requires tube.Valid() && !tube.isPairedMain && !tube.isPairedSub && TubeOf(tube) == was
      modifies tube`curCmd, tube`fadeValue, tube`curValue, tube`curValueChanged
      ensures tube.Valid()
      ensures var a, d := Tick(was.lines[0], was.targetValue), Tick(was.lines[1], was.targetValue);
        TubeOf(tube) == was.(lines := [a.0, d.0]) && auto == a.1 && direct == d.1
    {
      hide Tick;
      auto := tube.LoopFunction(MIX_INTERN);
      direct := tube.LoopFunction(MIX_EXTERN);
    }

    method TickMainAt(tube: DmxChannel, t: nat) returns (auto: bool, direct: bool)
      requires TubesRight(tubes) && t < |tubes| && tube == tubes[t] && tube.isPairedMain
      modifies tubes`curCmd, tubes`fadeValue, tubes`curValue, tubes`curValueChanged
      ensures TubesRight(tubes) && (TubesOf(tubes), auto, direct) == TickAtTube(old(TubesOf(tubes)), t)
    {
      assert LinkedAt(tubes, t);
      ghost var now := TubesOf(tubes);
      assert now[t].role == Main && now[t].fullValue * now[t + 1].fullValue != 0;
      hide TubeOf, Linked, TickPair, DmxChannel.Valid;
      auto, direct := TickMain(tube, tubes[t + 1], now[t], now[t + 1]);
      assert TubesOf(tubes) == TickAtTube(now, t).0;
    }

    method TickMain(tube: DmxChannel, fine: DmxChannel, ghost was: Tube, ghost wasFine: Tube)
        returns (auto: bool, direct: bool)
      requires tube.Valid() && tube.isPairedMain && !tube.isPairedSub && tube.pairedDmxChannel == fine != tube && fine.Valid()
      requires TubeOf(tube) == was && TubeOf(fine) == wasFine && was.fullValue * wasFine.fullValue != 0
      modifies tube`curCmd, tube`fadeValue, tube`curValue, tube`curValueChanged, fine`curValue, fine`curValueChanged
      ensures tube.Valid() && fine.Valid()
      ensures var a := TickPair(PairOfTwo(was, wasFine, 0), was.targetValue, was.fullValue);
        var d := TickPair(PairOfTwo(was, wasFine, 1), was.targetValue, was.fullValue);
        && TubeOf(tube) == was.(lines := [a.0.coarse, d.0.coarse]) && auto == a.1 && direct == d.1
        && TubeOf(fine) == wasFine.(lines := [WithFine(wasFine.lines[0], a.0.fine), WithFine(wasFine.lines[1], d.0.fine)])
    {
      assert tube.PairAt(0) == PairOfTwo(was, wasFine, 0) && tube.PairAt(1) == PairOfTwo(was, wasFine, 1);
      hide TickPair, SetupOf, RoleOf;
      auto, direct := TickMainLines(tube, fine);
    }

    method TickMainLines(tube: DmxChannel, fine: DmxChannel) returns (auto: bool, direct: bool)
      requires tube.Valid() && tube.isPairedMain && !tube.isPairedSub
      requires tube.pairedDmxChannel == fine != tube && fine.Valid() && tube.targetFullValue * fine.targetFullValue != 0
      modifies tube`curCmd, tube`fadeValue, tube`curValue, tube`curValueChanged, fine`curValue, fine`curValueChanged
      ensures tube.Valid() && fine.Valid()
      ensures var a := TickPair(old(tube.PairAt(0)), tube.targetValue, tube.targetFullValue);
        var d := TickPair(old(tube.PairAt(1)), tube.targetValue, tube.targetFullValue);
        && LinesOf(tube) == [a.0.coarse, d.0.coarse] && auto == a.1 && direct == d.1
        && LinesOf(fine) == [WithFine(old(fine.Line(0)), a.0.fine), WithFine(old(fine.Line(1)), d.0.fine)]
    {
      hide TickPair;
      auto := tube.LoopFunction(MIX_INTERN);
      direct := tube.LoopFunction(MIX_EXTERN);
    }

    /** True if the status differs from the one at the last call. */
    method GetClearStatusHasChanged() returns (changed: bool)
      modifies this`mLastStatus
      ensures changed == (myStatus != old(mLastStatus)) && mLastStatus == myStatus
    {
      changed := myStatus != mLastStatus;
      mLastStatus := myStatus;
    }

    predicate IsVisible()
      reads this
    {
      SceneRun.Visible(myStatus)
    }
  }
}
