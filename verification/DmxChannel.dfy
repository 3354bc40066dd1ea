/** A DMX channel as an object: the fade engine on its two mix lines, alone or paired with a fine channel. */
module DmxChannels {
  import opened Common
  import opened DmxFade
  import opened DmxRoundTrip
  import opened PairedFade

  const MIX_INTERN: nat := 0
  const MIX_EXTERN: nat := 1
  const MIX_LINES: nat := 2
  const MAX_DMX_FADER_RANGE := 10000

  class DmxChannel {
    var dmxUniverse: int
    var dmxChannel: int
    var dmxValue: int
    var targetFullValue: int
    var targetValue: int
    var scalerNumerator: int
    var scalerDenominator: int
    var deskVisibleFlag: bool
    var dmxType: int
    var curValue: seq<int>
    var curValueChanged: seq<bool>
    var curCmd: seq<CtrlCmd>
    var fadeStartValue: seq<real>
    var fadeTargetValue: seq<real>
    var fadeValue: seq<real>
    var fadeStep: seq<real>
    var isPairedMain: bool
    var isPairedSub: bool
    var pairedDmxChannel: DmxChannel?

    predicate Valid()
      reads this`curValue, this`curValueChanged, this`curCmd
      reads this`fadeStartValue, this`fadeTargetValue, this`fadeValue, this`fadeStep
    {
      && |curValue| == |curValueChanged| == |curCmd| == MIX_LINES
      && |fadeStartValue| == |fadeTargetValue| == |fadeValue| == |fadeStep| == MIX_LINES
    }

    function Line(i: nat): MixLine
      requires Valid() && i < MIX_LINES
      reads this`curValue, this`curValueChanged, this`curCmd
      reads this`fadeStartValue, this`fadeTargetValue, this`fadeValue, this`fadeStep
    {
      MixLine(curValue[i], curValueChanged[i], curCmd[i], fadeStartValue[i], fadeTargetValue[i], fadeValue[i], fadeStep[i])
    }

    function PairAt(i: nat): Pair
      requires Valid() && i < MIX_LINES && pairedDmxChannel != null && pairedDmxChannel.Valid()
      reads this, pairedDmxChannel
    {
      var other := pairedDmxChannel;
      Pair(Line(i), Fine(other.curValue[i], other.curValueChanged[i], other.targetValue, other.targetFullValue))
    }

    constructor ()
      ensures Valid() && !isPairedMain && !isPairedSub && pairedDmxChannel == null
      ensures forall i: nat :: i < MIX_LINES ==> Line(i) == MixLine(0, false, NoCmd, 0.0, 0.0, 0.0, 0.0)
      ensures targetFullValue == MAX_DMX_FADER_RANGE && targetValue == 0 && deskVisibleFlag
      ensures scalerNumerator == scalerDenominator == 1
    {
      dmxUniverse, dmxChannel, dmxValue, dmxType := 0, 0, 0, 0;
      targetFullValue, targetValue, scalerNumerator, scalerDenominator := MAX_DMX_FADER_RANGE, 0, 1, 1;
      deskVisibleFlag := true;
      curValue, curValueChanged, curCmd := [0, 0], [false, false], [NoCmd, NoCmd];
      fadeStartValue, fadeTargetValue, fadeValue, fadeStep := [0.0, 0.0], [0.0, 0.0], [0.0, 0.0], [0.0, 0.0];
      isPairedMain, isPairedSub, pairedDmxChannel := false, false, null;
    }

    /** Starts a fade; false if none will occur. */
    method InitFadeCmd(mixline: nat, cmd: CtrlCmd, timeMs: int, arg: int) returns (ok: bool)
      requires Valid() && mixline < MIX_LINES
      requires isPairedMain && pairedDmxChannel != null ==> pairedDmxChannel.Valid()
      modifies this`curCmd, this`fadeStartValue, this`fadeTargetValue, this`fadeValue, this`fadeStep
      ensures Valid() && Line(1 - mixline) == old(Line(1 - mixline))
      ensures isPairedSub || (isPairedMain && pairedDmxChannel == null) ==> !ok && Line(mixline) == old(Line(mixline))
      ensures !isPairedSub && !isPairedMain ==>
        (Line(mixline), ok) == InitFade(old(Line(mixline)), cmd, timeMs, arg, targetValue, targetFullValue)
      ensures !isPairedSub && isPairedMain && pairedDmxChannel != null ==>
        pairedDmxChannel.Valid() && (PairAt(mixline), ok) == InitPair(old(PairAt(mixline)), cmd, timeMs, arg, targetValue)
    {
      if isPairedSub {
        return false;
      }
      if !isPairedMain {
        ok := StartFade(mixline, cmd, timeMs, curValue[mixline], arg, targetValue, targetFullValue);
        return;
      }
      if pairedDmxChannel == null {
        return false;
      }
      var other := pairedDmxChannel;
      var curpairvalue := curValue[mixline] * other.targetFullValue + other.curValue[mixline];
      var targetpairvalue := targetValue * other.targetFullValue + other.targetValue;
      ok := StartFade(mixline, cmd, timeMs, curpairvalue, arg, targetpairvalue, arg);
    }

    /** The part of InitFadeCmd that single and paired channels share: a fade that starts at cur. */
    method StartFade(mixline: nat, cmd: CtrlCmd, timeMs: int, cur: int, arg: int, scene: int, full: int)
        returns (ok: bool)
      requires Valid() && mixline < MIX_LINES
      modifies this`curCmd, this`fadeStartValue, this`fadeTargetValue, this`fadeValue, this`fadeStep
      ensures Valid() && Line(1 - mixline) == old(Line(1 - mixline))
      ensures (Line(mixline).(cur := cur), ok) == InitFade(old(Line(mixline)).(cur := cur), cmd, timeMs, arg, scene, full)
    {
      fadeStartValue := fadeStartValue[mixline := cur as real];
      fadeValue := fadeValue[mixline := cur as real];
      var goal := 0;
      match cmd {
        case Black =>
          if cur == 0 { return false; }
        case FadeIn =>
          if cur >= scene { return false; }
          goal := scene;
        case FadeOut =>
          if cur <= 0 { return false; }
        case FadeTo =>
          if cur == arg { return false; }
          goal := Min(arg, full);
        case _ =>
          return false;
      }
      fadeTargetValue := fadeTargetValue[mixline := goal as real];
      fadeStep := fadeStep[mixline := StepSize(fadeStartValue[mixline], fadeTargetValue[mixline], timeMs)];
      curCmd := curCmd[mixline := cmd];
      return true;
    }

    ghost function Partner(): set<DmxChannel>
      reads this
    {
      if isPairedMain && pairedDmxChannel != null then {pairedDmxChannel} else {}
    }

    /** One tick of the light loop; true while the command runs. */
    method LoopFunction(mixline: nat) returns (running: bool)
      requires Valid() && mixline < MIX_LINES
      requires isPairedMain && !isPairedSub ==>
        pairedDmxChannel != null && pairedDmxChannel != this && pairedDmxChannel.Valid() &&
        targetFullValue * pairedDmxChannel.targetFullValue != 0
      modifies this`curCmd, this`fadeValue, this`curValue, this`curValueChanged
      modifies Partner()`curValue, Partner()`curValueChanged
      ensures Valid() && Line(1 - mixline) == old(Line(1 - mixline))
      ensures isPairedSub ==> !running && Line(mixline) == old(Line(mixline))
      ensures !isPairedSub && !isPairedMain ==> (Line(mixline), running) == Tick(old(Line(mixline)), targetValue)
      ensures !isPairedSub && isPairedMain ==>
        && pairedDmxChannel.Valid() && pairedDmxChannel.Line(1 - mixline) == old(pairedDmxChannel.Line(1 - mixline))
        && (PairAt(mixline), running) == TickPair(old(PairAt(mixline)), targetValue, targetFullValue)
    {
      if isPairedSub {
        return false;
      }
      if curCmd[mixline] == NoCmd {
        return false;
      }
      if isPairedMain {
        running := PairedLoopFunction(mixline);
        return;
      }
      fadeValue := fadeValue[mixline := fadeValue[mixline] + fadeStep[mixline]];
      var val := Trunc(fadeValue[mixline]);
      if val != curValue[mixline] {
        curValue := curValue[mixline := val];
        curValueChanged := curValueChanged[mixline := true];
      }
      var cmd := curCmd[mixline];
      if GoalReached(cmd, fadeValue[mixline], fadeStep[mixline], fadeTargetValue[mixline]) {
        curValue := curValue[mixline := FinalLevel(Line(mixline), targetValue)];
        curCmd := curCmd[mixline := NoCmd];
        return false;
      }
      return cmd != OtherCmd;
    }

    /** Sets the levels of both channels of a pair. */
    method SetPairLevel(mixline: nat, coarse: int, fine: int)
      requires Valid() && mixline < MIX_LINES && isPairedMain
      requires pairedDmxChannel != null && pairedDmxChannel != this && pairedDmxChannel.Valid()
      modifies this`curValue, Partner()`curValue
      ensures Valid() && Line(1 - mixline) == old(Line(1 - mixline)) && pairedDmxChannel.Valid()
      ensures pairedDmxChannel.Line(1 - mixline) == old(pairedDmxChannel.Line(1 - mixline))
      ensures var p := old(PairAt(mixline));
        PairAt(mixline) == Pair(p.coarse.(cur := coarse), p.fine.(cur := fine))
    {
      curValue := curValue[mixline := coarse];
      pairedDmxChannel.curValue := pairedDmxChannel.curValue[mixline := fine];
    }

    method MarkPairChanged(mixline: nat)
      requires Valid() && mixline < MIX_LINES && isPairedMain
      requires pairedDmxChannel != null && pairedDmxChannel != this && pairedDmxChannel.Valid()
      modifies this`curValueChanged, Partner()`curValueChanged
      ensures Valid() && Line(1 - mixline) == old(Line(1 - mixline)) && pairedDmxChannel.Valid()
      ensures pairedDmxChannel.Line(1 - mixline) == old(pairedDmxChannel.Line(1 - mixline))
      ensures var p := old(PairAt(mixline));
        PairAt(mixline) == Pair(p.coarse.(changed := true), p.fine.(changed := true))
    {
      curValueChanged := curValueChanged[mixline := true];
      pairedDmxChannel.curValueChanged := pairedDmxChannel.curValueChanged[mixline := true];
    }

    method PairedLoopFunction(mixline: nat) returns (running: bool)
      requires Valid() && mixline < MIX_LINES && isPairedMain && curCmd[mixline] != NoCmd
      requires pairedDmxChannel != null && pairedDmxChannel != this && pairedDmxChannel.Valid()
      requires targetFullValue * pairedDmxChannel.targetFullValue != 0
      modifies this`curCmd, this`fadeValue, this`curValue, this`curValueChanged
      modifies Partner()`curValue, Partner()`curValueChanged
      ensures Valid() && Line(1 - mixline) == old(Line(1 - mixline)) && pairedDmxChannel.Valid()
      ensures pairedDmxChannel.Line(1 - mixline) == old(pairedDmxChannel.Line(1 - mixline))
      ensures (PairAt(mixline), running) == TickPair(old(PairAt(mixline)), targetValue, targetFullValue)
    {
      hide PairMove, GoalReached;
      PairedMove(mixline);
      var cmd := curCmd[mixline];
      if GoalReached(cmd, fadeValue[mixline], fadeStep[mixline], fadeTargetValue[mixline]) {
        var (hi, lo) := PairFinal(PairAt(mixline), targetValue);
        SetPairLevel(mixline, hi, lo);
        curCmd := curCmd[mixline := NoCmd];
        return false;
      }
      return cmd != OtherCmd;
    }

    method PairedMove(mixline: nat)
      requires Valid() && mixline < MIX_LINES && isPairedMain
      requires pairedDmxChannel != null && pairedDmxChannel != this && pairedDmxChannel.Valid()
      requires targetFullValue * pairedDmxChannel.targetFullValue != 0
      modifies this`fadeValue, this`curValue, this`curValueChanged
      modifies Partner()`curValue, Partner()`curValueChanged
      ensures Valid() && Line(1 - mixline) == old(Line(1 - mixline)) && pairedDmxChannel.Valid()
      ensures pairedDmxChannel.Line(1 - mixline) == old(pairedDmxChannel.Line(1 - mixline))
      ensures PairAt(mixline) == PairMove(old(PairAt(mixline)), targetFullValue)
    {
      hide PairLevels;
      fadeValue := fadeValue[mixline := fadeValue[mixline] + fadeStep[mixline]];
      var (hi, lo) := PairLevels(fadeValue[mixline], targetFullValue, pairedDmxChannel.targetFullValue);
      if hi != curValue[mixline] || lo != pairedDmxChannel.curValue[mixline] {
        SetPairLevel(mixline, hi, lo);
        MarkPairChanged(mixline);
      }
    }

    method FadeToDmxVal(mixline: nat, dmxVal: int, timeMs: int) returns (ok: bool)
      requires Valid() && mixline < MIX_LINES && !isPairedMain && !isPairedSub
      modifies this`curCmd, this`fadeStartValue, this`fadeTargetValue, this`fadeValue, this`fadeStep
      ensures Valid() && Line(1 - mixline) == old(Line(1 - mixline))
      ensures (Line(mixline), ok) ==
        InitFade(old(Line(mixline)), FadeTo, timeMs, LevelFor(dmxVal, targetFullValue), targetValue, targetFullValue)
    {
      ok := InitFadeCmd(mixline, FadeTo, timeMs, LevelFor(dmxVal, targetFullValue));
    }

    ghost function Others(other: DmxChannel?): set<DmxChannel> {
      if other == null then {} else {other}
    }

    method SetPairedWith(other: DmxChannel?) returns (ok: bool)
      modifies this`pairedDmxChannel, this`isPairedMain, this`isPairedSub
      modifies Others(other)`pairedDmxChannel, Others(other)`isPairedMain, Others(other)`isPairedSub
      ensures ok == (other != null)
      ensures other != null && other != this ==>
        && isPairedMain && !isPairedSub && pairedDmxChannel == other
        && !other.isPairedMain && other.isPairedSub && other.pairedDmxChannel == null
      ensures other == this ==> isPairedSub && !isPairedMain && pairedDmxChannel == null
      ensures other == null ==> unchanged(this)
    {
      if other == null {
        return false;
      }
      pairedDmxChannel := other;
      other.pairedDmxChannel := null;
      isPairedMain := true;
      isPairedSub := false;
      other.isPairedSub := true;
      other.isPairedMain := false;
      return true;
    }

    method ClrPairedWith() returns (ok: bool)
      modifies this`pairedDmxChannel, this`isPairedMain, this`isPairedSub
      modifies Others(pairedDmxChannel)`isPairedMain, Others(pairedDmxChannel)`isPairedSub
      ensures !isPairedMain && !isPairedSub && pairedDmxChannel == null
      ensures ok == (old(pairedDmxChannel) != null)
      ensures ok ==> !old(pairedDmxChannel).isPairedMain && !old(pairedDmxChannel).isPairedSub
    {
      isPairedMain := false;
      isPairedSub := false;
      if pairedDmxChannel != null {
        pairedDmxChannel.isPairedMain := false;
        pairedDmxChannel.isPairedSub := false;
        pairedDmxChannel := null;
        return true;
      }
      return false;
    }
  }
}
