/** The sequence executer as an object, proved against SequenceMachine and SequenceCalls. */
module SequenceExecuters {
  import opened Common
  import opened FxItems
  import opened FxLists
  import opened SequenceMachine
  import opened SequenceCalls
  import opened SequenceTime

  class FxListExecuter {
    const fxList: FxList
    const random: nat -> nat  // the values of the random source, in order
    var draws: nat
    var curFx: FxItem?
    var nxtFx: FxItem?  // chosen by the user
    var loopCount: int
    var eventTargetTimeMs: int
    var state: ExecState
    var calculatedExecutionTime: int  // of one pass, negative if not known yet
    ghost var log: seq<Entry>  // the cues given so far

    function Setup(): Sequence
      reads fxList
    {
      Sequence(fxList.fxList, fxList.randomized, fxList.loopTimes, random)
    }

    ghost predicate Valid()
      reads this, fxList
    {
      && Playable(Setup())
      && (curFx != null ==> curFx in fxList.fxList)
      && (nxtFx != null ==> nxtFx in fxList.fxList)
    }

    ghost function Now(): (p: Player)
      requires Valid()
      reads this, fxList, fxList.fxList
      ensures WellFormed(Setup(), p)
    {
      Player(ToOption(curFx), ToOption(nxtFx), StatusOf(fxList.fxList), PlayedOf(fxList.fxList), draws, loopCount)
    }

    /** A new executer for a list; the flags of random playback are cleared. */
    constructor (fxList: FxList, random: nat -> nat)
      requires fxList.randomized ==> fxList.fxList != []
      modifies fxList.fxList`playedInRandomList
      ensures this.fxList == fxList && this.random == random && Valid()
      ensures curFx == nxtFx == null && loopCount == 0 && eventTargetTimeMs == 0 && state == Idle && log == []
      ensures calculatedExecutionTime == -1
      ensures Now() == Player(None, None, old(StatusOf(fxList.fxList)), {}, 0, 0)
    {
      this.fxList, this.random := fxList, random;
      draws, curFx, nxtFx, loopCount, eventTargetTimeMs, state, log := 0, null, null, 0, 0, Idle, [];
      calculatedExecutionTime := -1;
      new;
      ghost var status := StatusOf(fxList.fxList);
      fxList.ResetFxItemsForNewExecuter();
      assert StatusOf(fxList.fxList) == status;
    }

    /** The time announced for one pass; a non-negative result is kept. */
    method CalculateSeqExecutionTime() returns (timeMs: int)
      modifies this`calculatedExecutionTime
      ensures timeMs == calculatedExecutionTime
      ensures timeMs == if old(calculatedExecutionTime) >= 0 then old(calculatedExecutionTime) else SeqExecutionTime(fxList.fxList)
    {
      if calculatedExecutionTime >= 0 {
        return calculatedExecutionTime;
      }
      timeMs := 0;
      for i := 0 to |fxList.fxList|
        invariant timeMs == SeqExecutionTime(fxList.fxList[..i])
      {
        assert fxList.fxList[..i + 1][..i] == fxList.fxList[..i];
        timeMs := timeMs + fxList.fxList[i].CalcExecutionTime();
      }
      assert fxList.fxList[..|fxList.fxList|] == fxList.fxList;
      calculatedExecutionTime := timeMs;
    }

    /** Chooses an unplayed item at random. */
    method FindRandomFx() returns (next: FxItem?)
      requires Valid() && fxList.randomized
      modifies this`draws, fxList.fxList`playedInRandomList
      ensures Valid() && (next != null ==> next in fxList.fxList)
      ensures var p := old(Now());
        var (fx, used) := Pick(fxList.fxList, p.played, random, p.draws);
        && ToOption(next) == fx
        && Now() == p.(draws := used, played := if fx.Some? then p.played + {fx.value} else p.played)
    {
      hide Pick;
      ghost var before := Now();
      next, draws := fxList.FindSequenceRandomFxItem(random, draws);
      assert StatusOf(fxList.fxList) == before.status;
    }

    /** Looks for the next item of the pass and makes it ready. */
    method FindNextFx() returns (next: FxItem?)
      requires Valid()
      modifies this`draws, fxList.fxList`seqStatus, fxList.fxList`playedInRandomList
      ensures Valid() && (next != null ==> next in fxList.fxList)
      ensures (ToOption(next), Now()) == Next(Setup(), old(Now()))
    {
      hide Pick;
      if fxList.randomized {
        next := FindRandomFx();
      } else if curFx == null {
        next := fxList.GetFirstFx();
        MakeReady(next);
      } else {
        next := fxList.FindSequenceFollower(curFx, false);
        MakeReady(next);
      }
    }

    method MakeReady(fx: FxItem?)
      requires Valid() && (fx != null ==> fx in fxList.fxList)
      modifies fxList.fxList`seqStatus
      ensures Valid()
      ensures var p := old(Now()); Now() == if fx != null then p.(status := p.status[fx := Off]) else p
    {
      ghost var before := Now();
      if fx != null {
        fx.ResetFx();
        assert StatusOf(fxList.fxList) == before.status[fx := Off];
      }
      assert PlayedOf(fxList.fxList) == before.played;
    }

    /** Resets all items and chooses the first one of another pass. */
    method FindFirstFxAgain() returns (next: FxItem?)
      requires Valid()
      modifies this`draws, fxList.fxList`seqStatus, fxList.fxList`playedInRandomList
      ensures Valid() && (next != null ==> next in fxList.fxList)
      ensures (ToOption(next), Now()) == Again(Setup(), old(Now()))
    {
      hide Pick;
      ResetAll();
      if fxList.randomized {
        next := FindRandomFx();
        assert next != null ==> {} + {next} == {next};
      } else {
        next := fxList.GetFirstFx();
      }
    }

    method ResetAll()
      requires Valid()
      modifies fxList.fxList`seqStatus, fxList.fxList`playedInRandomList
      ensures Valid() && Now() == old(Now()).(status := AllOff(fxList.fxList), played := {})
    {
      fxList.ResetFxItemsForNewExecuter();
      fxList.ResetFxItems(null);
      assert PlayedOf(fxList.fxList) == {};
    }

    method SetCurrentFx(fx: FxItem?)
      requires Valid() && (fx != null ==> fx in fxList.fxList)
      modifies this`curFx, this`nxtFx, fxList.fxList`seqStatus
      ensures Valid() && curFx == fx && Now() == SetCurrent(old(Now()), ToOption(fx))
    {
      ghost var before := Now();
      if fx != curFx {
        if fx != null {
          fx.InitForSequence();
          assert StatusOf(fxList.fxList) ==
            if fx.kind == Audio then before.status[fx := Off] else before.status;
        }
        curFx := fx;
        nxtFx := null;
      }
      assert PlayedOf(fxList.fxList) == before.played;
    }

    /** The user chooses the next item. */
    method SelectNextFx(fx: FxItem?)
      requires Valid() && (fx != null ==> fx in fxList.fxList)
      modifies this`nxtFx
      ensures Valid() && Now() == old(Now()).(chosen := ToOption(fx))
    {
      nxtFx := fx;
    }

    /** Takes over the item chosen by the user; all others are reset. */
    method TakeChosenFx() returns (fx: FxItem?)
      requires Valid() && nxtFx != null
      modifies this`nxtFx, fxList.fxList`seqStatus
      ensures Valid() && fx == old(nxtFx)
      ensures var p := old(Now()); Now() == p.(chosen := None, status := AllOffBut(p.status, p.chosen.value))
    {
      ghost var before := Now();
      fx := nxtFx;
      fxList.ResetFxItems(nxtFx);
      nxtFx := null;
      assert PlayedOf(fxList.fxList) == before.played;
    }

    method MoveToNextFx() returns (fx: FxItem?)
      requires Valid()
      modifies this`curFx, this`nxtFx, this`loopCount, this`draws
      modifies fxList.fxList`seqStatus, fxList.fxList`playedInRandomList
      ensures Valid() && Now() == MoveToNext(Setup(), old(Now())) && fx == curFx
    {
      hide Next, Again, SetCurrent, AllOffBut;
      if nxtFx != null {
        fx := TakeChosenFx();
      } else {
        fx := FindNextFx();
        if fx == null {
          ghost var found := Now();
          loopCount := loopCount + 1;
          assert Now() == found.(loops := found.loops + 1);
          if loopCount < fxList.loopTimes {
            fx := FindFirstFxAgain();
          }
        }
      }
      SetCurrentFx(fx);
    }

    /** The current item gives its next cue; negative when it is over. */
    method CueCurrentFx() returns (cueTime: int)
      requires Valid() && curFx != null
      modifies this`log, curFx`seqStatus
      ensures Valid()
      ensures var p := old(Now());
        var cue := CueFx(curFx, p.status[curFx]);
        && cueTime == cue.timeMs && Now() == p.(status := p.status[curFx := cue.status])
        && log == old(log) + [Entry(curFx, p.status[curFx], cue.timeMs, cue.effect)]
    {
      ghost var before := Now();
      var status := curFx.seqStatus;
      var effect;
      match curFx.kind {
        case Scene =>
          cueTime, effect := CueFxScene(curFx);
        case Audio =>
          cueTime, effect := CueFxAudio(curFx);
        case OtherKind =>
          cueTime, effect := -1, NoEffect;
      }
      log := log + [Entry(curFx, status, cueTime, effect)];
      assert StatusOf(fxList.fxList) == before.status[curFx := curFx.seqStatus];
      assert PlayedOf(fxList.fxList) == before.played;
    }

    method CueFxScene(scene: FxItem) returns (cueTime: int, effect: Effect)
      requires scene.kind == Scene
      modifies scene`seqStatus
      ensures CueScene(scene, old(scene.seqStatus)) == Cue(scene.seqStatus, cueTime, effect)
    {
      effect := NoEffect;
      match scene.seqStatus {
        case Off =>
          cueTime := scene.preDelay;
          if cueTime == -1 {
            cueTime, effect := 0, StartSceneExecuter;
            scene.seqStatus := FadeOut;
          } else {
            if cueTime < 0 {
              cueTime := 0;
            }
            scene.seqStatus := PreDelay;
          }
        case PreDelay =>
          cueTime, effect := scene.fadeInTime, FadeInScene(scene.fadeInTime);
          scene.seqStatus := FadeIn;
        case FadeIn =>
          cueTime := scene.holdTime;
          scene.seqStatus := Hold;
        case Hold =>
          cueTime, effect := scene.fadeOutTime, FadeOutScene(scene.fadeOutTime);
          scene.seqStatus := FadeOut;
        case FadeOut =>
          cueTime := scene.postDelay;
          scene.seqStatus := PostDelay;
        case PostDelay =>
          scene.seqStatus := Off;
          cueTime := -1;
      }
    }

    method CueFxAudio(audio: FxItem) returns (cueTime: int, effect: Effect)
      requires audio.kind == Audio
      modifies audio`seqStatus
      ensures CueAudio(audio, old(audio.seqStatus)) == Cue(audio.seqStatus, cueTime, effect)
    {
      effect := NoEffect;
      match audio.seqStatus {
        case Off =>
          cueTime := audio.preDelay;
          if cueTime == -1 {
            effect := StartAudio;
            audio.seqStatus := PostDelay;
            cueTime := audio.postDelay;
            if cueTime < 0 {
              cueTime := 0;
            }
            return;
          }
          if cueTime < 0 {
            cueTime := 0;
          }
          audio.seqStatus := PreDelay;
        case PreDelay =>
          cueTime := if audio.holdTime != 0 then audio.holdTime else WAIT_FOR_AUDIO_MS;
          effect := StartAudio;
          audio.seqStatus := Hold;
        case Hold =>
          cueTime, effect := audio.fadeOutTime, FadeOutAudio(audio.fadeOutTime);
          audio.seqStatus := FadeOut;
        case FadeOut =>
          cueTime := audio.postDelay;
          audio.seqStatus := PostDelay;
        case _ =>
          audio.seqStatus := Off;
          cueTime := -1;
      }
    }

    /** One turn of the loop below. */
    method TakeTurn() returns (cueTime: int)
      requires Valid() && curFx != null
      modifies this`curFx, this`nxtFx, this`loopCount, this`draws, this`log
      modifies fxList.fxList`seqStatus, fxList.fxList`playedInRandomList
      ensures Valid()
      ensures var (next, entry, time) := Turn(Setup(), old(Now()));
        Now() == next && log == old(log) + [entry] && cueTime == time
    {
      hide CueFx, MoveToNext;
      cueTime := CueCurrentFx();
      if cueTime < 0 {
        var fx := MoveToNextFx();
        if fx != null {
          cueTime := 0;
        }
      }
    }

    /** The player with a current item, if there is one at all. */
    ghost function Begun(p: Player): (r: Player)
      requires WellFormed(Setup(), p)
      reads fxList
      ensures WellFormed(Setup(), r)
    {
      if p.cur.None? then MoveToNext(Setup(), p) else p
    }

    ghost predicate Due(now: int)
      reads this
    {
      state != Idle && eventTargetTimeMs <= now
    }

    /**
     One call at run time `now`. It must come back at all: SequenceCalls proves
     this for lists without repeated items and for random playback.
     */
    method ProcessExecuter(now: int) returns (active: bool)
      requires Valid()
      requires Due(now) && state == Running ==> Returns(Setup(), Begun(Now()))
      modifies this`curFx, this`nxtFx, this`loopCount, this`draws, this`log
      modifies this`eventTargetTimeMs, this`calculatedExecutionTime
      modifies fxList.fxList`seqStatus, fxList.fxList`playedInRandomList
      ensures Valid()
      ensures state == Idle || now < old(eventTargetTimeMs) ==>
        !active && Now() == old(Now()) && log == old(log) && eventTargetTimeMs == old(eventTargetTimeMs)
      ensures calculatedExecutionTime ==
        if state != Idle && old(eventTargetTimeMs) <= now && old(curFx) == null && old(calculatedExecutionTime) < 0 then SeqExecutionTime(fxList.fxList)
        else old(calculatedExecutionTime)
      ensures state != Idle && state != Running && old(eventTargetTimeMs) <= now ==>
        && active == (curFx != null)
        && Now() == (if old(curFx) == null then MoveToNext(Setup(), old(Now())) else old(Now()))
        && log == old(log) && eventTargetTimeMs == old(eventTargetTimeMs)
      ensures state == Running && old(eventTargetTimeMs) <= now ==>
        var c := ResultOf(Setup(), if old(curFx) == null then MoveToNext(Setup(), old(Now())) else old(Now())).course;
        && active == (curFx != null) && Now() == c.player
        && log == old(log) + c.log && eventTargetTimeMs == old(eventTargetTimeMs) + c.timeMs
    {
      hide MoveToNext, Turn, ResultOf;
      if state == Idle {
        return false;
      }
      if eventTargetTimeMs > now {
        return false;
      }
      ghost var start := Begun(Now());
      if curFx == null {
        ghost var before := Now();
        var announced := CalculateSeqExecutionTime();
        assert Now() == before;
        var fx := MoveToNextFx();
      }
      if state == Running {
        var cueTime := RunTurns();
        eventTargetTimeMs := eventTargetTimeMs + cueTime;
      }
      return curFx != null;
    }

    /** Turns until one takes time or the list is at its end. */
    method RunTurns() returns (cueTime: int)
      requires Valid() && Returns(Setup(), Now())
      modifies this`curFx, this`nxtFx, this`loopCount, this`draws, this`log
      modifies fxList.fxList`seqStatus, fxList.fxList`playedInRandomList
      ensures Valid()
      ensures var c := ResultOf(Setup(), old(Now())).course;
        Now() == c.player && log == old(log) + c.log && cueTime == c.timeMs
    {
      hide Turn, ResultOf, Returns;
      ghost var whole, s := ResultOf(Setup(), Now()).course, Setup();
      cueTime := 0;
      if curFx == null {
        ResultIs(s, Now(), 0);
      }
      while curFx != null && cueTime == 0
        invariant Valid() && Setup() == s
        invariant curFx != null && cueTime == 0 ==>
          && Returns(s, Now())
          && var rest := ResultOf(s, Now()).course;
             whole.player == rest.player && old(log) + whole.log == log + rest.log && whole.timeMs == rest.timeMs
        invariant curFx == null || cueTime != 0 ==>
          Now() == whole.player && log == old(log) + whole.log && cueTime == whole.timeMs
        decreases if curFx != null && cueTime == 0 then ResultOf(s, Now()).turns + 1 else 0
      {
        UnfoldResult(s, Now());
        cueTime := TakeTurn();
      }
    }
  }
}
