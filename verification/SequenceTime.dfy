/** When the cues of a sequence come, and how that compares with the time announced for the progress display. */
module SequenceTime {
  import opened Common
  import opened FxItems
  import opened SequenceMachine
  import opened SequenceRun

  /** The time that the cues of a log schedule. */
  function Scheduled(log: seq<Entry>): int {
    if log == [] then 0 else Max(0, log[0].timeMs) + Scheduled(log[1..])
  }

  lemma {:induction false} ScheduledOfConcat(a: seq<Entry>, b: seq<Entry>)
    ensures Scheduled(a + b) == Scheduled(a) + Scheduled(b)
    decreases |a|
  {
    if a == [] {
      assert a + b == b;
    } else {
      assert (a + b)[1..] == a[1..] + b;
      ScheduledOfConcat(a[1..], b);
    }
  }

  /** The time of a turn: only the cue that ends the run counts with its negative time. */
  lemma {:induction false} TurnTime(s: Sequence, p: Player)
    requires WellFormed(s, p) && p.cur.Some?
    ensures var (next, entry, time) := Turn(s, p);
            if next.cur.None? then entry.timeMs < 0 && time == entry.timeMs else time == Max(0, entry.timeMs)
  {
    hide MoveToNext, CueFx;
  }

  /** A run moves the target time by what its cues schedule; the cue that ends it still counts with its negative time. */
  lemma {:induction false} RunTime(s: Sequence, p: Player, n: nat)
    requires WellFormed(s, p)
    ensures var c := Play(s, p, n);
            && (p.cur.Some? && c.player.cur.None? ==> c.log != [] && c.log[|c.log| - 1].timeMs < 0)
            && c.timeMs == Scheduled(c.log) + if p.cur.Some? && c.player.cur.None? then c.log[|c.log| - 1].timeMs else 0
    decreases n
  {
    hide Turn, WellFormed;
    if n > 0 && p.cur.Some? {
      TurnTime(s, p);
      var (next, entry, time) := Turn(s, p);
      RunTime(s, next, n - 1);
      var rest := Play(s, next, n - 1);
      assert Play(s, p, n).log == [entry] + rest.log;
      assert ([entry] + rest.log)[1..] == rest.log;
    }
  }

  // ----- The cues of one item

  /** A scene whose times, apart from the delay before it, are no special values. */
  predicate Regular(fx: FxItem) {
    fx.kind == Scene && fx.fadeInTime >= 0 && fx.holdTime >= 0 && fx.fadeOutTime >= 0 && fx.postDelay >= 0
  }

  /**
   A scene waits, fades in, holds, fades out and waits again. With a delay of
   -1 it is handed to an executer of its own instead and only the last wait is left.
   */
  lemma {:induction false} SceneCues(fx: FxItem)
    requires Regular(fx)
    ensures var over := Entry(fx, PostDelay, -1, NoEffect);
            var wait := Entry(fx, FadeOut, fx.postDelay, NoEffect);
            CueLog(fx, Off) ==
              if fx.preDelay == -1 then [Entry(fx, Off, 0, StartSceneExecuter), wait, over]
              else [Entry(fx, Off, Max(fx.preDelay, 0), NoEffect),
                    Entry(fx, PreDelay, fx.fadeInTime, FadeInScene(fx.fadeInTime)),
                    Entry(fx, FadeIn, fx.holdTime, NoEffect),
                    Entry(fx, Hold, fx.fadeOutTime, FadeOutScene(fx.fadeOutTime)), wait, over]
  {
  }

  /** Audio is started once; without a hold time it plays for a very long time, until somebody ends the wait. */
  lemma {:induction false} AudioCues(fx: FxItem)
    requires fx.kind == Audio && fx.holdTime >= 0 && fx.fadeOutTime >= 0 && fx.postDelay >= 0
    ensures var over := Entry(fx, PostDelay, -1, NoEffect);
            CueLog(fx, Off) ==
              if fx.preDelay == -1 then [Entry(fx, Off, fx.postDelay, StartAudio), over]
              else [Entry(fx, Off, Max(fx.preDelay, 0), NoEffect),
                    Entry(fx, PreDelay, if fx.holdTime > 0 then fx.holdTime else WAIT_FOR_AUDIO_MS, StartAudio),
                    Entry(fx, Hold, fx.fadeOutTime, FadeOutAudio(fx.fadeOutTime)),
                    Entry(fx, FadeOut, fx.postDelay, NoEffect), over]
  {
  }

  /** The cues up to the first one with a negative time, with which the item is over. */
  function UpToNegative(log: seq<Entry>): seq<Entry> {
    if log == [] then []
    else [log[0]] + if log[0].timeMs < 0 then [] else UpToNegative(log[1..])
  }

  lemma {:induction false} UpToNegativeNext(e: Entry, log: seq<Entry>)
    ensures UpToNegative([e] + log) == [e] + if e.timeMs < 0 then [] else UpToNegative(log)
  {
    assert ([e] + log)[1..] == log;
  }

  /** With whatever times: the cues of a scene from its begin on, up to a negative time. */
  lemma {:induction false} AnySceneCues(fx: FxItem)
    requires fx.kind == Scene
    ensures var over := Entry(fx, PostDelay, -1, NoEffect);
            var wait := Entry(fx, FadeOut, fx.postDelay, NoEffect);
            CueLog(fx, Off) ==
              if fx.preDelay == -1 then [Entry(fx, Off, 0, StartSceneExecuter)] + UpToNegative([wait] + [over])
              else [Entry(fx, Off, Max(fx.preDelay, 0), NoEffect)] +
                   UpToNegative([Entry(fx, PreDelay, fx.fadeInTime, FadeInScene(fx.fadeInTime))] +
                                ([Entry(fx, FadeIn, fx.holdTime, NoEffect)] +
                                 ([Entry(fx, Hold, fx.fadeOutTime, FadeOutScene(fx.fadeOutTime))] + ([wait] + [over]))))
  {
    hide UpToNegative;
    var over, wait := Entry(fx, PostDelay, -1, NoEffect), Entry(fx, FadeOut, fx.postDelay, NoEffect);
    var last := [wait] + [over];
    var out := [Entry(fx, Hold, fx.fadeOutTime, FadeOutScene(fx.fadeOutTime))] + last;
    var hold := [Entry(fx, FadeIn, fx.holdTime, NoEffect)] + out;
    EndOfItem(over);
    UpToNegativeNext(wait, [over]);
    UpToNegativeNext(out[0], last);
    UpToNegativeNext(hold[0], out);
    UpToNegativeNext(Entry(fx, PreDelay, fx.fadeInTime, FadeInScene(fx.fadeInTime)), hold);
    assert CueLog(fx, PostDelay) == [over];
    assert CueLog(fx, FadeOut) == UpToNegative(last);
    assert CueLog(fx, Hold) == UpToNegative(out);
    assert CueLog(fx, FadeIn) == UpToNegative(hold);
  }

  lemma {:induction false} EndOfItem(e: Entry)
    requires e.timeMs < 0
    ensures UpToNegative([e]) == [e]
  {
  }

  /** The same for audio; a hold time of 0 stands for a very long one, and every other for itself. */
  lemma {:induction false} AnyAudioCues(fx: FxItem)
    requires fx.kind == Audio
    ensures var over := Entry(fx, PostDelay, -1, NoEffect);
            CueLog(fx, Off) ==
              if fx.preDelay == -1 then [Entry(fx, Off, Max(fx.postDelay, 0), StartAudio), over]
              else [Entry(fx, Off, Max(fx.preDelay, 0), NoEffect)] +
                   UpToNegative([Entry(fx, PreDelay, if fx.holdTime == 0 then 1000000 else fx.holdTime, StartAudio)] +
                                ([Entry(fx, Hold, fx.fadeOutTime, FadeOutAudio(fx.fadeOutTime))] +
                                 ([Entry(fx, FadeOut, fx.postDelay, NoEffect)] + [over])))
  {
    hide UpToNegative;
    var over, wait := Entry(fx, PostDelay, -1, NoEffect), Entry(fx, FadeOut, fx.postDelay, NoEffect);
    var last := [wait] + [over];
    var out := [Entry(fx, Hold, fx.fadeOutTime, FadeOutAudio(fx.fadeOutTime))] + last;
    EndOfItem(over);
    UpToNegativeNext(wait, [over]);
    UpToNegativeNext(out[0], last);
    UpToNegativeNext(Entry(fx, PreDelay, if fx.holdTime == 0 then 1000000 else fx.holdTime, StartAudio), out);
    assert CueLog(fx, PostDelay) == [over];
    assert CueLog(fx, FadeOut) == UpToNegative(last);
    assert CueLog(fx, Hold) == UpToNegative(out);
  }

  /** Any other item is over at once and keeps its state. */
  lemma {:induction false} OtherCues(fx: FxItem, status: SeqStatus)
    requires fx.kind == OtherKind
    ensures CueLog(fx, status) == [Entry(fx, status, -1, NoEffect)] && CueEnd(fx, status) == status
  {
  }

  function CycleTime(fx: FxItem): int {
    fx.fadeInTime + fx.holdTime + fx.fadeOutTime + fx.postDelay
  }

  /** The announced time is the scheduled one. */
  predicate OnSchedule(fx: FxItem) {
    || fx.preDelay >= 0
    || (fx.preDelay == -1 && fx.postDelay == 0)
    || (fx.preDelay < -1 && CycleTime(fx) == 0)
  }

  lemma {:induction false} SceneTime(fx: FxItem)
    requires Regular(fx)
    ensures var t := Scheduled(CueLog(fx, Off));
            t == (if fx.preDelay == -1 then fx.postDelay else Max(fx.preDelay, 0) + CycleTime(fx))
            && fx.CalcExecutionTime() <= t && (t == fx.CalcExecutionTime() <==> OnSchedule(fx))
  {
    hide CueLog;
    SceneCues(fx);
    var log := CueLog(fx, Off);
    ScheduledThree(log[|log| - 3..]);
    if fx.preDelay != -1 {
      ScheduledThree(log[..3]);
      ScheduledOfConcat(log[..3], log[3..]);
      assert log[..3] + log[3..] == log && log[|log| - 3..] == log[3..];
    } else {
      assert log[|log| - 3..] == log;
    }
  }

  lemma {:induction false} ScheduledThree(log: seq<Entry>)
    requires |log| == 3
    ensures Scheduled(log) == Max(0, log[0].timeMs) + Max(0, log[1].timeMs) + Max(0, log[2].timeMs)
  {
    assert log[1..][1..] == [log[2]] && log[2..] == [log[2]];
    assert Scheduled([log[2]]) == Max(0, log[2].timeMs) + Scheduled([log[2]][1..]);
  }

  /** The sum that the executer announces for a list. */
  function SeqExecutionTime(list: seq<FxItem>): int {
    if list == [] then 0 else SeqExecutionTime(list[..|list| - 1]) + list[|list| - 1].CalcExecutionTime()
  }

  lemma {:induction false} SumFromFront(list: seq<FxItem>)
    requires list != []
    ensures SeqExecutionTime(list) == list[0].CalcExecutionTime() + SeqExecutionTime(list[1..])
    decreases |list|
  {
    var last := |list| - 1;
    if last > 0 {
      SumFromFront(list[..last]);
      assert list[..last][1..] == list[1..][..last - 1];
    } else {
      assert list[1..] == [] && list[..last] == [];
    }
  }

  /**
   One pass through a list of scenes in list order schedules at least the
   announced time, and exactly this time if and only if every scene is on schedule.
   */
  lemma {:induction false} PassTimeIsAnnouncedIff(s: Sequence, status: map<FxItem, SeqStatus>, list: seq<FxItem>)
    requires !s.randomized && forall x :: x in list ==> Regular(x)
    ensures var t := Scheduled(PassLog(s, status, list));
            && SeqExecutionTime(list) <= t
            && (t == SeqExecutionTime(list) <==> forall x :: x in list ==> OnSchedule(x))
    decreases |list|
  {
    hide OnSchedule, CueLog, FxItem.CalcExecutionTime;
    if list != [] {
      var own, rest := CueLog(list[0], Off), PassLog(s, status, list[1..]);
      assert list == [list[0]] + list[1..];
      assert list[0] in list;
      SceneTime(list[0]);
      ScheduledOfConcat(own, rest);
      PassTimeIsAnnouncedIff(s, status, list[1..]);
      SumFromFront(list);
      assert PassLog(s, status, list) == own + rest;
    }
  }

  // ----- A whole run

  lemma {:induction false} LastCue(s: Sequence, status: map<FxItem, SeqStatus>, list: seq<FxItem>)
    requires !s.randomized && list != [] && forall x :: x in list ==> Regular(x)
    ensures var log := PassLog(s, status, list); log != [] && log[|log| - 1].timeMs == -1
    decreases |list|
  {
    hide CueLog;
    SceneCues(list[0]);
    if |list| > 1 {
      LastCue(s, status, list[1..]);
    } else {
      assert PassLog(s, status, list[1..]) == [];
    }
  }

  /** Passes through the same list take the same time. */
  lemma {:induction false} PassesTime(s: Sequence, status: map<FxItem, SeqStatus>, orders: seq<seq<FxItem>>)
    requires !s.randomized && s.list != [] && (forall x :: x in s.list ==> Regular(x)) && AllPassOrders(s, orders)
    ensures var log := RunLog(s, status, orders);
            && Scheduled(log) == |orders| * Scheduled(PassLog(s, status, s.list))
            && (orders != [] ==> log != [] && log[|log| - 1].timeMs == -1)
    decreases |orders|
  {
    hide PassLog, CueLog;
    if orders != [] {
      assert IsPassOrder(s, orders[0]);
      var pass, rest := PassLog(s, status, s.list), RunLog(s, AllOff(s.list), orders[1..]);
      assert AllPassOrders(s, orders[1..]) by {
        assert forall i :: 0 <= i < |orders| - 1 ==> orders[1..][i] == orders[i + 1];
      }
      PassesTime(s, AllOff(s.list), orders[1..]);
      PassLogWithoutStatus(s, status, AllOff(s.list), s.list);
      LastCue(s, status, s.list);
      ScheduledOfConcat(pass, rest);
      assert RunLog(s, status, orders) == pass + rest;
      assert |orders| * Scheduled(pass) == Scheduled(pass) + (|orders| - 1) * Scheduled(pass);
    }
  }

  lemma {:induction false} TimesOrder(n: nat, a: int, b: int)
    requires 1 <= n && a <= b
    ensures n * a <= n * b && (n * a == n * b <==> a == b)
  {
    assert n * b - n * a == n * (b - a);
    assert b - a > 0 ==> n * (b - a) >= b - a;
  }

  /**
   A new sequence of different scenes, played in list order to its end, takes at least max(1, loopTimes) times
   the announced time less the 1 ms of its last cue, and exactly this if and only if every scene is on schedule.
   */
  lemma {:induction false} RunTimeIsAnnouncedIff(s: Sequence, p: Player, n: nat)
    requires IsNew(s, p) && !s.randomized && Distinct(s.list) && s.list != [] && forall x :: x in s.list ==> Regular(x)
    requires Play(s, MoveToNext(s, p), n).player.cur.None?
    ensures var t, announced := Play(s, MoveToNext(s, p), n).timeMs, Max(1, s.loopTimes) * SeqExecutionTime(s.list) - 1;
            && announced <= t
            && (t == announced <==> forall x :: x in s.list ==> OnSchedule(x))
  {
    hide Turn, PassLog, OnSchedule, Scheduled, SeqExecutionTime, RunLog;
    var m := MoveToNext(s, p);
    EveryRunPlaysAll(s, p);
    var orders :| |orders| == Max(1, s.loopTimes) && AllPassOrders(s, orders) && PlaysPasses(s, m, p.status, orders);
    WholeRunTime(s, m, p.status, orders, n);
    PassesTime(s, p.status, orders);
    PassTimeIsAnnouncedIff(s, p.status, s.list);
    TimesOrder(|orders|, SeqExecutionTime(s.list), Scheduled(PassLog(s, p.status, s.list)));
  }

  lemma {:induction false} WholeRunTime(s: Sequence, m: Player, status: map<FxItem, SeqStatus>, orders: seq<seq<FxItem>>, n: nat)
    requires WellFormed(s, m) && m.cur.Some? && PlaysPasses(s, m, status, orders)
    requires Play(s, m, n).player.cur.None?
    ensures var log := RunLog(s, status, orders);
            log != [] && Play(s, m, n).timeMs == Scheduled(log) + log[|log| - 1].timeMs
  {
    hide Turn, Scheduled, WellFormed;
    var k := |RunLog(s, status, orders)|;
    assert Play(s, m, k).player.cur.None? && Play(s, m, k).log == RunLog(s, status, orders);
    RunTime(s, m, k);
    EndedStays(s, m, n, Max(n, k));
    EndedStays(s, m, k, Max(n, k));
  }
}
