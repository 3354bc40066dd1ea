/**
 Calls that never come back. A call is busy for ever when the run is caught in
 lines of which none waits or pauses. With backward jumps only, the lines in
 which it is caught can be read off the script, so the scripts that hang are
 known exactly: in their first call, and in any later one.
 */
module ScriptBusyLoops {
  import opened Common
  import opened ScriptMachine
  import opened ScriptTermination
  import opened ScriptPlayback

  /** Executing the line ends a call. */
  predicate Stops(line: Line) {
    line.Line? && (line.cmd.Wait? || line.cmd.Pause?)
  }

  /** A call at this time ends at the line. */
  predicate EndsCall(line: Line, now: int) {
    Stops(line) || TooEarly(line, now)
  }

  /** The LOOP on line k can jump; one whose count is at most 1 never does. */
  predicate Turns(script: seq<Line>, k: nat)
    requires k < |script|
  {
    JumpAt(script, k).Always? || (JumpAt(script, k).Counted? && 2 <= JumpAt(script, k).times)
  }

  /** No jump and no line end leads out of the lines lo to i. */
  predicate Closed(script: seq<Line>, lo: nat, i: nat)
    requires i < |script|
  {
    && JumpAt(script, i).Always?
    && forall k {:trigger JumpAt(script, k)} :: lo <= k <= i && Turns(script, k) ==> lo <= JumpAt(script, k).target <= i
  }

  lemma {:induction false} ClosedStays(script: seq<Line>, m: Machine, lo: nat, i: nat)
    requires i < |script| && Closed(script, lo, i) && CountersInRange(script, m) && lo <= m.pc <= i
    ensures var r := Dispatch(script, m); CountersInRange(script, r) && lo <= r.pc <= i
  {
    DispatchKeepsRange(script, m);
    assert Turns(script, m.pc) ==> lo <= JumpAt(script, m.pc).target <= i;
    assert 0 <= Visits(script, m, m.pc);
  }

  lemma {:induction false} ClosedKeeps(script: seq<Line>, m: Machine, lo: nat, i: nat, n: nat)
    requires i < |script| && Closed(script, lo, i) && CountersInRange(script, m) && lo <= m.pc <= i
    ensures var r := Run(script, m, n); CountersInRange(script, r) && lo <= r.pc <= i
    decreases n
  {
    hide Closed, Dispatch;
    if n > 0 {
      ClosedStays(script, m, lo, i);
      ClosedKeeps(script, Dispatch(script, m), lo, i, n - 1);
    }
  }

  /** In any script: caught in lines of which none ends the call, a call never comes back. */
  lemma {:induction false} BusyLoop(script: seq<Line>, m: Machine, now: int, lo: nat, i: nat, fuel: nat)
    requires i < |script| && Closed(script, lo, i) && CountersInRange(script, m) && lo <= m.pc <= i
    requires forall k :: lo <= k <= i ==> !EndsCall(script[k], now)
    ensures Call(script, m, now, fuel).None?
    decreases fuel
  {
    hide Closed, Dispatch;
    assert !EndsCall(script[m.pc], now);
    if fuel > 0 {
      ClosedStays(script, m, lo, i);
      BusyLoop(script, Dispatch(script, m), now, lo, i, fuel - 1);
    }
  }

  /** A run that comes to a line that ends the call ends it. */
  lemma {:induction false} StopReturns(script: seq<Line>, m: Machine, now: int, n: nat)
    requires WellFormed(script, m)
    requires var at := Run(script, m, n); !Finished(script, at) ==> EndsCall(script[at.pc], now)
    ensures Returns(script, m, now)
    decreases n
  {
    if n == 0 || Finished(script, m) || EndsCall(script[m.pc], now) {
      assert Call(script, m, now, 0).Some?;
    } else {
      var next := Dispatch(script, m);
      StopReturns(script, next, now, n - 1);
      var fuel: nat :| Call(script, next, now, fuel).Some?;
      assert Call(script, m, now, fuel + 1).Some?;
    }
  }

  // ----- The first LOOP without count

  /** Line i holds the first uncounted LOOP. */
  predicate FirstEndless(script: seq<Line>, i: nat) {
    i < |script| && JumpAt(script, i).Always? && CountedBelow(script, i)
  }

  lemma {:induction false} FindEndless(script: seq<Line>, hi: nat) returns (i: nat)
    requires hi < |script| && JumpAt(script, hi).Always?
    ensures i <= hi && FirstEndless(script, i)
    decreases hi
  {
    if CountedBelow(script, hi) {
      i := hi;
    } else {
      var k :| 0 <= k < hi && JumpAt(script, k).Always?;
      i := FindEndless(script, k);
    }
  }

  /** A state from which the run has not got past line i, and never will. */
  predicate Below(script: seq<Line>, m: Machine, i: nat) {
    CountersInRange(script, m) && 0 <= m.pc <= i < |script|
  }

  lemma {:induction false} BelowStays(script: seq<Line>, m: Machine, i: nat, n: nat)
    requires BackwardOnly(script) && i < |script| && JumpAt(script, i).Always? && Below(script, m, i)
    ensures Below(script, Run(script, m, n), i)
  {
    ClosedKeeps(script, m, 0, i, n);
  }

  /** The run comes to line i. */
  lemma {:induction false} ReachesEnd(script: seq<Line>, m: Machine, i: nat) returns (n: nat)
    requires BackwardOnly(script) && FirstEndless(script, i) && Below(script, m, i)
    ensures Run(script, m, n).pc == i && n <= Remaining(script, m, i)
    decreases Remaining(script, m, i)
  {
    RemainingBounds(script, m, i);
    n := 0;
    if m.pc < i {
      var next := Dispatch(script, m);
      DispatchDecreases(script, m, i);
      ClosedStays(script, m, 0, i);
      n := ReachesEnd(script, next, i);
      n := n + 1;
    }
  }

  /** On its way from a line up to k to a line from k on the run comes to line k. */
  lemma {:induction false} Crosses(script: seq<Line>, m: Machine, n: nat, k: nat) returns (j: nat)
    requires BackwardOnly(script) && WellFormed(script, m) && 0 <= m.pc <= k < |script| && k <= Run(script, m, n).pc
    ensures j <= n && Run(script, m, j).pc == k
    decreases n
  {
    j := 0;
    if m.pc < k {
      assert JumpAt(script, m.pc).Invalid? || 0 <= JumpAt(script, m.pc).target <= m.pc;
      j := Crosses(script, Dispatch(script, m), n - 1, k);
      j := j + 1;
    }
  }

  // ----- The recurring body

  /** The least line to which one of the lines lo to hi jumps, at most lo. */
  function LeastTarget(script: seq<Line>, lo: nat, hi: int): (l: nat)
    requires hi < |script|
    ensures l <= lo
    decreases hi - lo + 1
  {
    if hi < lo then lo
    else
      var l := LeastTarget(script, lo, hi - 1);
      if Turns(script, hi) then Min(l, Max(0, JumpAt(script, hi).target)) else l
  }

  lemma {:induction false} LeastTargetIs(script: seq<Line>, lo: nat, hi: int)
    requires BackwardOnly(script) && hi < |script|
    ensures var l := LeastTarget(script, lo, hi);
            && (forall k {:trigger JumpAt(script, k)} :: lo <= k <= hi && Turns(script, k) ==> l <= JumpAt(script, k).target)
            && (l < lo ==> exists k :: lo <= k <= hi && Turns(script, k) && JumpAt(script, k).target == l)
    decreases hi - lo + 1
  {
    if lo <= hi {
      LeastTargetIs(script, lo, hi - 1);
      assert JumpAt(script, hi).Invalid? || 0 <= JumpAt(script, hi).target <= hi;
    }
  }

  /** The line from which on a run below line i comes again and again: jumps of the body may widen the body. */
  function Widened(script: seq<Line>, lo: nat, i: nat): (l: nat)
    requires lo <= i < |script|
    ensures l <= lo
    decreases lo
  {
    var l := LeastTarget(script, lo, i);
    if l < lo then Widened(script, l, i) else lo
  }

  function BodyStart(script: seq<Line>, i: nat): (lo: nat)
    requires i < |script|
    ensures lo <= i
  {
    Widened(script, i, i)
  }

  lemma {:induction false} WidenedIsClosed(script: seq<Line>, lo: nat, i: nat)
    requires BackwardOnly(script) && lo <= i < |script| && JumpAt(script, i).Always?
    ensures Closed(script, Widened(script, lo, i), i)
    decreases lo
  {
    var l := LeastTarget(script, lo, i);
    if l < lo {
      WidenedIsClosed(script, l, i);
    } else {
      LeastTargetIs(script, lo, i);
      forall k {:trigger JumpAt(script, k)} | lo <= k <= i && Turns(script, k) ensures lo <= JumpAt(script, k).target <= i {
        assert JumpAt(script, k).Invalid? || 0 <= JumpAt(script, k).target <= k;
      }
    }
  }

  ghost predicate Reaches(script: seq<Line>, m: Machine, k: nat)
    requires WellFormed(script, m)
  {
    exists n: nat :: Run(script, m, n).pc == k
  }

  /** From every state below line i the run comes to each of the lines lo to i. */
  ghost predicate Recurs(script: seq<Line>, lo: nat, i: nat) {
    forall m, k: nat :: Below(script, m, i) && lo <= k <= i ==> Reaches(script, m, k)
  }

  lemma {:induction false} ReachesAfter(script: seq<Line>, m: Machine, n: nat, k: nat)
    requires WellFormed(script, m) && Reaches(script, Run(script, m, n), k)
    ensures Reaches(script, m, k)
  {
    var j: nat :| Run(script, Run(script, m, n), j).pc == k;
    RunSplit(script, m, n, j);
    assert Run(script, m, n + j).pc == k;
  }

  /** A counter that has risen shows that its LOOP has jumped. */
  lemma {:induction false} RiseJumps(script: seq<Line>, m: Machine, j: nat, n: nat) returns (k: nat)
    requires CountersInRange(script, m) && j < |script| && JumpAt(script, j).Counted?
    requires Visits(script, Run(script, m, n), j) > Visits(script, m, j)
    ensures Run(script, m, k).pc == JumpAt(script, j).target
    decreases n
  {
    var next := Dispatch(script, m);
    DispatchKeepsRange(script, m);
    assert Visits(script, m, j) == m.count[j];
    if m.pc == j && !LetsPass(script, m) {
      k := 1;
      assert Run(script, m, 1) == Run(script, next, 0);
    } else {
      if m.pc == j {
        CounterNext(script, m);
      }
      k := RiseJumps(script, next, j, n - 1);
      k := k + 1;
    }
  }

  lemma {:induction false} JumpReaches(script: seq<Line>, m: Machine)
    requires WellFormed(script, m) && !Finished(script, m) && Turns(script, m.pc) && !LetsPass(script, m)
    requires 0 <= JumpAt(script, m.pc).target
    ensures Reaches(script, m, JumpAt(script, m.pc).target)
  {
    var next := Dispatch(script, m);
    assert Run(script, m, 1) == Run(script, next, 0) == next;
  }

  /** A LOOP that the run comes to again and again jumps, after at most one round more. */
  lemma {:induction false} TurnIsTaken(script: seq<Line>, m: Machine, lo: nat, i: nat, j: nat)
    requires BackwardOnly(script) && FirstEndless(script, i) && Below(script, m, i)
    requires Recurs(script, lo, i) && lo <= j <= i && Turns(script, j) && 0 <= JumpAt(script, j).target
    ensures Reaches(script, m, JumpAt(script, j).target)
  {
    hide BackwardOnly, CountedBelow, Recurs, Dispatch;
    var target := JumpAt(script, j).target;
    var n, at := ComesTo(script, m, lo, i, j);
    if LetsPass(script, at) {
      var next := Dispatch(script, at);
      PassedIsReset(script, at);
      ClosedBelow(script, at, i);
      var k, again := ComesTo(script, next, lo, i, j);
      if LetsPass(script, again) {
        PassingIsHigh(script, again);
        var r := RiseJumps(script, next, j, k);
        assert Reaches(script, next, target);
      } else {
        JumpReaches(script, again);
        ReachesAfter(script, next, k, target);
      }
      assert Run(script, at, 1) == Run(script, next, 0);
      ReachesAfter(script, at, 1, target);
    } else {
      JumpReaches(script, at);
    }
    ReachesAfter(script, m, n, target);
  }

  lemma {:induction false} ComesTo(script: seq<Line>, m: Machine, lo: nat, i: nat, j: nat) returns (n: nat, at: Machine)
    requires BackwardOnly(script) && FirstEndless(script, i) && Below(script, m, i) && Recurs(script, lo, i) && lo <= j <= i
    ensures at == Run(script, m, n) && at.pc == j && Below(script, at, i)
  {
    assert Reaches(script, m, j);
    n :| Run(script, m, n).pc == j;
    at := Run(script, m, n);
    BelowStays(script, m, i, n);
  }

  lemma {:induction false} ClosedBelow(script: seq<Line>, m: Machine, i: nat)
    requires BackwardOnly(script) && FirstEndless(script, i) && Below(script, m, i)
    ensures Below(script, Dispatch(script, m), i)
  {
    ClosedStays(script, m, 0, i);
  }

  lemma {:induction false} PassedIsReset(script: seq<Line>, m: Machine)
    requires CountersInRange(script, m) && LetsPass(script, m)
    ensures Visits(script, Dispatch(script, m), m.pc) == 0
  {
    CounterNext(script, m);
  }

  lemma {:induction false} PassingIsHigh(script: seq<Line>, m: Machine)
    requires CountersInRange(script, m) && LetsPass(script, m) && Turns(script, m.pc)
    ensures 0 < Visits(script, m, m.pc)
  {
  }

  lemma {:induction false} RecursWidened(script: seq<Line>, lo: nat, l: nat, i: nat)
    requires BackwardOnly(script) && FirstEndless(script, i) && Recurs(script, lo, i) && l < lo <= i
    requires exists j :: lo <= j <= i && Turns(script, j) && JumpAt(script, j).target == l
    ensures Recurs(script, l, i)
  {
    hide BackwardOnly, CountedBelow;
    var j :| lo <= j <= i && Turns(script, j) && JumpAt(script, j).target == l;
    forall m, k: nat | Below(script, m, i) && l <= k <= i ensures Reaches(script, m, k) {
      TurnIsTaken(script, m, lo, i, j);
      var n: nat :| Run(script, m, n).pc == l;
      BelowStays(script, m, i, n);
      FromBehind(script, Run(script, m, n), i, k);
      ReachesAfter(script, m, n, k);
    }
  }

  /** From a line up to k, line k is reached on the way to line i. */
  lemma {:induction false} FromBehind(script: seq<Line>, m: Machine, i: nat, k: nat)
    requires BackwardOnly(script) && FirstEndless(script, i) && Below(script, m, i) && m.pc <= k <= i
    ensures Reaches(script, m, k)
  {
    var n := ReachesEnd(script, m, i);
    var j := Crosses(script, m, n, k);
  }

  lemma {:induction false} BodyRecurs(script: seq<Line>, lo: nat, i: nat)
    requires BackwardOnly(script) && FirstEndless(script, i) && lo <= i && Recurs(script, lo, i)
    ensures Recurs(script, Widened(script, lo, i), i)
    decreases lo
  {
    hide BackwardOnly, Recurs;
    LeastTargetIs(script, lo, i);
    var l := LeastTarget(script, lo, i);
    if l < lo {
      RecursWidened(script, lo, l, i);
      BodyRecurs(script, l, i);
    }
  }

  /** Each line of the body of the first uncounted LOOP is reached again and again, in every run. */
  lemma {:induction false} BodyIsReached(script: seq<Line>, m: Machine, i: nat, k: nat)
    requires BackwardOnly(script) && FirstEndless(script, i) && Below(script, m, i)
    requires BodyStart(script, i) <= k <= i
    ensures Reaches(script, m, k)
  {
    forall r, j: nat | Below(script, r, i) && i <= j <= i ensures Reaches(script, r, j) {
      FromBehind(script, r, i, j);
    }
    BodyRecurs(script, i, i);
  }

  // ----- Which calls hang

  /** The body of the first uncounted LOOP holds no line that waits or pauses. */
  predicate BusyBody(script: seq<Line>, i: nat) {
    FirstEndless(script, i) && forall k :: BodyStart(script, i) <= k <= i ==> !Stops(script[k])
  }

  /** With backward jumps only, the first call comes back if and only if before every uncounted LOOP a line ends it. */
  lemma {:induction false} FirstCallReturnsIff(script: seq<Line>, now: int)
    requires BackwardOnly(script)
    ensures Returns(script, Start(script), now) <==>
              forall i {:trigger JumpAt(script, i)} :: 0 <= i < |script| && JumpAt(script, i).Always? ==>
                exists k :: 0 <= k <= i && EndsCall(script[k], now)
  {
    var m := Start(script);
    StartInRange(script);
    forall i {:trigger JumpAt(script, i)} | 0 <= i < |script| && JumpAt(script, i).Always? && Returns(script, m, now)
      ensures exists k :: 0 <= k <= i && EndsCall(script[k], now)
    {
      if forall k :: 0 <= k <= i ==> !EndsCall(script[k], now) {
        forall fuel: nat ensures Call(script, m, now, fuel).None? {
          BusyLoop(script, m, now, 0, i, fuel);
        }
      }
    }
    if forall i {:trigger JumpAt(script, i)} :: 0 <= i < |script| && JumpAt(script, i).Always? ==>
         exists k :: 0 <= k <= i && EndsCall(script[k], now)
    {
      if AllCounted(script) {
        CallReturns(script, m, now);
      } else {
        var hi :| 0 <= hi < |script| && JumpAt(script, hi).Always?;
        var i := FindEndless(script, hi);
        var k :| 0 <= k <= i && EndsCall(script[k], now);
        FromBehind(script, m, i, k);
        var n: nat :| Run(script, m, n).pc == k;
        StopReturns(script, m, now, n);
      }
    }
  }

  /** If the body waits or pauses, every call of a playback comes back, at whatever times. */
  lemma {:induction false} WaitingBodyReturns(script: seq<Line>, m: Machine, i: nat, nows: seq<int>)
    requires BackwardOnly(script) && FirstEndless(script, i) && Below(script, m, i) && !BusyBody(script, i)
    ensures Playback(script, m, nows).Some?
    decreases |nows|
  {
    if nows != [] {
      var k :| BodyStart(script, i) <= k <= i && Stops(script[k]);
      BodyIsReached(script, m, i, k);
      var n: nat :| Run(script, m, n).pc == k;
      StopReturns(script, m, nows[0], n);
      ResultFollowsRun(script, m, nows[0]);
      var r := ResultOf(script, m, nows[0]);
      BelowStays(script, m, i, r.steps);
      WaitingBodyReturns(script, r.m, i, nows[1..]);
    }
  }

  /** The call comes when no line up to i has to wait for its absolute time any more. */
  predicate Late(script: seq<Line>, i: nat, now: int)
    requires i < |script|
  {
    forall k :: 0 <= k <= i ==> !TooEarly(script[k], now)
  }

  lemma {:induction false} LateCallAdvances(script: seq<Line>, m: Machine, i: nat, now: int)
    requires Below(script, m, i) && Late(script, i, now) && Returns(script, m, now)
    ensures ResultOf(script, m, now).steps > 0
  {
    var fuel: nat :| Call(script, m, now, fuel).Some?;
    ResultIs(script, m, now, fuel);
  }

  /** Otherwise one of enough late calls hangs: from line `entry` of the run on it is caught in the body. */
  lemma {:induction false} BusyBodyHangs(script: seq<Line>, m: Machine, i: nat, entry: int, nows: seq<int>)
    requires BackwardOnly(script) && BusyBody(script, i) && Below(script, m, i)
    requires nows != [] && entry < |nows| && forall j :: 0 <= j < |nows| ==> Late(script, i, nows[j])
    requires 0 <= entry ==> BodyStart(script, i) <= Run(script, m, entry).pc
    requires entry < 0 ==> BodyStart(script, i) <= m.pc
    ensures Playback(script, m, nows).None?
    decreases |nows|
  {
    hide BackwardOnly, Late;
    var lo, now := BodyStart(script, i), nows[0];
    assert Late(script, i, now);
    if lo <= m.pc {
      CaughtCallHangs(script, m, i, now);
    } else if Returns(script, m, now) {
      LateCallAdvances(script, m, i, now);
      ResultFollowsRun(script, m, now);
      var r := ResultOf(script, m, now);
      BelowStays(script, m, i, r.steps);
      if r.steps <= entry {
        RunSplit(script, m, r.steps, entry - r.steps);
      } else {
        RunSplit(script, m, entry, r.steps - entry);
        BelowStays(script, m, i, entry);
        CaughtStays(script, Run(script, m, entry), i, r.steps - entry);
      }
      BusyBodyHangs(script, r.m, i, entry - r.steps, nows[1..]);
    }
  }

  lemma {:induction false} CaughtStays(script: seq<Line>, m: Machine, i: nat, n: nat)
    requires BackwardOnly(script) && FirstEndless(script, i) && Below(script, m, i) && BodyStart(script, i) <= m.pc
    ensures BodyStart(script, i) <= Run(script, m, n).pc
  {
    WidenedIsClosed(script, i, i);
    ClosedKeeps(script, m, BodyStart(script, i), i, n);
  }

  lemma {:induction false} CaughtCallHangs(script: seq<Line>, m: Machine, i: nat, now: int)
    requires BackwardOnly(script) && BusyBody(script, i) && Below(script, m, i) && BodyStart(script, i) <= m.pc && Late(script, i, now)
    ensures !Returns(script, m, now)
  {
    WidenedIsClosed(script, i, i);
    forall fuel: nat ensures Call(script, m, now, fuel).None? {
      BusyLoop(script, m, now, BodyStart(script, i), i, fuel);
    }
  }

  /** A busy body hangs every playback from any state before it, after at most Budget + 2 late calls. */
  lemma {:induction false} BusyPlaybackHangs(script: seq<Line>, m: Machine, i: nat, nows: seq<int>)
    requires BackwardOnly(script) && BusyBody(script, i) && Below(script, m, i)
    requires Budget(script, i) + 2 <= |nows| && forall j :: 0 <= j < |nows| ==> Late(script, i, nows[j])
    ensures Playback(script, m, nows).None?
  {
    var n := ReachesEnd(script, m, i);
    RemainingBounds(script, m, i);
    BusyBodyHangs(script, m, i, n, nows);
  }

  /** A time at which no line has to wait any more. */
  function LatestTime(script: seq<Line>): (t: int)
    ensures 0 <= t && forall k :: 0 <= k < |script| ==> !TooEarly(script[k], t)
  {
    if script == [] then 0
    else
      var last := |script| - 1;
      Max(LatestTime(script[..last]), script[last].execTimeMs)
  }

  lemma {:induction false} LateFrom(script: seq<Line>, i: nat, now: int)
    requires i < |script| && LatestTime(script) <= now
    ensures Late(script, i, now)
  {
    assert forall k :: 0 <= k <= i ==> !TooEarly(script[k], LatestTime(script));
  }

  /** The exec loop can call late as often as it likes. */
  lemma {:induction false} LateCalls(script: seq<Line>, m: Machine, i: nat, targetMs: int, n: nat) returns (nows: seq<int>)
    requires WellFormed(script, m) && i < |script|
    ensures |nows| == n && Gated(script, m, targetMs, nows)
    ensures forall j :: 0 <= j < n ==> Late(script, i, nows[j])
    decreases n
  {
    hide Late;
    nows := [];
    if n > 0 {
      var now := Max(targetMs, LatestTime(script));
      LateFrom(script, i, now);
      var next, target := m, targetMs;
      if Returns(script, m, now) {
        var r := ResultOf(script, m, now);
        next, target := r.m, NextTarget(r.exit, targetMs);
      }
      var rest := LateCalls(script, next, i, target, n - 1);
      nows := [now] + rest;
      assert nows[1..] == rest;
    }
  }

  /** The exec loop makes a call that hangs. */
  ghost predicate SomeCallHangs(script: seq<Line>) {
    exists nows :: GatedFromStart(script, nows) && Played(script, nows).None?
  }

  /**
   With backward jumps only, some call of some playback hangs if and only if the body of the first uncounted LOOP
   holds no line that waits or pauses.
   */
  lemma {:induction false} SomeCallHangsIff(script: seq<Line>)
    requires BackwardOnly(script)
    ensures SomeCallHangs(script) <==> exists i: nat :: BusyBody(script, i)
  {
    StartInRange(script);
    if i: nat :| BusyBody(script, i) {
      var nows := LateCalls(script, Start(script), i, 0, Budget(script, i) + 2);
      BusyPlaybackHangs(script, Start(script), i, nows);
      assert GatedFromStart(script, nows) && Played(script, nows).None?;
    } else if AllCounted(script) {
      forall nows ensures Played(script, nows).Some? {
        CountedPlaybackReturns(script, Start(script), nows);
      }
    } else {
      var hi :| 0 <= hi < |script| && JumpAt(script, hi).Always?;
      var i := FindEndless(script, hi);
      assert !BusyBody(script, i);
      forall nows ensures Played(script, nows).Some? {
        WaitingBodyReturns(script, Start(script), i, nows);
      }
    }
  }

  /** WAIT, a line, LOOP 2: the first call comes back, the second one never does. */
  lemma {:induction false} SecondCallHangs(delayMs: int, code: int, now: int)
    ensures var script := [Line(-1, Wait(delayMs)), Line(-1, Effect(code)), Line(-1, Loop([2]))];
            && Returns(script, Start(script), 0)
            && !Returns(script, ResultOf(script, Start(script), 0).m, now)
  {
    var script := [Line(-1, Wait(delayMs)), Line(-1, Effect(code)), Line(-1, Loop([2]))];
    var m := Start(script);
    StartInRange(script);
    assert Call(script, m, 0, 0) == Some(Result(Dispatch(script, m), [script[0]], 1, Waiting(delayMs)));
    ResultIs(script, m, 0, 0);
    DispatchKeepsRange(script, m);
    assert JumpAt(script, 2) == Always(1) && JumpAt(script, 1) == Invalid;
    forall fuel: nat ensures Call(script, Dispatch(script, m), now, fuel).None? {
      BusyLoop(script, Dispatch(script, m), now, 1, 2, fuel);
    }
  }
}
