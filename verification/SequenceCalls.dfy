/**
 Sequence playback in calls. One call of the sequence executer runs turns
 until a cue takes time or the sequence has ended; the exec loop calls it again
 when the target time has come. How a run is cut into calls never changes
 what is played.
 */
module SequenceCalls {
  import opened Common
  import opened FxItems
  import opened SequenceMachine
  import opened SequenceRun

  datatype CallResult = CallResult(course: Course, turns: nat)

  function Join(a: Course, b: Course): Course {
    Course(b.player, a.log + b.log, a.timeMs + b.timeMs)
  }

  /** The turns of one call; None if it is still busy after `fuel` more turns. */
  function Call(s: Sequence, p: Player, fuel: nat): (r: Option<CallResult>)
    requires WellFormed(s, p)
    ensures r.Some? ==> WellFormed(s, r.value.course.player)
    decreases fuel
  {
    if p.cur.None? then Some(CallResult(Course(p, [], 0), 0))
    else
      var (next, entry, time) := Turn(s, p);
      if time != 0 || next.cur.None? then Some(CallResult(Course(next, [entry], time), 1))
      else if fuel == 0 then None
      else
        match Call(s, next, fuel - 1)
        case None => None
        case Some(rest) => Some(CallResult(Join(Course(next, [entry], 0), rest.course), rest.turns + 1))
  }

  /** The call comes back. */
  ghost predicate Returns(s: Sequence, p: Player)
    requires WellFormed(s, p)
  {
    exists fuel: nat :: Call(s, p, fuel).Some?
  }

  ghost function ResultOf(s: Sequence, p: Player): (r: CallResult)
    requires WellFormed(s, p) && Returns(s, p)
    ensures WellFormed(s, r.course.player)
  {
    var fuel: nat :| Call(s, p, fuel).Some?;
    Call(s, p, fuel).value
  }

  lemma {:induction false} MoreFuel(s: Sequence, p: Player, fuel: nat, more: nat)
    requires WellFormed(s, p) && fuel <= more && Call(s, p, fuel).Some?
    ensures Call(s, p, more) == Call(s, p, fuel)
    decreases fuel
  {
    hide Turn, WellFormed;
    if p.cur.Some? {
      var (next, entry, time) := Turn(s, p);
      if time == 0 && next.cur.Some? {
        MoreFuel(s, next, fuel - 1, more - 1);
      }
    }
  }

  lemma {:induction false} ResultIs(s: Sequence, p: Player, fuel: nat)
    requires WellFormed(s, p) && Call(s, p, fuel).Some?
    ensures Returns(s, p) && ResultOf(s, p) == Call(s, p, fuel).value
  {
    hide Turn, WellFormed;
    var f: nat :| Call(s, p, f).Some? && ResultOf(s, p) == Call(s, p, f).value;
    MoreFuel(s, p, f, Max(f, fuel));
    MoreFuel(s, p, fuel, Max(f, fuel));
  }

  /** What a call does with its first turn. */
  lemma {:induction false} UnfoldResult(s: Sequence, p: Player)
    requires WellFormed(s, p) && p.cur.Some? && Returns(s, p)
    ensures var (next, entry, time) := Turn(s, p);
            if time != 0 || next.cur.None? then ResultOf(s, p) == CallResult(Course(next, [entry], time), 1)
            else
              && Returns(s, next)
              && var rest := ResultOf(s, next);
                 ResultOf(s, p) == CallResult(Join(Course(next, [entry], 0), rest.course), rest.turns + 1)
  {
    hide Turn, WellFormed;
    var (next, entry, time) := Turn(s, p);
    var fuel: nat :| Call(s, p, fuel).Some?;
    ResultIs(s, p, fuel);
    if time == 0 && next.cur.Some? {
      ResultIs(s, next, fuel - 1);
    }
  }

  /** A call plays the next turns of the run, at least one, and stops at a cue that takes time or at the end. */
  lemma {:induction false} CallFollowsPlay(s: Sequence, p: Player, fuel: nat)
    requires WellFormed(s, p) && Call(s, p, fuel).Some?
    ensures var r := Call(s, p, fuel).value;
            && r.course == Play(s, p, r.turns)
            && (p.cur.Some? ==> r.turns > 0)
            && (r.course.player.cur.Some? ==> r.course.timeMs > 0)
            && (forall k :: 0 <= k < r.turns ==> Play(s, p, k).timeMs == 0 && Play(s, p, k).player.cur.Some?)
    decreases fuel
  {
    hide MoveToNext, CueFx, WellFormed;
    if p.cur.Some? {
      var (next, entry, time) := Turn(s, p);
      if time == 0 && next.cur.Some? {
        CallFollowsPlay(s, next, fuel - 1);
        forall k | 0 < k < Call(s, p, fuel).value.turns ensures Play(s, p, k).timeMs == 0 && Play(s, p, k).player.cur.Some? {
          assert Play(s, next, k - 1).timeMs == 0;
        }
      } else {
        assert Play(s, next, 0) == Course(next, [], 0);
      }
    }
  }

  /** A run that ends cannot keep a call busy for ever. */
  lemma {:induction false} EndingRunReturns(s: Sequence, p: Player, n: nat)
    requires WellFormed(s, p) && Play(s, p, n).player.cur.None?
    ensures Call(s, p, n).Some?
    decreases n
  {
    hide Turn, WellFormed;
    if p.cur.Some? {
      var (next, entry, time) := Turn(s, p);
      if n > 1 {
        EndingRunReturns(s, next, n - 1);
      }
    }
  }

  /** Several calls one after the other, at whatever times; None if one of them never comes back. */
  ghost function Calls(s: Sequence, p: Player, k: nat): (r: Option<CallResult>)
    requires WellFormed(s, p)
    ensures r.Some? ==> WellFormed(s, r.value.course.player)
    decreases k
  {
    if k == 0 || p.cur.None? then Some(CallResult(Course(p, [], 0), 0))
    else if !Returns(s, p) then None
    else
      var first := ResultOf(s, p);
      match Calls(s, first.course.player, k - 1)
      case None => None
      case Some(rest) => Some(CallResult(Join(first.course, rest.course), first.turns + rest.turns))
  }

  /** Calls play the turns of the run in order, without leaving out or repeating one. */
  lemma {:induction false} CallsFollowPlay(s: Sequence, p: Player, n: nat, k: nat)
    requires WellFormed(s, p) && Play(s, p, n).player.cur.None?
    ensures Calls(s, p, k).Some?
    ensures var r := Calls(s, p, k).value;
            r.course == Play(s, p, r.turns) && (r.course.player.cur.None? || k <= r.turns)
    decreases k
  {
    hide Turn, WellFormed, Call;
    if k != 0 && p.cur.Some? {
      EndingRunReturns(s, p, n);
      ResultIs(s, p, n);
      CallFollowsPlay(s, p, n);
      var first := ResultOf(s, p);
      EndsAfter(s, p, first.turns, n);
      CallsFollowPlay(s, first.course.player, n, k - 1);
      PlaySplit(s, p, first.turns, Calls(s, first.course.player, k - 1).value.turns);
    }
  }

  lemma {:induction false} EndsAfter(s: Sequence, p: Player, i: nat, n: nat)
    requires WellFormed(s, p) && Play(s, p, n).player.cur.None?
    ensures Play(s, Play(s, p, i).player, n).player.cur.None?
  {
    hide Turn, WellFormed;
    PlaySplit(s, p, i, n);
    EndedStays(s, p, n, i + n);
  }

  /** No call of a run that ends can hang: the executer may always be called again. */
  lemma {:induction false} ReturnsThroughout(s: Sequence, p: Player, n: nat)
    requires WellFormed(s, p) && Play(s, p, n).player.cur.None?
    ensures Returns(s, p) && Play(s, ResultOf(s, p).course.player, n).player.cur.None?
  {
    hide Turn, WellFormed, Call;
    EndingRunReturns(s, p, n);
    ResultIs(s, p, n);
    CallFollowsPlay(s, p, n);
    EndsAfter(s, p, ResultOf(s, p).turns, n);
  }

  /** As many calls as the run has turns surely play it to its end, however the times fall. */
  lemma {:induction false} CallsPlayAll(s: Sequence, p: Player, n: nat)
    requires WellFormed(s, p) && Play(s, p, n).player.cur.None?
    ensures Calls(s, p, n).Some? && Calls(s, p, n).value.course == Play(s, p, n)
  {
    hide Turn, WellFormed, Calls;
    CallsFollowPlay(s, p, n, n);
    var r := Calls(s, p, n).value;
    EndedStays(s, p, n, Max(n, r.turns));
    if r.turns < n {
      EndedStays(s, p, r.turns, n);
    }
  }

  /**
   Played in calls, a new sequence (without repeated items, or at random)
   gives exactly the cues of its max(1, loopTimes) passes and then ends.
   */
  lemma {:induction false} EveryPlaybackEnds(s: Sequence, p: Player)
    requires IsNew(s, p) && s.list != [] && (!s.randomized ==> Distinct(s.list))
    ensures exists orders, k: nat ::
      && |orders| == Max(1, s.loopTimes) && AllPassOrders(s, orders)
      && Calls(s, MoveToNext(s, p), k).Some?
      && var c := Calls(s, MoveToNext(s, p), k).value.course;
         c.log == RunLog(s, p.status, orders) && c.player.cur.None? && c.player.loops == |orders|
  {
    hide Turn, Calls, AllPassOrders, BeginsIn;
    var m := MoveToNext(s, p);
    EveryRunPlaysAll(s, p);
    var orders :| |orders| == Max(1, s.loopTimes) && AllPassOrders(s, orders) && PlaysPasses(s, m, p.status, orders);
    PassesInCalls(s, m, p.status, orders);
    FirstPassStarts(s, p);
  }

  lemma {:induction false} PassesInCalls(s: Sequence, p: Player, status: map<FxItem, SeqStatus>, orders: seq<seq<FxItem>>)
    requires WellFormed(s, p) && PlaysPasses(s, p, status, orders)
    ensures var k := |RunLog(s, status, orders)|;
            && Calls(s, p, k).Some?
            && var c := Calls(s, p, k).value.course;
               c.log == RunLog(s, status, orders) && c.player.cur.None? && c.player.loops == p.loops + |orders|
  {
    hide Turn, Calls, WellFormed;
    var k := |RunLog(s, status, orders)|;
    assert Play(s, p, k).player.cur.None?;
    CallsPlayAll(s, p, k);
  }
}
