/**
 The timeline scheduler: the sorted event list merged with the periodic
 envelope tick, one action per call.
 */
module TimelineScheduler {
  import opened Common
  import opened TimelineEvents

  const CURVE_INTERVAL_MS := 40

  // pos: next list event; nextCurve: time of the next envelope tick, -1 while no envelope runs;
  // trigger: the next call is that tick; target: event target time.
  datatype Sched = Sched(pos: nat, nextCurve: int, trigger: bool, target: int)

  // Item also stands for the envelope processing that an EnvelopeStart event does at once.
  datatype Action = Item(pos: nat) | Envelope(timeMs: int)

  datatype StepResult = StepResult(s: Sched, actions: seq<Action>, active: bool)

  function Fresh(list: seq<Event>): Sched
    requires list != []
  {
    Sched(0, -1, false, list[0].timeMs)
  }

  /** One call. */
  function Step(list: seq<Event>, s: Sched): StepResult {
    if |list| <= s.pos then StepResult(s, [], false)
    else if s.trigger then
      var next := s.nextCurve + CURVE_INTERVAL_MS;
      var due := next <= list[s.pos].timeMs;
      StepResult(Sched(s.pos, next, due, if due then next else list[s.pos].timeMs), [Envelope(s.nextCurve)], true)
    else
      var ev := list[s.pos];
      if ev.evType == End then StepResult(s, [Item(s.pos)], false)
      else
        var next := if ev.evType == EnvelopeStart then CURVE_INTERVAL_MS else s.nextCurve;
        if s.pos + 1 == |list| then StepResult(s.(pos := s.pos + 1, nextCurve := next), [Item(s.pos)], false)
        else
          var due := 0 < next <= list[s.pos + 1].timeMs;
          StepResult(Sched(s.pos + 1, next, due, if due then next else list[s.pos + 1].timeMs), [Item(s.pos)], true)
  }

  /** The actions of all calls up to the one that reports the end. */
  function RunLog(list: seq<Event>, s: Sched): seq<Action>
    decreases |list| - s.pos,
              if s.trigger && s.pos < |list| then 1 + Max(0, list[s.pos].timeMs - s.nextCurve) else 0
  {
    var r := Step(list, s);
    if r.active then r.actions + RunLog(list, r.s) else r.actions
  }

  /** Seeking: the next event is the first one at or after ms; None if there is none. */
  function Seek(list: seq<Event>, s: Sched, ms: int): Option<Sched> {
    var n := FirstAtOrAfter(list, ms, 0);
    if n == |list| then None
    else if ms > 0 && StartsWithEnvelope(list) then Some(Sched(n, ms, true, ms))
    else Some(s.(pos := n, target := list[n].timeMs))
  }

  // ----- The invariant

  /**
   Between calls: a pending tick is due no later than the pending event, a tick
   that is not pending comes later, and the target is the time of the next action.
   */
  predicate Inv(list: seq<Event>, s: Sched) {
    && EventList(list) && s.pos < |list|
    && (if s.trigger then 0 < s.nextCurve <= list[s.pos].timeMs && s.target == s.nextCurve
        else s.target == list[s.pos].timeMs && (0 < s.nextCurve ==> list[s.pos].timeMs < s.nextCurve))
    && (list[s.pos].timeMs == 0 && 0 < s.nextCurve ==> s.nextCurve == CURVE_INTERVAL_MS)
  }

  lemma {:induction false} FreshInv(list: seq<Event>)
    requires EventList(list)
    ensures Inv(list, Fresh(list))
  {
  }

  /** Every call keeps the invariant, and the target time never decreases. */
  lemma {:induction false} StepInv(list: seq<Event>, s: Sched)
    requires Inv(list, s) && Step(list, s).active
    ensures Inv(list, Step(list, s).s) && s.target <= Step(list, s).s.target
  {
  }

  /** A seek on a fresh executer establishes it again. */
  lemma {:induction false} SeekInv(list: seq<Event>, ms: int)
    requires EventList(list) && Seek(list, Fresh(list), ms).Some?
    ensures Inv(list, Seek(list, Fresh(list), ms).value)
  {
  }

  // ----- What a run does

  function Items(log: seq<Action>): seq<nat> {
    if log == [] then []
    else (if log[0].Item? then [log[0].pos] else []) + Items(log[1..])
  }

  function Envelopes(log: seq<Action>): seq<int> {
    if log == [] then []
    else (if log[0].Envelope? then [log[0].timeMs] else []) + Envelopes(log[1..])
  }

  function From(i: nat, n: nat): seq<nat>
    requires i <= n
    decreases n - i
  {
    if i == n then [] else [i] + From(i + 1, n)
  }

  /** first, first + 40, ... up to `last`. */
  function Ticks(first: int, last: int): seq<int>
    decreases last - first
  {
    if first <= last then [first] + Ticks(first + CURVE_INTERVAL_MS, last) else []
  }

  predicate AnyEnvelope(list: seq<Event>, i: nat) {
    exists k :: i <= k < |list| && list[k].evType == EnvelopeStart
  }

  function ActionTime(list: seq<Event>, a: Action): int {
    match a
    case Item(pos) => if pos < |list| then list[pos].timeMs else 0
    case Envelope(timeMs) => timeMs
  }

  /** In time order, a tick before an event of the same time. */
  predicate Before(list: seq<Event>, a: Action, b: Action) {
    if a.Item? && b.Envelope? then ActionTime(list, a) < ActionTime(list, b)
    else ActionTime(list, a) <= ActionTime(list, b)
  }

  predicate TimeOrdered(list: seq<Event>, log: seq<Action>) {
    forall i, j :: 0 <= i < j < |log| ==> Before(list, log[i], log[j])
  }

  /** The envelope ticks of a run from state s. */
  function TicksOf(list: seq<Event>, s: Sched): seq<int>
    requires list != []
  {
    var last := list[|list| - 1].timeMs;
    if 0 < s.nextCurve then Ticks(s.nextCurve, last)
    else if AnyEnvelope(list, s.pos) then Ticks(CURVE_INTERVAL_MS, last)
    else []
  }

  lemma {:induction false} RunLogUnfolds(list: seq<Event>, s: Sched)
    requires Inv(list, s)
    ensures var r, log := Step(list, s), RunLog(list, s);
            && |r.actions| == 1 && |log| > 0 && log[0] == r.actions[0]
            && log[1..] == if r.active then RunLog(list, r.s) else []
  {
  }

  /** All list events from s.pos on, each once and in list order. */
  lemma {:induction false} RunItems(list: seq<Event>, s: Sched)
    requires Inv(list, s)
    ensures Items(RunLog(list, s)) == From(s.pos, |list|)
    decreases |list| - s.pos, if s.trigger then 1 + list[s.pos].timeMs - s.nextCurve else 0
  {
    var r := Step(list, s);
    RunLogUnfolds(list, s);
    assert From(|list|, |list|) == [];
    if r.active {
      StepInv(list, s);
      RunItems(list, r.s);
    }
  }

  lemma {:induction false} RunTicks(list: seq<Event>, s: Sched)
    requires Inv(list, s)
    ensures Envelopes(RunLog(list, s)) == TicksOf(list, s)
    decreases |list| - s.pos, if s.trigger then 1 + list[s.pos].timeMs - s.nextCurve else 0
  {
    var r := Step(list, s);
    RunLogUnfolds(list, s);
    if r.active {
      StepInv(list, s);
      RunTicks(list, r.s);
      if !s.trigger {
        assert AnyEnvelope(list, s.pos) <==> list[s.pos].evType == EnvelopeStart || AnyEnvelope(list, s.pos + 1);
      }
    }
  }

  /** Every action of a run comes at the target time of s or later; a tick then comes after a pending event. */
  lemma {:induction false} RunOrder(list: seq<Event>, s: Sched)
    requires Inv(list, s)
    ensures TimeOrdered(list, RunLog(list, s))
    ensures forall i :: 0 <= i < |RunLog(list, s)| ==> Before(list, RunLog(list, s)[0], RunLog(list, s)[i])
    ensures ActionTime(list, RunLog(list, s)[0]) == s.target && RunLog(list, s)[0].Envelope? == s.trigger
    decreases |list| - s.pos, if s.trigger then 1 + list[s.pos].timeMs - s.nextCurve else 0
  {
    var r := Step(list, s);
    RunLogUnfolds(list, s);
    if r.active {
      StepInv(list, s);
      RunOrder(list, r.s);
      var log, rest := RunLog(list, s), RunLog(list, r.s);
      assert Before(list, log[0], rest[0]);
      forall i | 0 <= i < |rest| ensures Before(list, log[0], rest[i]) {
        assert Before(list, rest[0], rest[i]);
      }
      assert forall i :: 0 < i < |log| ==> log[i] == rest[i - 1];
    }
  }

  lemma {:induction false} LogCounts(log: seq<Action>)
    ensures |log| == |Items(log)| + |Envelopes(log)|
  {
    if log != [] {
      LogCounts(log[1..]);
    }
  }

  lemma {:induction false} FromCounts(i: nat, n: nat)
    requires i <= n
    ensures |From(i, n)| == n - i && forall k :: 0 <= k < n - i ==> From(i, n)[k] == i + k
    decreases n - i
  {
    if i < n {
      FromCounts(i + 1, n);
    }
  }

  lemma {:induction false} TicksCount(first: int, last: int)
    ensures |Ticks(first, last)| == if first <= last then (last - first) / CURVE_INTERVAL_MS + 1 else 0
    ensures forall k :: 0 <= k < |Ticks(first, last)| ==> Ticks(first, last)[k] == first + k * CURVE_INTERVAL_MS
    decreases last - first
  {
    if first <= last {
      TicksCount(first + CURVE_INTERVAL_MS, last);
    }
  }

  /**
   A run from position 0 executes the whole list in order; with an envelope in
   the list it also does the ticks 40, 80, ... up to the last event, each before
   the first event that is not earlier; it takes one call per action.
   */
  lemma {:induction false} FullRun(list: seq<Event>)
    requires EventList(list)
    ensures var log, last := RunLog(list, Fresh(list)), list[|list| - 1].timeMs;
            && Items(log) == From(0, |list|)
            && Envelopes(log) == (if AnyEnvelope(list, 0) then Ticks(CURVE_INTERVAL_MS, last) else [])
            && TimeOrdered(list, log)
            && |log| == |list| + (if AnyEnvelope(list, 0) then last / 40 else 0)
            && |Items(log)| == |list| && (forall k :: 0 <= k < |list| ==> Items(log)[k] == k)
            && |Envelopes(log)| == (if AnyEnvelope(list, 0) then last / 40 else 0)
            && (forall k :: 0 <= k < |Envelopes(log)| ==> Envelopes(log)[k] == 40 * (k + 1))
  {
    var s, log := Fresh(list), RunLog(list, Fresh(list));
    RunItems(list, s);
    RunTicks(list, s);
    RunOrder(list, s);
    LogCounts(log);
    FromCounts(0, |list|);
    TicksCount(CURVE_INTERVAL_MS, list[|list| - 1].timeMs);
  }

  /**
   A run after seeking a fresh executer to ms executes the events from the first
   one at or after ms. The envelopes go on from ms exactly if the list begins
   with an envelope start; one further back in the list is lost.
   */
  lemma {:induction false} RunAfterSeek(list: seq<Event>, ms: int)
    requires EventList(list) && 0 < ms <= list[|list| - 1].timeMs
    ensures Seek(list, Fresh(list), ms).Some?
    ensures var log, last := RunLog(list, Seek(list, Fresh(list), ms).value), list[|list| - 1].timeMs;
            && Items(log) == From(FirstAtOrAfter(list, ms, 0), |list|)
            && Envelopes(log) == (if StartsWithEnvelope(list) then Ticks(ms, last) else [])
            && (Envelopes(log) != [] <==> StartsWithEnvelope(list))
            && (StartsWithEnvelope(list) ==> |Envelopes(log)| == (last - ms) / 40 + 1)
            && (forall k :: 0 <= k < |Envelopes(log)| ==> Envelopes(log)[k] == ms + 40 * k)
            && TimeOrdered(list, log)
  {
    var s := Seek(list, Fresh(list), ms).value;
    SeekInv(list, ms);
    RunItems(list, s);
    RunTicks(list, s);
    RunOrder(list, s);
    TicksCount(ms, list[|list| - 1].timeMs);
    assert forall k :: s.pos <= k < |list| ==> list[s.pos].timeMs <= list[k].timeMs;
  }

  /**
   A seek of a running executer whose list does not begin with an envelope start leaves a pending tick pending: the
   next call still does it, for its old time, and only then come the events from the new position on.
   */
  lemma {:induction false} SeekKeepsPendingTick(list: seq<Event>, s: Sched, ms: int)
    requires EventList(list) && !StartsWithEnvelope(list) && s.trigger && Seek(list, s, ms).Some?
    ensures var r := Seek(list, s, ms).value;
            && Step(list, r).actions == [Envelope(s.nextCurve)] && Step(list, r).active
            && Step(list, r).s.pos == FirstAtOrAfter(list, ms, 0) && Step(list, r).s.nextCurve == s.nextCurve + 40
  {
  }

  /** One that is not pending yet comes with the next event that is not earlier. */
  lemma {:induction false} SeekKeepsClock(list: seq<Event>, s: Sched, ms: int)
    requires EventList(list) && !StartsWithEnvelope(list) && !s.trigger && Seek(list, s, ms).Some? && 0 < s.nextCurve
    requires var n := FirstAtOrAfter(list, ms, 0); n + 1 < |list| && list[n].evType != EnvelopeStart && list[n].evType != End
    ensures var n, r := FirstAtOrAfter(list, ms, 0), Step(list, Seek(list, s, ms).value);
            r.actions == [Item(n)] && (r.s.trigger <==> s.nextCurve <= list[n + 1].timeMs) && r.s.nextCurve == s.nextCurve
  {
  }

  /** Seeking to the begin changes nothing. */
  lemma {:induction false} SeekToBegin(list: seq<Event>)
    requires EventList(list)
    ensures Seek(list, Fresh(list), 0) == Some(Fresh(list))
  {
  }

  /**
   For a timeline: after a seek the envelopes run exactly if, below its last
   usable curve track, no object begins at 0.
   */
  lemma {:induction false} SeekKeepsEnvelopesIff(tl: TimeLine, ms: int)
    requires tl.NonNegative() && BuildEvents(tl) != []
    requires 0 < ms <= BuildEvents(tl)[|BuildEvents(tl)| - 1].timeMs
    ensures var list := BuildEvents(tl);
            Seek(list, Fresh(list), ms).Some? &&
            (Envelopes(RunLog(list, Seek(list, Fresh(list), ms).value)) != [] <==> EnvelopeInFront(tl, |tl.tracks|))
  {
    BuiltListIsSorted(tl);
    BuiltListFront(tl);
    RunAfterSeek(BuildEvents(tl), ms);
  }
}
