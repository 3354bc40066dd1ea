/** The timeline executer as an object, proved against TimelineEvents and TimelineScheduler. */
module TimelineExecuters {
  import opened Common
  import opened TimelineEvents
  import opened TimelineScheduler

  class TimeLineExecuter {
    const fxTimeLine: TimeLine
    var sortedObjEventList: seq<Event>
    var curEventPos: nat
    var nextCurveTrackEventAtMs: int
    var triggerCurveEvent: bool
    var eventTargetTimeMs: int
    var finalEventAtMs: int
    var state: ExecState
    ghost var log: seq<Action>  // what has been executed so far

    function Now(): Sched
      reads this
    {
      Sched(curEventPos, nextCurveTrackEventAtMs, triggerCurveEvent, eventTargetTimeMs)
    }

    /** Every call keeps this (module TimelineScheduler) as long as it reports more to do. */
    ghost predicate Valid()
      reads this
    {
      sortedObjEventList == BuildEvents(fxTimeLine) && Inv(sortedObjEventList, Now())
    }

    constructor (timeline: TimeLine)
      ensures fxTimeLine == timeline && log == [] && state == Idle
      ensures sortedObjEventList == BuildEvents(timeline)
      ensures sortedObjEventList != [] ==> Now() == Fresh(sortedObjEventList)
      ensures timeline.NonNegative() && sortedObjEventList != [] ==> Valid()
    {
      fxTimeLine := timeline;
      sortedObjEventList, curEventPos, nextCurveTrackEventAtMs, triggerCurveEvent := [], 0, -1, false;
      eventTargetTimeMs, finalEventAtMs, state, log := 0, 0, Idle, [];
      new;
      var valid := GetTimeLineObjs();
      if valid {
        eventTargetTimeMs := sortedObjEventList[curEventPos].timeMs;
        if timeline.NonNegative() {
          BuiltListIsSorted(timeline);
        }
      }
    }

    method InsertEvent(ev: Event)
      modifies this`sortedObjEventList
      ensures sortedObjEventList == Insert(old(sortedObjEventList), ev)
    {
      var n := 0;
      while n < |sortedObjEventList| && ev.timeMs > sortedObjEventList[n].timeMs
        invariant n <= |sortedObjEventList|
        invariant FirstAtOrAfter(sortedObjEventList, ev.timeMs, 0) == FirstAtOrAfter(sortedObjEventList, ev.timeMs, n)
      {
        n := n + 1;
      }
      sortedObjEventList := sortedObjEventList[..n] + [ev] + sortedObjEventList[n..];
    }

    method FindTargetTrackForCurve(curveTrack: nat) returns (target: int)
      requires curveTrack <= |fxTimeLine.tracks|
      ensures target >= 0 <==> fxTimeLine.HasTarget(curveTrack)
      ensures target >= 0 ==> target < curveTrack && fxTimeLine.tracks[target].kind.Items?
      ensures forall t :: target < t < curveTrack && 0 <= t ==> !fxTimeLine.tracks[t].kind.Items?
    {
      target := curveTrack - 1;
      while target >= 0
        invariant -1 <= target < curveTrack
        invariant forall t :: target < t < curveTrack ==> !fxTimeLine.tracks[t].kind.Items?
      {
        if fxTimeLine.tracks[target].kind.Items? {
          return;
        }
        target := target - 1;
      }
    }

    /** Builds the sorted event list; false if there is nothing to execute. */
    method GetTimeLineObjs() returns (ok: bool)
      requires sortedObjEventList == []
      modifies this`sortedObjEventList, this`finalEventAtMs
      ensures sortedObjEventList == BuildEvents(fxTimeLine)
      ensures ok == (sortedObjEventList != [])
      ensures finalEventAtMs == if ok then sortedObjEventList[|sortedObjEventList| - 1].timeMs else 0
    {
      var tl := fxTimeLine;
      var lastEventMs := 0;
      for t := 0 to |tl.tracks|
        invariant sortedObjEventList == AddTracks(tl, t)
        invariant lastEventMs == LastEnd(tl, t)
      {
        if tl.tracks[t].kind.Items? {
          lastEventMs := AddItemTrack(t, lastEventMs);
        } else if tl.tracks[t].kind.Curve? && tl.ObjsOf(t) != [] {
          var target := FindTargetTrackForCurve(t);
          if target >= 0 {
            sortedObjEventList := [Event(EnvelopeStart, 0, tl.tracks[t].trackId, 0)] + sortedObjEventList;
          }
        }
      }
      if sortedObjEventList == [] {
        finalEventAtMs := 0;
        return false;
      }
      if lastEventMs > 0 {
        sortedObjEventList := sortedObjEventList + [EndAt(lastEventMs)];
      }
      finalEventAtMs := sortedObjEventList[|sortedObjEventList| - 1].timeMs;
      return true;
    }

    method AddItemTrack(t: nat, lastEventMs: int) returns (last: int)
      requires t < |fxTimeLine.tracks|
      modifies this`sortedObjEventList
      ensures var objs := fxTimeLine.ObjsOf(t);
        && sortedObjEventList == AddObjs(objs, t, |objs|, old(sortedObjEventList))
        && last == LastEndOf(objs, |objs|, lastEventMs)
    {
      var objs := fxTimeLine.ObjsOf(t);
      last := lastEventMs;
      for i := 0 to |objs|
        invariant sortedObjEventList == AddObjs(objs, t, i, old(sortedObjEventList))
        invariant last == LastEndOf(objs, i, lastEventMs)
      {
        var o := objs[i];
        InsertEvent(BeginOf(t, i, o));
        if o.StopAtMs() > 0 {
          InsertEvent(StopOf(t, i, o));
        }
        if o.EndMs() > last {
          last := o.EndMs();
        }
      }
    }

    /** Moves to the next event; false if there is none. */
    method FindNextObj() returns (found: bool)
      modifies this`curEventPos
      ensures curEventPos == old(curEventPos) + 1 && found == (curEventPos < |sortedObjEventList|)
    {
      curEventPos := curEventPos + 1;
      found := curEventPos < |sortedObjEventList|;
    }

    /** The pending envelope tick. */
    method ProcessCurveEvent()
      requires triggerCurveEvent && curEventPos < |sortedObjEventList|
      modifies this`nextCurveTrackEventAtMs, this`triggerCurveEvent, this`eventTargetTimeMs, this`log
      ensures var r := Step(sortedObjEventList, old(Now()));
        Now() == r.s && r.active && log == old(log) + r.actions
    {
      log := log + [Envelope(nextCurveTrackEventAtMs)];
      nextCurveTrackEventAtMs := nextCurveTrackEventAtMs + CURVE_INTERVAL_MS;
      if nextCurveTrackEventAtMs <= sortedObjEventList[curEventPos].timeMs {
        eventTargetTimeMs := nextCurveTrackEventAtMs;
        triggerCurveEvent := true;
      } else {
        eventTargetTimeMs := sortedObjEventList[curEventPos].timeMs;
        triggerCurveEvent := false;
      }
    }

    /** The next list event. */
    method ProcessListEvent() returns (active: bool)
      requires !triggerCurveEvent && curEventPos < |sortedObjEventList|
      modifies this
      ensures sortedObjEventList == old(sortedObjEventList)
      ensures var r := Step(sortedObjEventList, old(Now()));
        Now() == r.s && active == r.active && log == old(log) + r.actions
      ensures state == if BeginsPause(fxTimeLine, sortedObjEventList[old(curEventPos)]) then Paused else old(state)
    {
      var ev := sortedObjEventList[curEventPos];
      log := log + [Item(curEventPos)];
      if BeginsPause(fxTimeLine, ev) {
        state := Paused;
      } else if ev.evType == End {
        return false;
      } else if ev.evType == EnvelopeStart {
        nextCurveTrackEventAtMs := CURVE_INTERVAL_MS;
      }
      var found := FindNextObj();
      if !found {
        return false;
      }
      var nextMs := sortedObjEventList[curEventPos].timeMs;
      if nextCurveTrackEventAtMs > 0 && nextCurveTrackEventAtMs <= nextMs {
        eventTargetTimeMs := nextCurveTrackEventAtMs;
        triggerCurveEvent := true;
      } else {
        eventTargetTimeMs := nextMs;
      }
      return true;
    }

    /** One call of the exec loop. */
    method ProcessExecuter() returns (active: bool)
      modifies this
      ensures sortedObjEventList == old(sortedObjEventList)
      ensures old(state) == Idle ==> !active && Now() == old(Now()) && log == old(log) && state == Idle
      ensures old(state) != Idle ==>
        var r := Step(old(sortedObjEventList), old(Now()));
        && Now() == r.s && active == r.active && log == old(log) + r.actions
      ensures old(state) != Idle && old(Valid()) && active ==> Valid() && old(eventTargetTimeMs) <= eventTargetTimeMs
      ensures old(state) != Idle ==>
        var pauses := !old(triggerCurveEvent) && old(curEventPos) < |sortedObjEventList|
          && BeginsPause(fxTimeLine, sortedObjEventList[old(curEventPos)]);
        state == if pauses then Paused else old(state)
    {
      hide Inv, BuildEvents;
      if state == Idle {
        return false;
      }
      if sortedObjEventList == [] || curEventPos >= |sortedObjEventList| {
        return false;
      }
      if Inv(sortedObjEventList, Now()) && Step(sortedObjEventList, Now()).active {
        StepInv(sortedObjEventList, Now());
      }
      if triggerCurveEvent {
        ProcessCurveEvent();
        return true;
      }
      active := ProcessListEvent();
    }

    method SetReplayPosition(ms: int) returns (ok: bool)
      modifies this
      ensures sortedObjEventList == old(sortedObjEventList) && log == old(log) && state == old(state)
      ensures var r := Seek(sortedObjEventList, old(Now()), ms);
        ok == r.Some? && Now() == if ok then r.value else old(Now())
      ensures ok && old(Valid()) && old(Now()) == Fresh(sortedObjEventList) ==> Valid()
    {
      hide BuildEvents;
      if sortedObjEventList == [] {
        return false;
      }
      ghost var list := sortedObjEventList;
      if Valid() && Now() == Fresh(list) && Seek(list, Fresh(list), ms).Some? {
        SeekInv(list, ms);
      }
      var n := 0;
      while n < |sortedObjEventList| && sortedObjEventList[n].timeMs < ms
        invariant n <= |sortedObjEventList|
        invariant FirstAtOrAfter(sortedObjEventList, ms, 0) == FirstAtOrAfter(sortedObjEventList, ms, n)
      {
        n := n + 1;
      }
      if n >= |sortedObjEventList| {
        return false;
      }
      curEventPos := n;
      eventTargetTimeMs := sortedObjEventList[n].timeMs;
      if ms > 0 {
        if sortedObjEventList[0].evType == EnvelopeStart {
          nextCurveTrackEventAtMs := ms;
          triggerCurveEvent := true;
          eventTargetTimeMs := ms;
        }
      }
      return true;
    }
  }
}
