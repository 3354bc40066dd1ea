/**
 From timeline tracks to the time-sorted event list: every object is entered
 at its begin and stop time by searching the first later-or-equal position.
 */
module TimelineEvents {
  import opened Common

  datatype ObjKind = Undefined | PauseCmd | ScriptCmd | LinkedScene | LinkedAudio | LinkedClip | LinkedSeq | LinkedScript

  // linkedFadeOutMs: fade-out time of the linked FX item, None if there is no such item.
  datatype TimeLineObj = TimeLineObj(posMs: int, lenMs: int, kind: ObjKind, fadeOutMs: int, linkedFadeOutMs: Option<int>)
  {
    function BeginMs(): int { posMs }

    function EndMs(): int { posMs + lenMs }

    function FadeOutDurationMs(): int {
      if !kind.LinkedScene? && !kind.LinkedAudio? then 0
      else if fadeOutMs > 0 then fadeOutMs
      else if linkedFadeOutMs.None? then 0 else linkedFadeOutMs.value
    }

    /** The time of the last command for the object; 0 if there is none. */
    function StopAtMs(): int {
      match kind
      case LinkedScene =>
        if fadeOutMs > 0 then EndMs() - fadeOutMs
        else if linkedFadeOutMs.None? then 0 else EndMs() - linkedFadeOutMs.value
      case LinkedAudio =>
        if linkedFadeOutMs.None? then 0
        else if FadeOutDurationMs() > 0 then EndMs() - FadeOutDurationMs() else EndMs()
      case LinkedScript =>
        if linkedFadeOutMs.None? then 0 else EndMs()
      case _ => 0
    }

    predicate NonNegative() {
      0 <= posMs && 0 <= lenMs && (linkedFadeOutMs.Some? ==> 0 <= linkedFadeOutMs.value)
    }
  }

  predicate AllNonNegative(objs: seq<TimeLineObj>) {
    forall i :: 0 <= i < |objs| ==> objs[i].NonNegative()
  }

  predicate NoneAtZero(objs: seq<TimeLineObj>, n: nat)
    requires n <= |objs|
  {
    forall i :: 0 <= i < n ==> objs[i].posMs != 0
  }

  datatype TrackKind = UndefTrack | Items | Ruler | Curve

  datatype Track = Track(trackId: nat, kind: TrackKind)

  // objs is indexed by track id.
  datatype TimeLine = TimeLine(tracks: seq<Track>, objs: seq<seq<TimeLineObj>>)
  {
    function ObjsOf(t: nat): seq<TimeLineObj>
      requires t < |tracks|
    {
      if tracks[t].trackId < |objs| then objs[tracks[t].trackId] else []
    }

    /** A curve acts on the nearest item track above it. */
    predicate HasTarget(t: nat)
      requires t <= |tracks|
    {
      exists u :: 0 <= u < t && tracks[u].kind.Items?
    }

    predicate UsableCurve(t: nat)
      requires t < |tracks|
    {
      tracks[t].kind.Curve? && ObjsOf(t) != [] && HasTarget(t)
    }

    predicate NonNegative() {
      forall t :: 0 <= t < |tracks| ==> AllNonNegative(ObjsOf(t))
    }
  }

  datatype EvType = Begin | Stop | End | EnvelopeStart

  // track: track index for Begin and Stop, track id for EnvelopeStart; obj: index of the object in its track.
  datatype Event = Event(evType: EvType, timeMs: int, track: int, obj: int)

  function BeginOf(t: nat, i: nat, o: TimeLineObj): Event { Event(Begin, o.BeginMs(), t, i) }

  function StopOf(t: nat, i: nat, o: TimeLineObj): Event { Event(Stop, o.StopAtMs(), t, i) }

  function EndAt(ms: int): Event { Event(End, ms, 0, -1) }

  // ----- How the list is built

  /** The first event from position n on that is not earlier than ms. */
  function FirstAtOrAfter(list: seq<Event>, ms: int, n: nat): (r: nat)
    requires n <= |list|
    ensures n <= r <= |list|
    ensures forall k :: n <= k < r ==> list[k].timeMs < ms
    ensures r < |list| ==> ms <= list[r].timeMs
    decreases |list| - n
  {
    if n == |list| || ms <= list[n].timeMs then n else FirstAtOrAfter(list, ms, n + 1)
  }

  /** Entering an event before the first one that is not earlier. */
  function Insert(list: seq<Event>, ev: Event): seq<Event> {
    var n := FirstAtOrAfter(list, ev.timeMs, 0);
    list[..n] + [ev] + list[n..]
  }

  function AddObj(list: seq<Event>, t: nat, i: nat, o: TimeLineObj): seq<Event> {
    var begun := Insert(list, BeginOf(t, i, o));
    if o.StopAtMs() > 0 then Insert(begun, StopOf(t, i, o)) else begun
  }

  function AddObjs(objs: seq<TimeLineObj>, t: nat, n: nat, list: seq<Event>): seq<Event>
    requires n <= |objs|
  {
    if n == 0 then list else AddObj(AddObjs(objs, t, n - 1, list), t, n - 1, objs[n - 1])
  }

  function AddTrack(tl: TimeLine, t: nat, list: seq<Event>): seq<Event>
    requires t < |tl.tracks|
  {
    if tl.tracks[t].kind.Items? then AddObjs(tl.ObjsOf(t), t, |tl.ObjsOf(t)|, list)
    else if tl.UsableCurve(t) then [Event(EnvelopeStart, 0, tl.tracks[t].trackId, 0)] + list
    else list
  }

  function AddTracks(tl: TimeLine, n: nat): seq<Event>
    requires n <= |tl.tracks|
  {
    if n == 0 then [] else AddTrack(tl, n - 1, AddTracks(tl, n - 1))
  }

  /** The latest end of the first n objects of a track, at least `last`. */
  function LastEndOf(objs: seq<TimeLineObj>, n: nat, last: int): int
    requires n <= |objs|
  {
    if n == 0 then last else Max(LastEndOf(objs, n - 1, last), objs[n - 1].EndMs())
  }

  function LastEnd(tl: TimeLine, n: nat): int
    requires n <= |tl.tracks|
  {
    if n == 0 then 0
    else if tl.tracks[n - 1].kind.Items? then
      LastEndOf(tl.ObjsOf(n - 1), |tl.ObjsOf(n - 1)|, LastEnd(tl, n - 1))
    else LastEnd(tl, n - 1)
  }

  function BuildEvents(tl: TimeLine): seq<Event> {
    var list := AddTracks(tl, |tl.tracks|);
    var last := LastEnd(tl, |tl.tracks|);
    if list == [] || last <= 0 then list else list + [EndAt(last)]
  }

  // ----- What the list is

  predicate Sorted(list: seq<Event>) {
    forall i, j :: 0 <= i < j < |list| ==> list[i].timeMs <= list[j].timeMs
  }

  lemma {:induction false} InsertKeepsSorted(list: seq<Event>, ev: Event)
    requires Sorted(list)
    ensures Sorted(Insert(list, ev))
  {
  }

  lemma {:induction false} InsertContents(list: seq<Event>, ev: Event)
    ensures multiset(Insert(list, ev)) == multiset(list) + multiset{ev}
    ensures forall e :: e in Insert(list, ev) <==> e in list || e == ev
  {
    var p := FirstAtOrAfter(list, ev.timeMs, 0);
    assert list == list[..p] + list[p..];
    forall e ensures e in Insert(list, ev) <==> e in list || e == ev {
      assert e in multiset(Insert(list, ev)) <==> e in multiset(list) + multiset{ev};
    }
  }

  /** The events of an object: its begin, and its stop if that time is positive. */
  function ObjEvents(t: nat, i: nat, o: TimeLineObj): multiset<Event> {
    multiset{BeginOf(t, i, o)} + if o.StopAtMs() > 0 then multiset{StopOf(t, i, o)} else multiset{}
  }

  function ObjsEvents(t: nat, objs: seq<TimeLineObj>, n: nat): multiset<Event>
    requires n <= |objs|
  {
    if n == 0 then multiset{} else ObjsEvents(t, objs, n - 1) + ObjEvents(t, n - 1, objs[n - 1])
  }

  /** One begin per object, one stop per object with a positive stop time, one envelope start per usable curve. */
  function TrackEvents(tl: TimeLine, n: nat): multiset<Event>
    requires n <= |tl.tracks|
  {
    if n == 0 then multiset{}
    else if tl.tracks[n - 1].kind.Items? then
      TrackEvents(tl, n - 1) + ObjsEvents(n - 1, tl.ObjsOf(n - 1), |tl.ObjsOf(n - 1)|)
    else if tl.UsableCurve(n - 1) then
      TrackEvents(tl, n - 1) + multiset{Event(EnvelopeStart, 0, tl.tracks[n - 1].trackId, 0)}
    else TrackEvents(tl, n - 1)
  }

  lemma {:induction false} AddObjContents(list: seq<Event>, t: nat, i: nat, o: TimeLineObj)
    ensures multiset(AddObj(list, t, i, o)) == multiset(list) + ObjEvents(t, i, o)
  {
    hide Insert;
    InsertContents(list, BeginOf(t, i, o));
    InsertContents(Insert(list, BeginOf(t, i, o)), StopOf(t, i, o));
  }

  lemma {:induction false} AddObjMembers(list: seq<Event>, t: nat, i: nat, o: TimeLineObj)
    ensures forall e :: e in AddObj(list, t, i, o) <==>
              e in list || e == BeginOf(t, i, o) || (o.StopAtMs() > 0 && e == StopOf(t, i, o))
  {
    hide Insert;
    InsertContents(list, BeginOf(t, i, o));
    InsertContents(Insert(list, BeginOf(t, i, o)), StopOf(t, i, o));
  }

  lemma {:induction false} AddObjsContents(objs: seq<TimeLineObj>, t: nat, n: nat, list: seq<Event>)
    requires n <= |objs|
    ensures multiset(AddObjs(objs, t, n, list)) == multiset(list) + ObjsEvents(t, objs, n)
  {
    hide AddObj, Insert;
    if n > 0 {
      AddObjsContents(objs, t, n - 1, list);
      AddObjContents(AddObjs(objs, t, n - 1, list), t, n - 1, objs[n - 1]);
    }
  }

  lemma {:induction false} AddTracksContents(tl: TimeLine, n: nat)
    requires n <= |tl.tracks|
    ensures multiset(AddTracks(tl, n)) == TrackEvents(tl, n)
  {
    hide AddObjs, AddObj, Insert;
    if n > 0 {
      AddTracksContents(tl, n - 1);
      if tl.tracks[n - 1].kind.Items? {
        AddObjsContents(tl.ObjsOf(n - 1), n - 1, |tl.ObjsOf(n - 1)|, AddTracks(tl, n - 1));
      }
    }
  }

  /** The list holds exactly the events of the tracks, and an end event behind them if anything lasts. */
  lemma {:induction false} EventsOfTimeline(tl: TimeLine)
    ensures var last := LastEnd(tl, |tl.tracks|);
            multiset(BuildEvents(tl)) == TrackEvents(tl, |tl.tracks|) +
              if AddTracks(tl, |tl.tracks|) != [] && last > 0 then multiset{EndAt(last)} else multiset{}
  {
    AddTracksContents(tl, |tl.tracks|);
  }

  // ----- The same, by the tracks and the fields of their objects

  /**
   When an object stops: a scene its fade-out time, or the linked item's, before its end; audio likewise, or at its
   end; a script at its end. Without the linked item only a scene with a fade-out time of its own stops.
   */
  predicate StopsAt(o: TimeLineObj, ms: int) {
    && 0 < ms
    && match o.kind
       case LinkedScene =>
         if 0 < o.fadeOutMs then ms + o.fadeOutMs == o.posMs + o.lenMs
         else o.linkedFadeOutMs.Some? && ms + o.linkedFadeOutMs.value == o.posMs + o.lenMs
       case LinkedAudio =>
         && o.linkedFadeOutMs.Some?
         && ms + (if 0 < o.fadeOutMs then o.fadeOutMs else Max(0, o.linkedFadeOutMs.value)) == o.posMs + o.lenMs
       case LinkedScript => o.linkedFadeOutMs.Some? && ms == o.posMs + o.lenMs
       case _ => false
  }

  lemma {:induction false} StopsAtIff(o: TimeLineObj, ms: int)
    ensures StopsAt(o, ms) <==> 0 < o.StopAtMs() && ms == o.StopAtMs()
  {
  }

  /** Object i of item track t. */
  predicate HasObj(tl: TimeLine, t: int, i: int) {
    && 0 <= t < |tl.tracks| && tl.tracks[t].kind.Items?
    && tl.tracks[t].trackId < |tl.objs| && 0 <= i < |tl.objs[tl.tracks[t].trackId]|
  }

  /** The event is the begin of a pause object, which stops the executer until the user goes on. */
  predicate BeginsPause(tl: TimeLine, e: Event) {
    && e.evType == Begin && 0 <= e.track < |tl.tracks|
    && 0 <= e.obj < |tl.ObjsOf(e.track)| && tl.ObjsOf(e.track)[e.obj].kind.PauseCmd?
  }

  /** In a built list these are exactly the begins of the pause objects of item tracks. */
  lemma {:induction false} PausesOfTimeline(tl: TimeLine, e: Event)
    requires e in BuildEvents(tl)
    ensures BeginsPause(tl, e) <==>
            && e.evType == Begin && HasObj(tl, e.track, e.obj)
            && tl.objs[tl.tracks[e.track].trackId][e.obj].kind.PauseCmd?
  {
    hide BuildEvents;
    if e.evType == Begin {
      BeginsAndStops(tl, e);
    }
  }

  /** The begin of an object, or its stop. */
  predicate BelongsTo(e: Event, o: TimeLineObj) {
    (e.evType == Begin && e.timeMs == o.posMs) || (e.evType == Stop && StopsAt(o, e.timeMs))
  }

  lemma {:induction false} ObjCount(t: nat, i: nat, o: TimeLineObj, e: Event)
    ensures ObjEvents(t, i, o)[e] == if e.track == t && e.obj == i && BelongsTo(e, o) then 1 else 0
  {
    StopsAtIff(o, e.timeMs);
    hide StopsAt, TimeLineObj.StopAtMs;
  }

  lemma {:induction false} ObjsCount(t: nat, objs: seq<TimeLineObj>, n: nat, e: Event)
    requires n <= |objs|
    ensures ObjsEvents(t, objs, n)[e] == if e.track == t && 0 <= e.obj < n && BelongsTo(e, objs[e.obj]) then 1 else 0
  {
    hide ObjEvents, BelongsTo;
    if n > 0 {
      ObjsCount(t, objs, n - 1, e);
      ObjCount(t, n - 1, objs[n - 1], e);
    }
  }

  lemma {:induction false} TrackCount(tl: TimeLine, n: nat, e: Event)
    requires n <= |tl.tracks| && (e.evType == Begin || e.evType == Stop)
    ensures TrackEvents(tl, n)[e] ==
            if HasObj(tl, e.track, e.obj) && e.track < n && BelongsTo(e, tl.objs[tl.tracks[e.track].trackId][e.obj]) then 1 else 0
  {
    hide BelongsTo, ObjsEvents, TimeLine.UsableCurve;
    if n > 0 {
      TrackCount(tl, n - 1, e);
      ObjsCount(n - 1, tl.ObjsOf(n - 1), |tl.ObjsOf(n - 1)|, e);
    }
  }

  /** Every object has its begin in the list once, its stop once if it stops at all, and there are no others. */
  lemma {:induction false} BeginsAndStops(tl: TimeLine, e: Event)
    requires e.evType == Begin || e.evType == Stop
    ensures multiset(BuildEvents(tl))[e] ==
            if HasObj(tl, e.track, e.obj) && BelongsTo(e, tl.objs[tl.tracks[e.track].trackId][e.obj]) then 1 else 0
  {
    hide BelongsTo, BuildEvents, AddTracks, LastEnd;
    EventsOfTimeline(tl);
    TrackCount(tl, |tl.tracks|, e);
  }

  lemma {:induction false} EnvelopeCount(tl: TimeLine, n: nat, e: Event)
    requires n <= |tl.tracks| && e.evType == EnvelopeStart
    ensures TrackEvents(tl, n)[e] > 0 <==>
            e.timeMs == 0 && e.obj == 0 && exists t :: 0 <= t < n && HasCurve(tl, t) && tl.tracks[t].trackId == e.track
  {
    hide ObjsEvents, HasCurve, TimeLine.UsableCurve, BelongsTo;
    if n > 0 {
      EnvelopeCount(tl, n - 1, e);
      ObjsCount(n - 1, tl.ObjsOf(n - 1), |tl.ObjsOf(n - 1)|, e);
      NoOtherEvents(e, tl.ObjsOf(n - 1));
      UsableIff(tl, n - 1);
    }
  }

  lemma {:induction false} NoOtherEvents(e: Event, objs: seq<TimeLineObj>)
    requires e.evType == EnvelopeStart || e.evType == End
    ensures forall o :: o in objs ==> !BelongsTo(e, o)
  {
  }

  lemma {:induction false} UsableIff(tl: TimeLine, t: nat)
    requires t < |tl.tracks|
    ensures tl.UsableCurve(t) <==> HasCurve(tl, t)
    ensures HasCurve(tl, t) ==> tl.tracks[t].kind.Curve?
  {
  }

  /** A curve track with an object, below some item track. */
  predicate HasCurve(tl: TimeLine, t: int) {
    && 0 <= t < |tl.tracks| && tl.tracks[t].kind.Curve?
    && tl.tracks[t].trackId < |tl.objs| && tl.objs[tl.tracks[t].trackId] != []
    && exists u :: 0 <= u < t && tl.tracks[u].kind.Items?
  }

  /** An envelope start is in the list, at 0, exactly for the curve tracks that have an object and an item track above. */
  lemma {:induction false} EnvelopeStartIff(tl: TimeLine, e: Event)
    requires e.evType == EnvelopeStart
    ensures e in BuildEvents(tl) <==>
            e.timeMs == 0 && e.obj == 0 && exists t :: 0 <= t < |tl.tracks| && HasCurve(tl, t) && tl.tracks[t].trackId == e.track
  {
    hide BuildEvents, AddTracks, LastEnd, HasCurve;
    EventsOfTimeline(tl);
    EnvelopeCount(tl, |tl.tracks|, e);
    assert e in BuildEvents(tl) <==> e in multiset(BuildEvents(tl));
  }

  /** The list ends with an end event at the latest end of all objects, if that is positive. */
  lemma {:induction false} EndIff(tl: TimeLine, e: Event)
    requires e.evType == End
    ensures e in BuildEvents(tl) <==> e.track == 0 && e.obj == -1 && 0 < e.timeMs && IsLatestEnd(tl, e.timeMs)
  {
    var n := |tl.tracks|;
    EventsOfTimeline(tl);
    EndCount(tl, n, e);
    if 0 < e.timeMs {
      LatestEndIs(tl, e.timeMs);
    }
    hide BuildEvents, AddTracks, TrackEvents, LastEnd, IsLatestEnd;
    assert e in BuildEvents(tl) <==> e in multiset(BuildEvents(tl));
  }

  ghost predicate IsLatestEnd(tl: TimeLine, ms: int) {
    && (forall t, i {:trigger HasObj(tl, t, i)} :: HasObj(tl, t, i) ==>
          var o := tl.objs[tl.tracks[t].trackId][i]; o.posMs + o.lenMs <= ms)
    && (exists t, i {:trigger HasObj(tl, t, i)} :: HasObj(tl, t, i) &&
          var o := tl.objs[tl.tracks[t].trackId][i]; o.posMs + o.lenMs == ms)
  }

  lemma {:induction false} LatestEndIs(tl: TimeLine, ms: int)
    requires 0 < ms
    ensures IsLatestEnd(tl, ms) <==> AddTracks(tl, |tl.tracks|) != [] && LastEnd(tl, |tl.tracks|) == ms
  {
    var n := |tl.tracks|;
    LastEndIsMax(tl, n);
    ObjsByTrack(tl);
    if IsLatestEnd(tl, ms) {
      var t, i :| HasObj(tl, t, i) && tl.ObjsOf(t)[i].EndMs() == ms;
      ObjIsEntered(tl, t, i);
      assert ms <= LastEnd(tl, n);
      var u, k :| 0 <= u < n && tl.tracks[u].kind.Items? && 0 <= k < |tl.ObjsOf(u)| && tl.ObjsOf(u)[k].EndMs() == LastEnd(tl, n);
      assert HasObj(tl, u, k);
    }
    if LastEnd(tl, n) == ms {
      var t, i :| 0 <= t < n && tl.tracks[t].kind.Items? && 0 <= i < |tl.ObjsOf(t)| && tl.ObjsOf(t)[i].EndMs() == ms;
      assert HasObj(tl, t, i);
    }
  }

  lemma {:induction false} ObjsByTrack(tl: TimeLine)
    ensures forall t, i {:trigger HasObj(tl, t, i)} :: HasObj(tl, t, i) ==>
              i < |tl.ObjsOf(t)| && tl.ObjsOf(t)[i] == tl.objs[tl.tracks[t].trackId][i]
  {
  }

  lemma {:induction false} ObjIsEntered(tl: TimeLine, t: nat, i: nat)
    requires HasObj(tl, t, i)
    ensures AddTracks(tl, |tl.tracks|) != []
  {
    var e := Event(Begin, tl.objs[tl.tracks[t].trackId][i].posMs, t, i);
    AddTracksContents(tl, |tl.tracks|);
    TrackCount(tl, |tl.tracks|, e);
    assert e in multiset(AddTracks(tl, |tl.tracks|));
  }

  lemma {:induction false} EndCount(tl: TimeLine, n: nat, e: Event)
    requires n <= |tl.tracks| && e.evType == End
    ensures TrackEvents(tl, n)[e] == 0
  {
    if n > 0 {
      EndCount(tl, n - 1, e);
      ObjsCount(n - 1, tl.ObjsOf(n - 1), |tl.ObjsOf(n - 1)|, e);
      NoOtherEvents(e, tl.ObjsOf(n - 1));
    }
  }

  lemma {:induction false} LastEndIsMax(tl: TimeLine, n: nat)
    requires n <= |tl.tracks|
    ensures 0 <= LastEnd(tl, n)
    ensures forall t, i :: 0 <= t < n && tl.tracks[t].kind.Items? && 0 <= i < |tl.ObjsOf(t)|
              ==> tl.ObjsOf(t)[i].EndMs() <= LastEnd(tl, n)
    ensures LastEnd(tl, n) > 0 ==>
              exists t, i :: 0 <= t < n && tl.tracks[t].kind.Items? && 0 <= i < |tl.ObjsOf(t)| &&
                             tl.ObjsOf(t)[i].EndMs() == LastEnd(tl, n)
  {
    if n > 0 {
      LastEndIsMax(tl, n - 1);
      if tl.tracks[n - 1].kind.Items? {
        LastEndOfIsMax(tl.ObjsOf(n - 1), |tl.ObjsOf(n - 1)|, LastEnd(tl, n - 1));
      }
    }
  }

  lemma {:induction false} LastEndOfIsMax(objs: seq<TimeLineObj>, n: nat, last: int)
    requires n <= |objs|
    ensures last <= LastEndOf(objs, n, last)
    ensures forall i :: 0 <= i < n ==> objs[i].EndMs() <= LastEndOf(objs, n, last)
    ensures LastEndOf(objs, n, last) == last || exists i :: 0 <= i < n && objs[i].EndMs() == LastEndOf(objs, n, last)
  {
    if n > 0 {
      LastEndOfIsMax(objs, n - 1, last);
    }
  }

  /** Bounds of the times in a list under construction. */
  predicate Within(list: seq<Event>, last: int) {
    && Sorted(list)
    && forall e :: e in list ==> 0 <= e.timeMs <= last && e.evType != End && (e.evType == EnvelopeStart ==> e.timeMs == 0)
  }

  lemma {:induction false} AddObjWithin(list: seq<Event>, t: nat, i: nat, o: TimeLineObj, last: int)
    requires o.NonNegative() && Within(list, last)
    ensures Within(AddObj(list, t, i, o), Max(last, o.EndMs()))
  {
    hide Insert;
    InsertKeepsSorted(list, BeginOf(t, i, o));
    InsertKeepsSorted(Insert(list, BeginOf(t, i, o)), StopOf(t, i, o));
    AddObjMembers(list, t, i, o);
  }

  lemma {:induction false} AddObjsWithin(objs: seq<TimeLineObj>, t: nat, n: nat, list: seq<Event>, last: int)
    requires n <= |objs| && AllNonNegative(objs) && Within(list, last)
    ensures Within(AddObjs(objs, t, n, list), LastEndOf(objs, n, last))
  {
    hide AddObj, Insert;
    if n > 0 {
      AddObjsWithin(objs, t, n - 1, list, last);
      AddObjWithin(AddObjs(objs, t, n - 1, list), t, n - 1, objs[n - 1], LastEndOf(objs, n - 1, last));
    }
  }

  lemma {:induction false} AddTracksWithin(tl: TimeLine, n: nat)
    requires n <= |tl.tracks| && tl.NonNegative()
    ensures Within(AddTracks(tl, n), LastEnd(tl, n))
  {
    hide AddObjs, AddObj, Insert;
    LastEndIsMax(tl, n);
    if n > 0 {
      AddTracksWithin(tl, n - 1);
      LastEndIsMax(tl, n - 1);
      if tl.tracks[n - 1].kind.Items? {
        AddObjsWithin(tl.ObjsOf(n - 1), n - 1, |tl.ObjsOf(n - 1)|, AddTracks(tl, n - 1), LastEnd(tl, n - 1));
      }
    }
  }

  /** What the executer relies on: sorted, no negative time, envelope starts at 0, an end only as the last event. */
  predicate EventList(list: seq<Event>) {
    && list != []
    && Sorted(list)
    && (forall i :: 0 <= i < |list| ==> 0 <= list[i].timeMs)
    && (forall i :: 0 <= i < |list| && list[i].evType == EnvelopeStart ==> list[i].timeMs == 0)
    && (forall i :: 0 <= i < |list| && list[i].evType == End ==> i == |list| - 1)
  }

  lemma {:induction false} BuiltListIsSorted(tl: TimeLine)
    requires tl.NonNegative() && BuildEvents(tl) != []
    ensures EventList(BuildEvents(tl))
  {
    hide AddObjs, AddObj, Insert;
    AddTracksWithin(tl, |tl.tracks|);
    var list, events := BuildEvents(tl), AddTracks(tl, |tl.tracks|);
    assert forall i :: 0 <= i < |events| ==> list[i] == events[i] && events[i] in events;
  }

  // ----- Begin and stop of the same object

  /** Every x stands before every y. */
  predicate AllBefore(list: seq<Event>, x: Event, y: Event) {
    forall j, k :: 0 <= j < |list| && 0 <= k < |list| && list[j] == x && list[k] == y ==> j < k
  }

  lemma {:induction false} InsertKeepsOrder(list: seq<Event>, ev: Event, x: Event, y: Event)
    requires AllBefore(list, x, y) && ev != x && ev != y
    ensures AllBefore(Insert(list, ev), x, y)
  {
  }

  /** A stop at the time of the begin just entered gets in before it. */
  lemma {:induction false} StopOnBegin(list: seq<Event>, b: Event, s: Event)
    requires s.timeMs == b.timeMs && b != s && b !in list && s !in list
    ensures AllBefore(Insert(Insert(list, b), s), s, b)
  {
  }

  /** Only objects before number i of track t are in the list. */
  predicate OnlyBefore(list: seq<Event>, t: nat, i: nat) {
    forall e :: e in list && (e.evType == Begin || e.evType == Stop) ==> e.track < t || (e.track == t && e.obj < i)
  }

  lemma {:induction false} AddObjsOnlyBefore(objs: seq<TimeLineObj>, t: nat, n: nat, list: seq<Event>)
    requires n <= |objs| && OnlyBefore(list, t, 0)
    ensures OnlyBefore(AddObjs(objs, t, n, list), t, n)
  {
    hide AddObj, Insert;
    if n > 0 {
      AddObjsOnlyBefore(objs, t, n - 1, list);
      AddObjMembers(AddObjs(objs, t, n - 1, list), t, n - 1, objs[n - 1]);
    }
  }

  lemma {:induction false} AddTracksOnlyBefore(tl: TimeLine, n: nat)
    requires n <= |tl.tracks|
    ensures OnlyBefore(AddTracks(tl, n), n, 0)
  {
    hide AddObjs, AddObj, Insert;
    if n > 0 {
      AddTracksOnlyBefore(tl, n - 1);
      if tl.tracks[n - 1].kind.Items? {
        AddObjsOnlyBefore(tl.ObjsOf(n - 1), n - 1, |tl.ObjsOf(n - 1)|, AddTracks(tl, n - 1));
      }
    }
  }

  lemma {:induction false} AddObjsKeepsOrder(objs: seq<TimeLineObj>, t: nat, from: nat, n: nat, list: seq<Event>, x: Event, y: Event)
    requires from <= n <= |objs|
    requires AllBefore(AddObjs(objs, t, from, list), x, y)
    requires (x.track == t ==> x.obj < from) && (y.track == t ==> y.obj < from)
    ensures AllBefore(AddObjs(objs, t, n, list), x, y)
  {
    hide Insert;
    if n > from {
      AddObjsKeepsOrder(objs, t, from, n - 1, list, x, y);
      var o, before := objs[n - 1], AddObjs(objs, t, n - 1, list);
      InsertKeepsOrder(before, BeginOf(t, n - 1, o), x, y);
      InsertKeepsOrder(Insert(before, BeginOf(t, n - 1, o)), StopOf(t, n - 1, o), x, y);
    }
  }

  lemma {:induction false} AddTracksKeepsOrder(tl: TimeLine, from: nat, n: nat, x: Event, y: Event)
    requires from <= n <= |tl.tracks| && AllBefore(AddTracks(tl, from), x, y)
    requires x.track < from && y.track < from && x.evType != EnvelopeStart && y.evType != EnvelopeStart
    ensures AllBefore(AddTracks(tl, n), x, y)
  {
    hide AddObj, Insert;
    if n > from {
      AddTracksKeepsOrder(tl, from, n - 1, x, y);
      var before := AddTracks(tl, n - 1);
      if tl.tracks[n - 1].kind.Items? {
        AddObjsKeepsOrder(tl.ObjsOf(n - 1), n - 1, 0, |tl.ObjsOf(n - 1)|, before, x, y);
      } else if tl.UsableCurve(n - 1) {
        var r := AddTracks(tl, n);
        assert forall j :: 0 < j < |r| ==> r[j] == before[j - 1];
      }
    }
  }

  lemma {:induction false} SameTimeOrder(tl: TimeLine, t: nat, i: nat)
    requires t < |tl.tracks| && tl.tracks[t].kind.Items? && i < |tl.ObjsOf(t)|
    requires 0 < tl.ObjsOf(t)[i].StopAtMs() == tl.ObjsOf(t)[i].BeginMs()
    ensures AllBefore(BuildEvents(tl), StopOf(t, i, tl.ObjsOf(t)[i]), BeginOf(t, i, tl.ObjsOf(t)[i]))
  {
    hide Insert;
    var o := tl.ObjsOf(t)[i];
    var b, s := BeginOf(t, i, o), StopOf(t, i, o);
    var list := AddTracks(tl, t);
    AddTracksOnlyBefore(tl, t);
    AddObjsOnlyBefore(tl.ObjsOf(t), t, i, list);
    StopOnBegin(AddObjs(tl.ObjsOf(t), t, i, list), b, s);
    AddObjsKeepsOrder(tl.ObjsOf(t), t, i + 1, |tl.ObjsOf(t)|, list, s, b);
    AddTracksKeepsOrder(tl, t + 1, |tl.tracks|, s, b);
    var events, r := AddTracks(tl, |tl.tracks|), BuildEvents(tl);
    assert forall j :: 0 <= j < |events| ==> r[j] == events[j];
  }

  /** An object's begin stands before its stop exactly if the begin is earlier; at equal times the stop comes first. */
  lemma {:induction false} BeginBeforeStopIff(tl: TimeLine, t: nat, i: nat, j: nat, k: nat)
    requires tl.NonNegative()
    requires t < |tl.tracks| && tl.tracks[t].kind.Items? && i < |tl.ObjsOf(t)|
    requires tl.ObjsOf(t)[i].StopAtMs() > 0
    requires j < |BuildEvents(tl)| && BuildEvents(tl)[j] == BeginOf(t, i, tl.ObjsOf(t)[i])
    requires k < |BuildEvents(tl)| && BuildEvents(tl)[k] == StopOf(t, i, tl.ObjsOf(t)[i])
    ensures j < k <==> tl.ObjsOf(t)[i].BeginMs() < tl.ObjsOf(t)[i].StopAtMs()
  {
    BuiltListIsSorted(tl);
    if tl.ObjsOf(t)[i].BeginMs() == tl.ObjsOf(t)[i].StopAtMs() {
      SameTimeOrder(tl, t, i);
    }
  }

  // ----- Which event is the first

  /** The first n tracks put an envelope start in front: no object after the last usable curve begins at 0. */
  predicate EnvelopeInFront(tl: TimeLine, n: nat)
    requires n <= |tl.tracks|
  {
    n > 0 &&
    if tl.tracks[n - 1].kind.Items? then
      EnvelopeInFront(tl, n - 1) && NoneAtZero(tl.ObjsOf(n - 1), |tl.ObjsOf(n - 1)|)
    else tl.UsableCurve(n - 1) || EnvelopeInFront(tl, n - 1)
  }

  predicate StartsWithEnvelope(list: seq<Event>) {
    list != [] && list[0].evType == EnvelopeStart
  }

  lemma {:induction false} AddObjFront(list: seq<Event>, t: nat, i: nat, o: TimeLineObj, last: int)
    requires o.NonNegative() && Within(list, last)
    ensures StartsWithEnvelope(AddObj(list, t, i, o)) <==> StartsWithEnvelope(list) && o.posMs != 0
  {
  }

  lemma {:induction false} AddObjsFront(objs: seq<TimeLineObj>, t: nat, n: nat, list: seq<Event>, last: int)
    requires n <= |objs| && AllNonNegative(objs) && Within(list, last)
    ensures StartsWithEnvelope(AddObjs(objs, t, n, list)) <==>
            StartsWithEnvelope(list) && NoneAtZero(objs, n)
  {
    hide AddObj, Insert;
    if n > 0 {
      AddObjsFront(objs, t, n - 1, list, last);
      AddObjsWithin(objs, t, n - 1, list, last);
      AddObjFront(AddObjs(objs, t, n - 1, list), t, n - 1, objs[n - 1], LastEndOf(objs, n - 1, last));
    }
  }

  lemma {:induction false} AddTracksFront(tl: TimeLine, n: nat)
    requires n <= |tl.tracks| && tl.NonNegative()
    ensures StartsWithEnvelope(AddTracks(tl, n)) <==> EnvelopeInFront(tl, n)
  {
    hide AddObjs, AddObj, Insert;
    if n > 0 {
      AddTracksFront(tl, n - 1);
      AddTracksWithin(tl, n - 1);
      if tl.tracks[n - 1].kind.Items? {
        AddObjsFront(tl.ObjsOf(n - 1), n - 1, |tl.ObjsOf(n - 1)|, AddTracks(tl, n - 1), LastEnd(tl, n - 1));
      }
    }
  }

  lemma {:induction false} BuiltListFront(tl: TimeLine)
    requires tl.NonNegative()
    ensures StartsWithEnvelope(BuildEvents(tl)) <==> EnvelopeInFront(tl, |tl.tracks|)
  {
    AddTracksFront(tl, |tl.tracks|);
  }
}
