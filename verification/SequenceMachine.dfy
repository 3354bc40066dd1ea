/**
 The cue machine behind sequences and playlists: which item plays next, which
 cue it gives next and how long that cue lasts. When the calls come plays no
 role here (module SequenceCalls).
 */
module SequenceMachine {
  import opened Common
  import opened FxItems

  // A list with its playback settings, and the values the random source will return.
  datatype Sequence = Sequence(list: seq<FxItem>, randomized: bool, loopTimes: int, random: nat -> nat)

  // Orders to the light and audio units.
  datatype Effect =
    | NoEffect
    | StartSceneExecuter
    | FadeInScene(timeMs: int)
    | FadeOutScene(timeMs: int)
    | StartAudio
    | FadeOutAudio(timeMs: int)

  // A negative time says that the item is over.
  datatype Cue = Cue(status: SeqStatus, timeMs: int, effect: Effect)

  // cur is the current item, chosen the one the user wants next, status the state of every item of the
  // list, played the flags of random playback, draws counts the random values used so far.
  datatype Player = Player(cur: Option<FxItem>, chosen: Option<FxItem>, status: map<FxItem, SeqStatus>,
                           played: set<FxItem>, draws: nat, loops: int)

  /** The random choice takes a remainder by the list size. */
  predicate Playable(s: Sequence) {
    s.randomized ==> s.list != []
  }

  function Items(list: seq<FxItem>): set<FxItem> {
    set x | x in list
  }

  ghost predicate WellFormed(s: Sequence, p: Player) {
    && Playable(s)
    && p.status.Keys == Items(s.list)
    && p.played <= Items(s.list)
    && (p.cur.Some? ==> p.cur.value in s.list)
    && (p.chosen.Some? ==> p.chosen.value in s.list)
  }

  // ----- One cue

  const WAIT_FOR_AUDIO_MS := 1000000

  function CueScene(fx: FxItem, status: SeqStatus): Cue {
    match status
    case Off =>
      if fx.preDelay == -1 then Cue(FadeOut, 0, StartSceneExecuter) else Cue(PreDelay, Max(fx.preDelay, 0), NoEffect)
    case PreDelay => Cue(FadeIn, fx.fadeInTime, FadeInScene(fx.fadeInTime))
    case FadeIn => Cue(Hold, fx.holdTime, NoEffect)
    case Hold => Cue(FadeOut, fx.fadeOutTime, FadeOutScene(fx.fadeOutTime))
    case FadeOut => Cue(PostDelay, fx.postDelay, NoEffect)
    case PostDelay => Cue(Off, -1, NoEffect)
  }

  function CueAudio(fx: FxItem, status: SeqStatus): Cue {
    match status
    case Off =>
      if fx.preDelay == -1 then Cue(PostDelay, Max(fx.postDelay, 0), StartAudio)
      else Cue(PreDelay, Max(fx.preDelay, 0), NoEffect)
    case PreDelay => Cue(Hold, if fx.holdTime != 0 then fx.holdTime else WAIT_FOR_AUDIO_MS, StartAudio)
    case Hold => Cue(FadeOut, fx.fadeOutTime, FadeOutAudio(fx.fadeOutTime))
    case FadeOut => Cue(PostDelay, fx.postDelay, NoEffect)
    case PostDelay => Cue(Off, -1, NoEffect)
    case _ => Cue(Off, -1, NoEffect)
  }

  function CueFx(fx: FxItem, status: SeqStatus): Cue {
    match fx.kind
    case Scene => CueScene(fx, status)
    case Audio => CueAudio(fx, status)
    case OtherKind => Cue(status, -1, NoEffect)
  }

  /** Number of cues an item can still give. */
  function Rank(status: SeqStatus): nat {
    match status
    case Off => 6
    case PreDelay => 5
    case FadeIn => 4
    case Hold => 3
    case FadeOut => 2
    case PostDelay => 1
  }

  // ----- The next item

  function IndexOf(list: seq<FxItem>, fx: FxItem): (i: int)
    ensures -1 <= i < |list|
    ensures i >= 0 ==> list[i] == fx
    ensures forall a :: 0 <= a < |list| && list[a] == fx ==> 0 <= i <= a
  {
    if list == [] then -1
    else
      var i := IndexOf(list[..|list| - 1], fx);
      if i >= 0 then i else if list[|list| - 1] == fx then |list| - 1 else -1
  }

  function First(list: seq<FxItem>): Option<FxItem> {
    if list == [] then None else Some(list[0])
  }

  function Follower(list: seq<FxItem>, fx: FxItem, turnover: bool): Option<FxItem> {
    var i := IndexOf(list, fx);
    if |list| < 2 || i < 0 then None
    else if i + 1 < |list| then Some(list[i + 1])
    else if turnover then Some(list[0])
    else None
  }

  const MAX_TRIES: nat := 1000

  /** Random tries until an unplayed item is hit; with the number of values used. */
  function Try(list: seq<FxItem>, played: set<FxItem>, random: nat -> nat, draws: nat, tries: nat): (r: (Option<FxItem>, nat))
    requires list != []
    ensures r.0.Some? ==> r.0.value in list && r.0.value !in played
    decreases tries
  {
    if tries == 0 then (None, draws)
    else
      var fx := list[random(draws) % |list|];
      if fx !in played then (Some(fx), draws + 1) else Try(list, played, random, draws + 1, tries - 1)
  }

  function FirstUnplayed(list: seq<FxItem>, played: set<FxItem>): (r: Option<FxItem>)
    ensures r.Some? ==> r.value in list && r.value !in played
    ensures r.None? ==> forall x :: x in list ==> x in played
  {
    if list == [] then None
    else if list[0] !in played then Some(list[0])
    else FirstUnplayed(list[1..], played)
  }

  /** An unplayed item, None exactly if all are played, whatever the random source returns. */
  function Pick(list: seq<FxItem>, played: set<FxItem>, random: nat -> nat, draws: nat): (r: (Option<FxItem>, nat))
    requires list != []
    ensures r.0.Some? ==> r.0.value in list && r.0.value !in played
    ensures r.0.None? <==> forall x :: x in list ==> x in played
  {
    var (fx, used) := Try(list, played, random, draws, MAX_TRIES);
    if fx.Some? then (fx, used) else (FirstUnplayed(list, played), used)
  }

  /** How many of the next tries meet a played item first. */
  predicate TriesFail(list: seq<FxItem>, played: set<FxItem>, random: nat -> nat, draws: nat, k: nat)
    requires list != []
  {
    forall j :: draws <= j < draws + k ==> list[random(j) % |list|] in played
  }

  lemma {:induction false} TryIs(list: seq<FxItem>, played: set<FxItem>, random: nat -> nat, draws: nat, tries: nat, k: nat)
    requires list != [] && k <= tries && TriesFail(list, played, random, draws, k)
    ensures Try(list, played, random, draws, tries) == Try(list, played, random, draws + k, tries - k)
    decreases k
  {
    if k > 0 {
      assert list[random(draws) % |list|] in played;
      TryIs(list, played, random, draws + 1, tries - 1, k - 1);
    }
  }

  /** The choice is the first unplayed item among 1000 random ones, else the first unplayed one of the list. */
  lemma {:induction false} PickIs(list: seq<FxItem>, played: set<FxItem>, random: nat -> nat, draws: nat, k: nat)
    requires list != [] && k <= 1000 && TriesFail(list, played, random, draws, k)
    ensures var (fx, used) := Pick(list, played, random, draws);
            && (k < 1000 && list[random(draws + k) % |list|] !in played ==>
                  fx == Some(list[random(draws + k) % |list|]) && used == draws + k + 1)
            && (k == 1000 ==> used == draws + 1000)
            && (forall i :: 0 <= i < |list| && list[i] !in played && (forall j :: 0 <= j < i ==> list[j] in played) ==>
                  (k == 1000 ==> fx == Some(list[i])))
  {
    TryIs(list, played, random, draws, 1000, k);
    if k == 1000 {
      forall i | 0 <= i < |list| && list[i] !in played && (forall j :: 0 <= j < i ==> list[j] in played)
        ensures FirstUnplayed(list, played) == Some(list[i])
      {
        FirstUnplayedIs(list, played, i);
      }
    }
  }

  lemma {:induction false} FirstUnplayedIs(list: seq<FxItem>, played: set<FxItem>, i: nat)
    requires i < |list| && list[i] !in played && forall j :: 0 <= j < i ==> list[j] in played
    ensures FirstUnplayed(list, played) == Some(list[i])
    decreases i
  {
    if i > 0 {
      assert list[0] in played;
      FirstUnplayedIs(list[1..], played, i - 1);
    }
  }

  /** The entry behind the first occurrence of an item; at the end of the list the first one, if asked for. */
  lemma {:induction false} FollowerIs(list: seq<FxItem>, i: nat, turnover: bool)
    requires i < |list| && forall k :: 0 <= k < i ==> list[k] != list[i]
    ensures Follower(list, list[i], turnover) ==
      if |list| < 2 then None
      else if i < |list| - 1 then Some(list[i + 1])
      else if turnover then Some(list[0]) else None
  {
  }

  /** The next item of the pass, made ready. */
  function Next(s: Sequence, p: Player): (r: (Option<FxItem>, Player))
    requires WellFormed(s, p)
    ensures WellFormed(s, r.1) && r.1.cur == p.cur && r.1.chosen == p.chosen && r.1.loops == p.loops
    ensures r.0.Some? ==> r.0.value in s.list
  {
    if s.randomized then
      var (fx, draws) := Pick(s.list, p.played, s.random, p.draws);
      (fx, p.(draws := draws, played := if fx.Some? then p.played + {fx.value} else p.played))
    else
      var fx := if p.cur.None? then First(s.list) else Follower(s.list, p.cur.value, false);
      (fx, if fx.Some? then p.(status := p.status[fx.value := Off]) else p)
  }

  function AllOff(list: seq<FxItem>): map<FxItem, SeqStatus> {
    map x | x in list :: Off
  }

  /** The first item of a repeated pass; all items are reset. */
  function Again(s: Sequence, p: Player): (r: (Option<FxItem>, Player))
    requires WellFormed(s, p)
    ensures WellFormed(s, r.1) && r.1.cur == p.cur && r.1.chosen == p.chosen && r.1.loops == p.loops
    ensures r.0.Some? ==> r.0.value in s.list
  {
    var reset := p.(status := AllOff(s.list), played := {});
    if s.randomized then
      var (fx, draws) := Pick(s.list, {}, s.random, p.draws);
      (fx, reset.(draws := draws, played := if fx.Some? then {fx.value} else {}))
    else (First(s.list), reset)
  }

  function SetCurrent(p: Player, fx: Option<FxItem>): Player {
    var status := if fx.Some? && fx != p.cur && fx.value.kind == Audio then p.status[fx.value := Off] else p.status;
    p.(cur := fx, chosen := if fx != p.cur then None else p.chosen, status := status)
  }

  /** At the end of the list: the next pass, if there is one. */
  function WrapUp(s: Sequence, p: Player): (r: Player)
    requires WellFormed(s, p)
    ensures WellFormed(s, r) && r.loops == p.loops + 1
  {
    var counted := p.(loops := p.loops + 1);
    if counted.loops < s.loopTimes then
      var (fx, q) := Again(s, counted);
      SetCurrent(q, fx)
    else SetCurrent(counted, None)
  }

  function AllOffBut(status: map<FxItem, SeqStatus>, fx: FxItem): map<FxItem, SeqStatus> {
    map x | x in status :: if x == fx then status[x] else Off
  }

  /** An item chosen by the user comes first; it keeps its state, all others are reset. */
  function MoveToNext(s: Sequence, p: Player): (r: Player)
    requires WellFormed(s, p)
    ensures WellFormed(s, r)
  {
    if p.chosen.Some? then
      SetCurrent(p.(chosen := None, status := AllOffBut(p.status, p.chosen.value)), p.chosen)
    else
      var (fx, q) := Next(s, p);
      if fx.Some? then SetCurrent(q, fx) else WrapUp(s, q)
  }

  // ----- Turns

  // What the outside world sees of a cue.
  datatype Entry = Entry(fx: FxItem, status: SeqStatus, timeMs: int, effect: Effect)

  // Log and time of a run; the time is what it adds to the event target time.
  datatype Course = Course(player: Player, log: seq<Entry>, timeMs: int)

  /** The current item gives a cue; if it is over, the next one becomes current. */
  function Turn(s: Sequence, p: Player): (r: (Player, Entry, int))
    requires WellFormed(s, p) && p.cur.Some?
    ensures WellFormed(s, r.0)
  {
    var fx := p.cur.value;
    var cue := CueFx(fx, p.status[fx]);
    var entry := Entry(fx, p.status[fx], cue.timeMs, cue.effect);
    var after := p.(status := p.status[fx := cue.status]);
    if cue.timeMs < 0 then
      var next := MoveToNext(s, after);
      (next, entry, if next.cur.Some? then 0 else cue.timeMs)
    else (after, entry, cue.timeMs)
  }

  /** n turns, or fewer if the sequence ends before. */
  function Play(s: Sequence, p: Player, n: nat): (c: Course)
    requires WellFormed(s, p)
    ensures WellFormed(s, c.player)
    decreases n
  {
    if n == 0 || p.cur.None? then Course(p, [], 0)
    else
      var (next, entry, time) := Turn(s, p);
      var rest := Play(s, next, n - 1);
      Course(rest.player, [entry] + rest.log, time + rest.timeMs)
  }

  lemma {:induction false} PlaySplit(s: Sequence, p: Player, i: nat, j: nat)
    requires WellFormed(s, p)
    ensures var a := Play(s, p, i);
            var b := Play(s, a.player, j);
            Play(s, p, i + j) == Course(b.player, a.log + b.log, a.timeMs + b.timeMs)
    decreases i
  {
    hide Turn, WellFormed;
    if i != 0 && p.cur.Some? {
      var (next, entry, time) := Turn(s, p);
      PlaySplit(s, next, i - 1, j);
      var a := Play(s, next, i - 1);
      var b := Play(s, a.player, j);
      PlayNext(s, p, i);
      PlayNext(s, p, i + j);
      assert [entry] + (a.log + b.log) == ([entry] + a.log) + b.log;
    }
  }

  lemma {:induction false} PlayNext(s: Sequence, p: Player, n: nat)
    requires WellFormed(s, p) && p.cur.Some? && n > 0
    ensures var (next, entry, time) := Turn(s, p);
            var rest := Play(s, next, n - 1);
            Play(s, p, n) == Course(rest.player, [entry] + rest.log, time + rest.timeMs)
  {
  }

  lemma {:induction false} EndedStays(s: Sequence, p: Player, n: nat, k: nat)
    requires WellFormed(s, p) && n <= k && Play(s, p, n).player.cur.None?
    ensures Play(s, p, k) == Play(s, p, n)
  {
    hide Turn;
    PlaySplit(s, p, n, k - n);
  }

  /** n turns take the player to q and give these cues. */
  ghost predicate PlaysTo(s: Sequence, p: Player, n: nat, q: Player, log: seq<Entry>)
    requires WellFormed(s, p)
  {
    Play(s, p, n).player == q && Play(s, p, n).log == log
  }

  lemma {:induction false} PlaysOn(s: Sequence, p: Player, i: nat, q: Player, a: seq<Entry>, j: nat, r: Player, b: seq<Entry>)
    requires WellFormed(s, p) && WellFormed(s, q)
    requires PlaysTo(s, p, i, q, a) && PlaysTo(s, q, j, r, b)
    ensures PlaysTo(s, p, i + j, r, a + b)
  {
    hide Play;
    PlaySplit(s, p, i, j);
  }
}
