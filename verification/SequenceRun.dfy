/** What whole runs of a sequence play: every pass gives all cues of all items, and how often. */
module SequenceRun {
  import opened Common
  import opened FxItems
  import opened SequenceMachine

  // ----- All cues of one item

  /** The cues an item gives from a state on. */
  function CueLog(fx: FxItem, status: SeqStatus): seq<Entry>
    decreases Rank(status)
  {
    var cue := CueFx(fx, status);
    [Entry(fx, status, cue.timeMs, cue.effect)] + if cue.timeMs < 0 then [] else CueLog(fx, cue.status)
  }

  function CueEnd(fx: FxItem, status: SeqStatus): SeqStatus
    decreases Rank(status)
  {
    var cue := CueFx(fx, status);
    if cue.timeMs < 0 then cue.status else CueEnd(fx, cue.status)
  }

  /** The player after all cues of the current item, before it moves on. */
  function AfterItem(s: Sequence, p: Player): (r: Player)
    requires WellFormed(s, p) && p.cur.Some?
    ensures WellFormed(s, r)
  {
    var fx := p.cur.value;
    p.(status := p.status[fx := CueEnd(fx, p.status[fx])])
  }

  /** An item gives all its cues and is then left. */
  lemma {:induction false} ItemRuns(s: Sequence, p: Player)
    requires WellFormed(s, p) && p.cur.Some?
    ensures var log := CueLog(p.cur.value, p.status[p.cur.value]);
            PlaysTo(s, p, |log|, MoveToNext(s, AfterItem(s, p)), log)
    decreases Rank(p.status[p.cur.value])
  {
    hide MoveToNext, PlaysTo;
    var fx := p.cur.value;
    var cue := CueFx(fx, p.status[fx]);
    var after := p.(status := p.status[fx := cue.status]);
    var rest := if cue.timeMs < 0 then [] else CueLog(fx, cue.status);
    var entry := Entry(fx, p.status[fx], cue.timeMs, cue.effect);
    TurnPlays(s, p);
    assert CueLog(fx, p.status[fx]) == [entry] + rest;
    if cue.timeMs < 0 {
      assert [entry] + rest == [entry];
      assert AfterItem(s, p) == after;
    } else {
      ItemRuns(s, after);
      assert AfterItem(s, p) == AfterItem(s, after);
      PlaysOn(s, p, 1, after, [entry], |rest|, MoveToNext(s, AfterItem(s, after)), rest);
    }
  }

  lemma {:induction false} TurnPlays(s: Sequence, p: Player)
    requires WellFormed(s, p) && p.cur.Some?
    ensures PlaysTo(s, p, 1, Turn(s, p).0, [Turn(s, p).1])
  {
  }

  // ----- One pass

  /** The state in which an item that is not current yet will begin. */
  function BeginsIn(s: Sequence, status: map<FxItem, SeqStatus>, fx: FxItem): SeqStatus {
    if s.randomized && fx.kind != Audio && fx in status then status[fx] else Off
  }

  function PassLog(s: Sequence, status: map<FxItem, SeqStatus>, order: seq<FxItem>): seq<Entry> {
    if order == [] then []
    else CueLog(order[0], BeginsIn(s, status, order[0])) + PassLog(s, status, order[1..])
  }

  /** Unless the user chooses otherwise, these come after the current item, and then the list is at its end. */
  ghost predicate Follows(s: Sequence, p: Player, order: seq<FxItem>)
    requires WellFormed(s, p)
    decreases |order|
  {
    p.chosen.None? &&
    var (fx, q) := Next(s, p);
    if order == [] then fx.None?
    else fx == Some(order[0]) && Follows(s, SetCurrent(q, fx), order[1..])
  }

  predicate Distinct(list: seq<FxItem>) {
    forall i, j :: 0 <= i < j < |list| ==> list[i] != list[j]
  }

  lemma {:induction false} FollowsWithoutStatus(s: Sequence, p: Player, q: Player, order: seq<FxItem>)
    requires WellFormed(s, p) && WellFormed(s, q)
    requires p.cur == q.cur && p.chosen == q.chosen && p.played == q.played && p.draws == q.draws
    requires Follows(s, p, order)
    ensures Follows(s, q, order)
    decreases |order|
  {
    if order != [] {
      var (fx, p') := Next(s, p);
      var (_, q') := Next(s, q);
      FollowsWithoutStatus(s, SetCurrent(p', fx), SetCurrent(q', fx), order[1..]);
    }
  }

  lemma {:induction false} PassLogWithoutStatus(s: Sequence, a: map<FxItem, SeqStatus>, b: map<FxItem, SeqStatus>, order: seq<FxItem>)
    requires forall x :: x in order ==> BeginsIn(s, a, x) == BeginsIn(s, b, x)
    ensures PassLog(s, a, order) == PassLog(s, b, order)
    decreases |order|
  {
    if order != [] {
      PassLogWithoutStatus(s, a, b, order[1..]);
    }
  }

  /** q is a player at the end of the list, with nothing left to play in this pass. */
  ghost predicate AtEnd(s: Sequence, p: Player, q: Player) {
    WellFormed(s, q) && q.loops == p.loops && q.cur.Some? && q.chosen.None? && Next(s, q).0.None?
  }

  /** Random playback marks its current item. */
  ghost predicate Marked(s: Sequence, p: Player) {
    s.randomized && p.cur.Some? ==> p.cur.value in p.played
  }

  lemma {:induction false} FollowersAreUnplayed(s: Sequence, p: Player, order: seq<FxItem>)
    requires WellFormed(s, p) && Follows(s, p, order) && s.randomized
    ensures forall x :: x in order ==> x !in p.played
    decreases |order|
  {
    hide Pick;
    if order != [] {
      var (fx, q) := Next(s, p);
      FollowersAreUnplayed(s, SetCurrent(q, fx), order[1..]);
      assert order == [order[0]] + order[1..];
    }
  }

  /** The next item begins as announced, and the later ones are left as they are. */
  lemma {:induction false} NextBegins(s: Sequence, p: Player, order: seq<FxItem>)
    requires WellFormed(s, p) && p.cur.Some? && Follows(s, p, order) && order != [] && Marked(s, p)
    ensures var next := MoveToNext(s, AfterItem(s, p));
            && next.cur == Some(order[0]) && next.loops == p.loops && Follows(s, next, order[1..]) && Marked(s, next)
            && next.status[order[0]] == BeginsIn(s, p.status, order[0])
            && forall x :: x in order[1..] ==> BeginsIn(s, p.status, x) == BeginsIn(s, next.status, x)
  {
    hide WrapUp, Pick, CueEnd, Follower, First;
    var after := AfterItem(s, p);
    FollowsWithoutStatus(s, p, after, order);
    var next := MoveToNext(s, after);
    assert next.cur == Some(order[0]) && Follows(s, next, order[1..]);
    if s.randomized {
      FollowersAreUnplayed(s, p, order);
      FollowersAreUnplayed(s, next, order[1..]);
      assert order == [order[0]] + order[1..];
      assert order[0] in order;
    }
  }

  lemma {:induction false} LastItemRuns(s: Sequence, p: Player)
    requires WellFormed(s, p) && p.cur.Some? && Follows(s, p, [])
    ensures var q, log := AfterItem(s, p), CueLog(p.cur.value, p.status[p.cur.value]);
            AtEnd(s, p, q) && PlaysTo(s, p, |log|, WrapUp(s, Next(s, q).1), log)
  {
    hide PlaysTo, Again, Pick, CueLog, CueEnd, WrapUp;
    ItemRuns(s, p);
    FollowsWithoutStatus(s, p, AfterItem(s, p), []);
  }

  /** From its current item on a pass gives all cues of all items to come, then it wraps up. */
  lemma {:induction false} PassRuns(s: Sequence, p: Player, order: seq<FxItem>) returns (q: Player)
    requires WellFormed(s, p) && p.cur.Some? && Follows(s, p, order) && Marked(s, p)
    ensures AtEnd(s, p, q)
    ensures var log := CueLog(p.cur.value, p.status[p.cur.value]) + PassLog(s, p.status, order);
            PlaysTo(s, p, |log|, WrapUp(s, Next(s, q).1), log)
    decreases |order|
  {
    hide PlaysTo, MoveToNext, WrapUp, Next, CueLog, AfterItem, Follows, BeginsIn;
    var own := CueLog(p.cur.value, p.status[p.cur.value]);
    if order == [] {
      LastItemRuns(s, p);
      q := AfterItem(s, p);
      assert own + PassLog(s, p.status, order) == own;
    } else {
      var next := MoveToNext(s, AfterItem(s, p));
      ItemRuns(s, p);
      NextBegins(s, p, order);
      q := PassRuns(s, next, order[1..]);
      PassLogWithoutStatus(s, p.status, next.status, order[1..]);
      var rest := CueLog(order[0], next.status[order[0]]) + PassLog(s, next.status, order[1..]);
      PlaysOn(s, p, |own|, next, own, |rest|, WrapUp(s, Next(s, q).1), rest);
    }
  }

  // ----- The order of a pass

  lemma {:induction false} UnplayedShrink(list: seq<FxItem>, played: set<FxItem>, fx: FxItem)
    requires fx in list && fx !in played
    ensures Items(list) - (played + {fx}) < Items(list) - played
  {
  }

  /** The unplayed items in the order in which they will be picked. */
  function Order(list: seq<FxItem>, random: nat -> nat, played: set<FxItem>, draws: nat): (order: seq<FxItem>)
    requires list != []
    ensures Distinct(order) && Items(order) == Items(list) - played
    decreases Items(list) - played
  {
    var (fx, used) := Pick(list, played, random, draws);
    if fx.None? then []
    else
      UnplayedShrink(list, played, fx.value);
      var rest := Order(list, random, played + {fx.value}, used);
      assert forall i :: 0 <= i < |rest| ==> rest[i] in Items(rest);
      assert Items([fx.value] + rest) == {fx.value} + Items(rest);
      [fx.value] + rest
  }

  lemma {:induction false} RandomFollows(s: Sequence, p: Player)
    requires WellFormed(s, p) && p.chosen.None? && s.randomized
    ensures Follows(s, p, Order(s.list, s.random, p.played, p.draws))
    decreases Items(s.list) - p.played
  {
    hide Pick;
    var (fx, q) := Next(s, p);
    if fx.Some? {
      UnplayedShrink(s.list, p.played, fx.value);
      RandomFollows(s, SetCurrent(q, fx));
      var rest := Order(s.list, s.random, q.played, q.draws);
      assert ([fx.value] + rest)[1..] == rest;
    }
  }

  lemma {:induction false} IndexInDistinct(list: seq<FxItem>, i: nat)
    requires Distinct(list) && i < |list|
    ensures IndexOf(list, list[i]) == i
  {
  }

  lemma {:induction false} ListFollows(s: Sequence, p: Player, i: nat)
    requires WellFormed(s, p) && p.chosen.None? && !s.randomized && Distinct(s.list)
    requires i < |s.list| && p.cur == Some(s.list[i])
    ensures Follows(s, p, s.list[i + 1..])
    decreases |s.list| - i
  {
    IndexInDistinct(s.list, i);
    hide IndexOf;
    if i + 1 < |s.list| {
      var (fx, q) := Next(s, p);
      ListFollows(s, SetCurrent(q, fx), i + 1);
      assert s.list[i + 1..][1..] == s.list[i + 2..];
    }
  }

  /** The list as it is, or all its items once in any order. */
  predicate IsPassOrder(s: Sequence, order: seq<FxItem>) {
    if s.randomized then Distinct(order) && Items(order) == Items(s.list) else order == s.list
  }

  /** What a pass started with these random values will play. */
  function PassOrder(s: Sequence, draws: nat): (order: seq<FxItem>)
    requires s.list != []
    ensures order != [] && IsPassOrder(s, order)
  {
    var order := if s.randomized then Order(s.list, s.random, {}, draws) else s.list;
    assert s.list[0] in Items(order);
    order
  }

  /** p has just begun to play the items of `order`, which were in the states `status`. */
  ghost predicate Starts(s: Sequence, p: Player, status: map<FxItem, SeqStatus>, order: seq<FxItem>)
    requires order != []
  {
    && WellFormed(s, p) && Marked(s, p) && p.cur == Some(order[0]) && Follows(s, p, order[1..])
    && p.status[order[0]] == BeginsIn(s, status, order[0])
    && forall x :: x in order[1..] ==> BeginsIn(s, p.status, x) == BeginsIn(s, status, x)
  }

  lemma {:induction false} RandomPassStarts(s: Sequence, p: Player)
    requires WellFormed(s, p) && p.chosen.None? && s.randomized && p.played == {} && (p.cur.None? || p.status == AllOff(s.list))
    ensures var (fx, q) := Next(s, p); fx.Some? && Starts(s, SetCurrent(q, fx), p.status, PassOrder(s, p.draws))
  {
    hide Pick;
    var (fx, q) := Next(s, p);
    var next := SetCurrent(q, fx);
    var order := PassOrder(s, p.draws);
    RandomFollows(s, p);
    assert s.list[0] in s.list;
    assert order == [order[0]] + order[1..];
    assert Follows(s, next, order[1..]);
    FollowersAreUnplayed(s, next, order[1..]);
  }

  lemma {:induction false} FirstPassStarts(s: Sequence, p: Player)
    requires WellFormed(s, p) && s.list != [] && p.cur.None? && p.chosen.None? && p.played == {} && (!s.randomized ==> Distinct(s.list))
    ensures Starts(s, MoveToNext(s, p), p.status, PassOrder(s, p.draws)) && MoveToNext(s, p).loops == p.loops
  {
    hide Pick, Order;
    if s.randomized {
      hide Starts, PassOrder;
      RandomPassStarts(s, p);
    } else {
      ListFollows(s, MoveToNext(s, p), 0);
    }
  }

  lemma {:induction false} NextPassStarts(s: Sequence, p: Player)
    requires WellFormed(s, p) && p.chosen.None? && s.list != [] && p.loops + 1 < s.loopTimes && (!s.randomized ==> Distinct(s.list))
    ensures Starts(s, WrapUp(s, p), AllOff(s.list), PassOrder(s, p.draws))
  {
    hide Pick, Order;
    if s.randomized {
      hide Starts, PassOrder;
      var reset := p.(loops := p.loops + 1, status := AllOff(s.list), played := {});
      RandomPassStarts(s, reset);
      var (fx, q) := Next(s, reset);
      assert q.played == {fx.value};
      assert WrapUp(s, p) == SetCurrent(q, fx);
    } else {
      ListFollows(s, WrapUp(s, p), 0);
    }
  }

  // ----- The whole run

  /** The cues of several passes; after the first one all items begin anew. */
  function RunLog(s: Sequence, status: map<FxItem, SeqStatus>, orders: seq<seq<FxItem>>): seq<Entry>
    decreases |orders|
  {
    if orders == [] then []
    else PassLog(s, status, orders[0]) + RunLog(s, AllOff(s.list), orders[1..])
  }

  /** The run from p on plays exactly these passes and ends. */
  ghost predicate PlaysPasses(s: Sequence, p: Player, status: map<FxItem, SeqStatus>, orders: seq<seq<FxItem>>)
    requires WellFormed(s, p)
  {
    var log := RunLog(s, status, orders);
    var c := Play(s, p, |log|);
    c.log == log && c.player.cur.None? && c.player.loops == p.loops + |orders|
  }

  ghost predicate AllPassOrders(s: Sequence, orders: seq<seq<FxItem>>) {
    forall i :: 0 <= i < |orders| ==> IsPassOrder(s, orders[i])
  }

  lemma {:induction false} PassesRun(s: Sequence, p: Player, status: map<FxItem, SeqStatus>, order: seq<FxItem>)
      returns (orders: seq<seq<FxItem>>)
    requires s.list != [] && (!s.randomized ==> Distinct(s.list))
    requires order != [] && Starts(s, p, status, order) && IsPassOrder(s, order)
    ensures |orders| == Max(1, s.loopTimes - p.loops) && AllPassOrders(s, orders) && PlaysPasses(s, p, status, orders)
    decreases s.loopTimes - p.loops
  {
    hide Follows, Next, Again, CueLog, BeginsIn, MoveToNext, Marked, Play, PlaysTo, IsPassOrder;
    var log := PassLog(s, status, order);
    PassLogWithoutStatus(s, status, p.status, order[1..]);
    var q := PassRuns(s, p, order[1..]);
    var last := Next(s, q).1;
    var next := WrapUp(s, last);
    assert PlaysTo(s, p, |log|, next, log);
    if p.loops + 1 < s.loopTimes {
      NextPassStarts(s, last);
      var rest := PassesRun(s, next, AllOff(s.list), PassOrder(s, last.draws));
      orders := [order] + rest;
      assert orders[1..] == rest;
      JoinPasses(s, p, status, order, next, rest);
    } else {
      orders := [order];
      OnePass(s, p, status, order, next);
    }
  }

  lemma {:induction false} OnePass(s: Sequence, p: Player, status: map<FxItem, SeqStatus>, order: seq<FxItem>, next: Player)
    requires WellFormed(s, p) && next.cur.None? && next.loops == p.loops + 1
    requires PlaysTo(s, p, |PassLog(s, status, order)|, next, PassLog(s, status, order))
    ensures PlaysPasses(s, p, status, [order])
  {
    hide PassLog;
    assert RunLog(s, AllOff(s.list), [order][1..]) == [];
    assert RunLog(s, status, [order]) == PassLog(s, status, order);
  }

  lemma {:induction false} JoinPasses(s: Sequence, p: Player, status: map<FxItem, SeqStatus>, order: seq<FxItem>,
                                      next: Player, rest: seq<seq<FxItem>>)
    requires WellFormed(s, p) && WellFormed(s, next) && next.loops == p.loops + 1
    requires PlaysTo(s, p, |PassLog(s, status, order)|, next, PassLog(s, status, order))
    requires PlaysPasses(s, next, AllOff(s.list), rest)
    ensures PlaysPasses(s, p, status, [order] + rest)
  {
    hide PassLog, Play;
    var log, more := PassLog(s, status, order), RunLog(s, AllOff(s.list), rest);
    assert ([order] + rest)[1..] == rest;
    assert RunLog(s, status, [order] + rest) == log + more;
    PlaysOn(s, p, |log|, next, log, |more|, Play(s, next, |more|).player, more);
  }

  /** A player that has not begun yet, for a new executer. */
  ghost predicate IsNew(s: Sequence, p: Player) {
    WellFormed(s, p) && p.cur.None? && p.chosen.None? && p.played == {} && p.loops == 0
  }

  /**
   Every run, in list order or at random, plays all items max(1, loopTimes)
   times, each pass every item once, and then ends. Times may be 0 or negative.
   */
  lemma {:induction false} EveryRunPlaysAll(s: Sequence, p: Player)
    requires IsNew(s, p) && s.list != [] && (!s.randomized ==> Distinct(s.list))
    ensures exists orders ::
      |orders| == Max(1, s.loopTimes) && AllPassOrders(s, orders) && PlaysPasses(s, MoveToNext(s, p), p.status, orders)
  {
    hide Follows, MoveToNext, PlaysPasses, AllPassOrders, BeginsIn;
    FirstPassStarts(s, p);
    var orders := PassesRun(s, MoveToNext(s, p), p.status, PassOrder(s, p.draws));
  }

  // ----- Where the first pass begins

  /** An item that a random first pass plays from its present state on is Off. */
  predicate BeginsOff(s: Sequence, status: map<FxItem, SeqStatus>) {
    !s.randomized || forall x :: x in s.list && x in status ==> x.kind == Audio || status[x] == Off
  }

  /** The cues of an item tell from which state on it was played. */
  lemma {:induction false} CuesTellState(fx: FxItem, a: SeqStatus, b: SeqStatus, x: seq<Entry>, y: seq<Entry>)
    requires CueLog(fx, a) + x == CueLog(fx, b) + y
    ensures a == b && x == y
  {
    assert (CueLog(fx, a) + x)[0] == CueLog(fx, a)[0] && (CueLog(fx, b) + y)[0] == CueLog(fx, b)[0];
    assert x == (CueLog(fx, a) + x)[|CueLog(fx, a)|..];
    assert y == (CueLog(fx, b) + y)[|CueLog(fx, b)|..];
  }

  lemma {:induction false} PassTellsStates(s: Sequence, a: map<FxItem, SeqStatus>, b: map<FxItem, SeqStatus>, order: seq<FxItem>,
                                           x: seq<Entry>, y: seq<Entry>)
    requires PassLog(s, a, order) + x == PassLog(s, b, order) + y
    ensures forall fx :: fx in order ==> BeginsIn(s, a, fx) == BeginsIn(s, b, fx)
    decreases |order|
  {
    hide BeginsIn, CueLog;
    if order != [] {
      var own, other := CueLog(order[0], BeginsIn(s, a, order[0])), CueLog(order[0], BeginsIn(s, b, order[0]));
      var rest, others := PassLog(s, a, order[1..]), PassLog(s, b, order[1..]);
      assert own + (rest + x) == (own + rest) + x && other + (others + y) == (other + others) + y;
      CuesTellState(order[0], BeginsIn(s, a, order[0]), BeginsIn(s, b, order[0]), rest + x, others + y);
      PassTellsStates(s, a, b, order[1..], x, y);
      assert order == [order[0]] + order[1..];
    }
  }

  /**
   A run gives all cues of all items in every pass, the first one included, exactly if the list is played in
   order or every item that is no audio is Off: nothing resets a scene for a random run.
   */
  lemma {:induction false} FirstPassIsWholeIff(s: Sequence, p: Player, orders: seq<seq<FxItem>>)
    requires WellFormed(s, p) && orders != [] && IsPassOrder(s, orders[0])
    ensures RunLog(s, p.status, orders) == RunLog(s, AllOff(s.list), orders) <==> BeginsOff(s, p.status)
  {
    var order, rest := orders[0], RunLog(s, AllOff(s.list), orders[1..]);
    assert forall x :: x in s.list <==> x in Items(s.list);
    assert s.randomized ==> forall x :: x in order <==> x in Items(order);
    if BeginsOff(s, p.status) {
      PassLogWithoutStatus(s, p.status, AllOff(s.list), order);
    } else if PassLog(s, p.status, order) + rest == PassLog(s, AllOff(s.list), order) + rest {
      PassTellsStates(s, p.status, AllOff(s.list), order, rest, rest);
    }
  }

  /** A new random run of one scene that an earlier run has left in Hold: the scene is never faded in. */
  lemma {:induction false} HeldSceneIsNotFadedIn(s: Sequence, p: Player, fx: FxItem)
    requires IsNew(s, p) && s.list == [fx] && fx.kind == Scene && s.randomized && s.loopTimes == 1
    requires p.status[fx] == Hold
    ensures PlaysPasses(s, MoveToNext(s, p), p.status, [[fx]])
    ensures forall e :: e in RunLog(s, p.status, [[fx]]) ==> e.fx == fx && !e.effect.FadeInScene?
  {
    hide MoveToNext, PlaysPasses, CueLog;
    SinglePass(s, p, fx);
    HeldCues(fx);
    var log := CueLog(fx, Hold);
    assert PassLog(s, p.status, [fx]) == log + PassLog(s, p.status, []) == log;
    assert [[fx]][1..] == [];
    assert RunLog(s, p.status, [[fx]]) == log + RunLog(s, AllOff(s.list), []) == log;
  }

  lemma {:induction false} SinglePass(s: Sequence, p: Player, fx: FxItem)
    requires IsNew(s, p) && s.list == [fx] && s.randomized && s.loopTimes == 1
    ensures PlaysPasses(s, MoveToNext(s, p), p.status, [[fx]])
  {
    hide MoveToNext, PlaysPasses;
    EveryRunPlaysAll(s, p);
    var orders :| |orders| == 1 && AllPassOrders(s, orders) && PlaysPasses(s, MoveToNext(s, p), p.status, orders);
    SingleOrder(s, orders[0], fx);
    assert orders == [[fx]];
  }

  lemma {:induction false} SingleOrder(s: Sequence, order: seq<FxItem>, fx: FxItem)
    requires IsPassOrder(s, order) && s.list == [fx]
    ensures order == [fx]
  {
    if s.randomized {
      assert fx in Items(s.list) && fx in Items(order);
      OnlyEntry(order, |order| - 1, fx);
    }
  }

  lemma {:induction false} OnlyEntry(order: seq<FxItem>, i: nat, fx: FxItem)
    requires Distinct(order) && Items(order) == {fx} && i < |order|
    ensures i == 0 && order[0] == fx
  {
    assert order[i] in Items(order) && order[0] in Items(order);
  }

  lemma {:induction false} HeldCues(fx: FxItem)
    requires fx.kind == Scene
    ensures forall e :: e in CueLog(fx, Hold) ==> e.fx == fx && !e.effect.FadeInScene?
  {
    assert CueLog(fx, PostDelay) == [Entry(fx, PostDelay, -1, NoEffect)];
    assert forall e :: e in CueLog(fx, FadeOut) ==> e.fx == fx && !e.effect.FadeInScene?;
  }

  lemma {:induction false} EmptyListEnds(s: Sequence, p: Player)
    requires WellFormed(s, p) && s.list == []
    ensures MoveToNext(s, p).cur.None? && MoveToNext(s, p).loops == p.loops + 1
  {
  }

  lemma {:induction false} PassesEnd(s: Sequence, p: Player, status: map<FxItem, SeqStatus>, orders: seq<seq<FxItem>>)
    requires WellFormed(s, p) && PlaysPasses(s, p, status, orders)
    ensures exists n: nat :: Play(s, p, n).player.cur.None?
  {
  }

  lemma {:induction false} NewRunEnds(s: Sequence, p: Player)
    requires IsNew(s, p) && s.list != [] && (!s.randomized ==> Distinct(s.list))
    ensures exists n: nat :: Play(s, MoveToNext(s, p), n).player.cur.None?
  {
    hide PlaysPasses, MoveToNext, Turn, AllPassOrders;
    EveryRunPlaysAll(s, p);
    var orders :| AllPassOrders(s, orders) && PlaysPasses(s, MoveToNext(s, p), p.status, orders);
    PassesEnd(s, MoveToNext(s, p), p.status, orders);
  }

  // ----- A choice by the user

  /** In list order the pass goes on from the chosen item, all others begin anew. */
  lemma {:induction false} ChosenIsNext(s: Sequence, p: Player, i: nat)
    requires WellFormed(s, p) && !s.randomized && Distinct(s.list) && i < |s.list| && p.chosen == Some(s.list[i])
    ensures var next := MoveToNext(s, p);
            && next.cur == Some(s.list[i]) && next.chosen.None? && next.loops == p.loops
            && next.status[s.list[i]] ==
                 (if p.cur != p.chosen && s.list[i].kind == Audio then Off else p.status[s.list[i]])
            && Follows(s, next, s.list[i + 1..])
            && forall k :: 0 <= k < |s.list| && k != i ==> next.status[s.list[k]] == Off
  {
    ListFollows(s, MoveToNext(s, p), i);
    assert forall k :: 0 <= k < |s.list| ==> s.list[k] in Items(s.list);
  }

  /** The current item still gives all its cues; then come the chosen item and all behind it. */
  lemma {:induction false} ChosenRuns(s: Sequence, p: Player, i: nat) returns (q: Player)
    requires WellFormed(s, p) && !s.randomized && Distinct(s.list) && i < |s.list|
    requires p.cur.Some? && p.chosen == Some(s.list[i])
    ensures AtEnd(s, p, q)
    ensures var own := CueLog(p.cur.value, p.status[p.cur.value]);
            var next := MoveToNext(s, AfterItem(s, p));
            var log := own + (CueLog(s.list[i], next.status[s.list[i]]) + PassLog(s, next.status, s.list[i + 1..]));
            PlaysTo(s, p, |log|, WrapUp(s, Next(s, q).1), log)
  {
    hide PlaysTo, MoveToNext, WrapUp, Next, CueLog, Follows, BeginsIn, PassLog;
    var after := AfterItem(s, p);
    ItemRuns(s, p);
    ChosenIsNext(s, after, i);
    var next := MoveToNext(s, after);
    q := PassRuns(s, next, s.list[i + 1..]);
    var own := CueLog(p.cur.value, p.status[p.cur.value]);
    var rest := CueLog(s.list[i], next.status[s.list[i]]) + PassLog(s, next.status, s.list[i + 1..]);
    PlaysOn(s, p, |own|, next, own, |rest|, WrapUp(s, Next(s, q).1), rest);
  }

  // ----- Lists that hold an item twice

  /** In front of the second entry of an item the list is never left. */
  lemma {:induction false} CyclesForEver(s: Sequence, p: Player, i: nat, j: nat, n: nat)
    requires WellFormed(s, p) && !s.randomized && i < j < |s.list| && s.list[i] == s.list[j]
    requires p.cur.Some? && p.cur.value in s.list[..j] && p.chosen.None?
    ensures Play(s, p, n).player.cur.Some? && Play(s, p, n).player.loops == p.loops
    decreases n
  {
    hide Turn, WellFormed;
    if n > 0 {
      StaysBefore(s, p, i, j);
      CyclesForEver(s, Turn(s, p).0, i, j, n - 1);
    }
  }

  lemma {:induction false} StaysBefore(s: Sequence, p: Player, i: nat, j: nat)
    requires WellFormed(s, p) && !s.randomized && i < j < |s.list| && s.list[i] == s.list[j]
    requires p.cur.Some? && p.cur.value in s.list[..j] && p.chosen.None?
    ensures var next := Turn(s, p).0;
            next.cur.Some? && next.cur.value in s.list[..j] && next.chosen.None? && next.loops == p.loops
  {
    hide CueFx, IndexOf, WrapUp;
    var k := IndexOf(s.list, p.cur.value);
    var a :| 0 <= a < j && s.list[a] == p.cur.value;
    assert Follower(s.list, p.cur.value, false) == Some(s.list[k + 1]);
    assert s.list[k + 1] in s.list[..j] by {
      assert k + 1 < j ==> s.list[..j][k + 1] == s.list[k + 1];
      assert s.list[..j][i] == s.list[j];
    }
  }

  /** In list order a run ends exactly if no item is in the list twice. */
  lemma {:induction false} ListRunEndsIff(s: Sequence, p: Player)
    requires IsNew(s, p) && s.list != [] && !s.randomized
    ensures (exists n: nat :: Play(s, MoveToNext(s, p), n).player.cur.None?) <==> Distinct(s.list)
  {
    hide Turn, PassLog, PlaysPasses;
    var m := MoveToNext(s, p);
    if Distinct(s.list) {
      NewRunEnds(s, p);
    } else {
      var i, j :| 0 <= i < j < |s.list| && s.list[i] == s.list[j];
      forall n: nat ensures Play(s, m, n).player.cur.Some? {
        assert s.list[..j][0] == s.list[0];
        CyclesForEver(s, m, i, j, n);
      }
    }
  }

  /** Without repetitions in the list a pass is a permutation of it. */
  lemma {:induction false} PassIsPermutation(s: Sequence, order: seq<FxItem>)
    requires Distinct(s.list) && IsPassOrder(s, order)
    ensures multiset(order) == multiset(s.list)
  {
    CountsAreOne(s.list);
    CountsAreOne(order);
  }

  lemma {:induction false} CountsAreOne(list: seq<FxItem>)
    requires Distinct(list)
    ensures multiset(list) == multiset(Items(list))
    decreases |list|
  {
    if list != [] {
      var last := |list| - 1;
      var init, x := list[..last], list[last];
      assert list == init + [x];
      CountsAreOne(init);
      assert Items(list) == Items(init) + {x} && x !in Items(init);
    }
  }
}
