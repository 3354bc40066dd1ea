/** The list of effect items as an object: searching neighbours, random choice, resets and new ids. */
module FxLists {
  import opened Common
  import opened FxItems
  import opened SequenceMachine
  import opened SequenceRun

  function Forerunner(list: seq<FxItem>, fx: FxItem, turnover: bool): Option<FxItem> {
    var i := IndexOf(list, fx);
    if |list| < 2 || i < 0 then None
    else if i > 0 then Some(list[i - 1])
    else if turnover then Some(list[|list| - 1])
    else None
  }

  /** Forerunner and follower undo each other. */
  lemma {:induction false} FollowerOfForerunner(list: seq<FxItem>, a: FxItem, b: FxItem, turnover: bool)
    requires Distinct(list) && a in list && b in list
    ensures Follower(list, a, turnover) == Some(b) <==> Forerunner(list, b, turnover) == Some(a)
  {
  }

  function ToOption(fx: FxItem?): Option<FxItem> {
    if fx == null then None else Some(fx)
  }

  function StatusOf(list: seq<FxItem>): map<FxItem, SeqStatus>
    reads list
  {
    map x | x in list :: x.seqStatus
  }

  function PlayedOf(list: seq<FxItem>): set<FxItem>
    reads list
  {
    set x | x in list && x.playedInRandomList
  }

  class FxList {
    var fxList: seq<FxItem>
    var randomized: bool
    var loopTimes: int
    var fxNext: FxItem?
    var fxPrev: FxItem?

    constructor ()
      ensures fxList == [] && !randomized && loopTimes == 0 && fxNext == null && fxPrev == null
    {
      fxList, randomized, loopTimes, fxNext, fxPrev := [], false, 0, null, null;
    }

    method GetFirstFx() returns (fx: FxItem?)
      ensures ToOption(fx) == First(fxList)
    {
      fx := if |fxList| > 0 then fxList[0] else null;
    }

    /** The entry behind an item; without an item, behind the one marked as next. */
    method FindSequenceFollower(item: FxItem?, turnover: bool) returns (fx: FxItem?)
      ensures var cur := if item == null then fxNext else item;
        ToOption(fx) == if cur == null then None else Follower(fxList, cur, turnover)
    {
      fx := null;
      if |fxList| < 2 {
        return;
      }
      var cur := item;
      if cur == null {
        cur := fxNext;
      }
      if cur == null {
        return;
      }
      var idx := IndexOf(fxList, cur);
      if idx >= 0 {
        if idx + 1 < |fxList| {
          fx := fxList[idx + 1];
        } else if turnover {
          fx := fxList[0];
        }
      }
    }

    method FindSequenceForerunner(item: FxItem?, turnover: bool) returns (fx: FxItem?)
      ensures var cur := if item == null then fxPrev else item;
        ToOption(fx) == if cur == null then None else Forerunner(fxList, cur, turnover)
    {
      fx := null;
      if |fxList| < 2 {
        return;
      }
      var cur := item;
      if cur == null {
        cur := fxPrev;
      }
      if cur == null {
        return;
      }
      var idx := IndexOf(fxList, cur);
      if idx >= 0 {
        if idx > 0 {
          fx := fxList[idx - 1];
        } else if turnover {
          fx := fxList[|fxList| - 1];
        }
      }
    }

    /** Chooses an unplayed item at random and marks it; `used` is the next value of the random source. */
    method FindSequenceRandomFxItem(random: nat -> nat, draws: nat) returns (fx: FxItem?, used: nat)
      requires fxList != []
      modifies fxList`playedInRandomList
      ensures (ToOption(fx), used) == Pick(fxList, old(PlayedOf(fxList)), random, draws)
      ensures PlayedOf(fxList) == old(PlayedOf(fxList)) + if fx != null then {fx} else {}
    {
      ghost var played := PlayedOf(fxList);
      fx, used := TryRandomItems(random, draws);
      if fx == null {
        fx := FirstUnplayedItem();
      }
      if fx != null {
        fx.playedInRandomList := true;
      }
      assert PlayedOf(fxList) == played + if fx != null then {fx} else {};
    }

    /** At most 1000 tries. */
    method TryRandomItems(random: nat -> nat, draws: nat) returns (fx: FxItem?, used: nat)
      requires fxList != []
      ensures (ToOption(fx), used) == Try(fxList, PlayedOf(fxList), random, draws, MAX_TRIES)
    {
      ghost var played := PlayedOf(fxList);
      fx, used := null, draws;
      var tries := 0;
      while fx == null && tries < MAX_TRIES
        invariant tries <= MAX_TRIES
        invariant Try(fxList, played, random, draws, MAX_TRIES) ==
          if fx != null then (Some(fx), used) else Try(fxList, played, random, used, MAX_TRIES - tries)
        decreases MAX_TRIES - tries
      {
        var item := fxList[random(used) % |fxList|];
        tries, used := tries + 1, used + 1;
        assert item in played <==> item.playedInRandomList;
        if !item.playedInRandomList {
          fx := item;
        }
      }
    }

    method FirstUnplayedItem() returns (fx: FxItem?)
      ensures ToOption(fx) == FirstUnplayed(fxList, PlayedOf(fxList))
    {
      fx := null;
      ghost var played := PlayedOf(fxList);
      var i := 0;
      while fx == null && i < |fxList|
        invariant i <= |fxList|
        invariant FirstUnplayed(fxList, played) == if fx != null then Some(fx) else FirstUnplayed(fxList[i..], played)
        decreases |fxList| - i, fx == null
      {
        assert fxList[i] in played <==> fxList[i].playedInRandomList;
        assert fxList[i..][1..] == fxList[i + 1..];
        if !fxList[i].playedInRandomList {
          fx := fxList[i];
        }
        i := i + 1;
      }
    }

    /** All items are off, except the one to skip. */
    method ResetFxItems(skipFx: FxItem?)
      modifies fxList`seqStatus
      ensures skipFx == null ==> StatusOf(fxList) == AllOff(fxList)
      ensures skipFx != null ==> StatusOf(fxList) == AllOffBut(old(StatusOf(fxList)), skipFx)
    {
      for t := 0 to |fxList|
        invariant forall i :: 0 <= i < t && fxList[i] != skipFx ==> fxList[i].seqStatus == Off
        invariant skipFx != null ==> skipFx.seqStatus == old(skipFx.seqStatus)
      {
        if fxList[t] != skipFx {
          fxList[t].ResetFx();
        }
      }
    }

    method ResetFxItemsForNewExecuter()
      modifies fxList`playedInRandomList
      ensures PlayedOf(fxList) == {}
    {
      for t := 0 to |fxList|
        invariant forall i :: 0 <= i < t ==> !fxList[i].playedInRandomList
      {
        fxList[t].playedInRandomList := false;
      }
    }

    // ----- New ids

    /** The ids of the live items outside this list. */
    ghost function ForeignIds(registry: FxRegistry): set<int>
      reads this, registry, registry.items
    {
      set fx | fx in registry.items && fx !in fxList :: fx.myId
    }

    ghost predicate Registered(registry: FxRegistry)
      reads this, registry
    {
      forall fx :: fx in fxList ==> fx in registry.items
    }

    /** Gives all items new ids, from `from` on if it is positive; true if all items get the requested ones. */
    method RecreateFxIDs(registry: FxRegistry, from: int) returns (ok: bool)
      requires Registered(registry) && Distinct(fxList)
      modifies registry`items, fxList`myId
      ensures registry.items == old(registry.items) && ForeignIds(registry) == old(ForeignIds(registry))
      ensures var ids := NewIds(ForeignIds(registry) + {0}, from, registry.lowestId, |fxList|);
        && (forall i :: 0 <= i < |fxList| ==> fxList[i].myId == ids[i])
        && ok == AsRequested(ids, from)
    {
      ghost var foreign := ForeignIds(registry);
      ClearIds(registry);
      ghost var ids;
      ok, ids := RenewIds(registry, from, foreign);
    }

    method RenewIds(registry: FxRegistry, from: int, ghost foreign: set<int>) returns (ok: bool, ghost ids: seq<int>)
      requires HaveIds(registry, [], foreign)
      modifies registry`items, fxList`myId
      ensures registry.items == old(registry.items) && HaveIds(registry, ids, foreign)
      ensures ids == NewIds(foreign + {0}, from, registry.lowestId, |fxList|) && ok == AsRequested(ids, from)
    {
      hide HaveIds;
      ghost var n, lowest := |fxList|, registry.lowestId;
      ghost var all := NewIds(foreign + {0}, from, lowest, n);
      RenewedFirst(foreign, lowest, from, n);
      hide Renewed, NextId, NewIds, AsRequested, Taken;
      ok, ids := true, [];
      var next := from;
      for t := 0 to |fxList|
        invariant |ids| == t && HaveIds(registry, ids, foreign) && registry.items == old(registry.items)
        invariant Renewed(foreign, lowest, from, all, ids, next, n - t, ok)
      {
        var newid := RenewId(registry, t, next, ids, foreign);
        RenewedNext(foreign, lowest, from, all, ids, next, n - t, ok);
        ids := ids + [newid];
        if next != newid {
          ok := false;
        }
        if next != 0 {
          next := next + 1;
        }
      }
      RenewedEnd(foreign, lowest, from, all, ids, next, ok);
    }

    /** The first items have the ids `done`, the later ones none. */
    ghost predicate HaveIds(registry: FxRegistry, done: seq<int>, foreign: set<int>)
      reads this, registry, registry.items, fxList
    {
      && Registered(registry) && Distinct(fxList) && ForeignIds(registry) == foreign && |done| <= |fxList|
      && (forall i :: 0 <= i < |done| ==> fxList[i].myId == done[i])
      && forall i :: |done| <= i < |fxList| ==> fxList[i].myId == 0
    }

    method ClearIds(ghost registry: FxRegistry)
      modifies fxList`myId
      ensures forall i :: 0 <= i < |fxList| ==> fxList[i].myId == 0
      ensures ForeignIds(registry) == old(ForeignIds(registry))
    {
      ghost var foreign := ForeignIds(registry);
      for t := 0 to |fxList|
        invariant forall i :: 0 <= i < t ==> fxList[i].myId == 0
        invariant ForeignIds(registry) == foreign
      {
        fxList[t].myId := 0;
        assert ForeignIds(registry) == foreign;
      }
    }

    /** Gives the next item its new id. */
    method RenewId(registry: FxRegistry, t: nat, from: int, ghost done: seq<int>, ghost foreign: set<int>) returns (id: int)
      requires HaveIds(registry, done, foreign) && t == |done| < |fxList|
      modifies registry`items, fxList`myId
      ensures registry.items == old(registry.items) && HaveIds(registry, done + [id], foreign)
      ensures id == NextId(Taken(foreign, done), SearchFrom(from, registry.lowestId))
    {
      hide Taken;
      ghost var others := registry.OtherIds(fxList[t]);
      OtherIdsAre(registry, t, done);
      assert fxList[t].myId == 0;
      id := registry.GenerateNewID(fxList[t], from);
      assert ForeignIds(registry) == foreign && registry.OtherIds(fxList[t]) == others;
    }

    /** While the first t items have their new ids and the later ones none, these ids are taken. */
    lemma {:induction false} OtherIdsAre(registry: FxRegistry, t: nat, ids: seq<int>)
      requires Registered(registry) && Distinct(fxList) && t < |fxList| && |ids| == t
      requires forall i :: 0 <= i < t ==> fxList[i].myId == ids[i]
      requires forall i :: t <= i < |fxList| ==> fxList[i].myId == 0
      ensures registry.OtherIds(fxList[t]) + {0} == Taken(ForeignIds(registry), ids)
    {
    }
  }

  /** The ids that are in use when the first items have got theirs. */
  function Taken(foreign: set<int>, done: seq<int>): set<int> {
    foreign + {0} + set id | id in done
  }

  /** The first items have got the ids `done` of `all`; ok says whether they are the requested ones. */
  ghost predicate Renewed(foreign: set<int>, lowest: int, from: int, all: seq<int>, done: seq<int>, next: int, left: nat, ok: bool) {
    var rest := NewIds(Taken(foreign, done), next, lowest, left);
    all == done + rest && (AsRequested(all, from) <==> ok && AsRequested(rest, next))
  }

  lemma {:induction false} RenewedFirst(foreign: set<int>, lowest: int, from: int, n: nat)
    ensures Renewed(foreign, lowest, from, NewIds(foreign + {0}, from, lowest, n), [], from, n, true)
  {
    assert Taken(foreign, []) == foreign + {0};
  }

  lemma {:induction false} RenewedNext(foreign: set<int>, lowest: int, from: int, all: seq<int>, done: seq<int>, next: int, left: nat, ok: bool)
    requires left > 0 && Renewed(foreign, lowest, from, all, done, next, left, ok)
    ensures var id := NextId(Taken(foreign, done), SearchFrom(next, lowest));
            Renewed(foreign, lowest, from, all, done + [id], NextFrom(next), left - 1, ok && next == id)
  {
    var id := NextId(Taken(foreign, done), SearchFrom(next, lowest));
    assert Taken(foreign, done + [id]) == Taken(foreign, done) + {id};
    var rest := NewIds(Taken(foreign, done + [id]), NextFrom(next), lowest, left - 1);
    assert NewIds(Taken(foreign, done), next, lowest, left) == [id] + rest;
    assert ([id] + rest)[1..] == rest;
    assert done + ([id] + rest) == (done + [id]) + rest;
  }

  lemma {:induction false} RenewedEnd(foreign: set<int>, lowest: int, from: int, all: seq<int>, done: seq<int>, next: int, ok: bool)
    requires Renewed(foreign, lowest, from, all, done, next, 0, ok)
    ensures all == done && ok == AsRequested(all, from)
  {
  }
}
