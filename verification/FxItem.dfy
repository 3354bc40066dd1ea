/** Effect items: what sequences and the id generator need to know about them. */
module FxItems {
  import opened Common

  datatype FxKind = Scene | Audio | OtherKind

  // Where an item is in a sequence; Hold is the playing time of an audio item.
  datatype SeqStatus = Off | PreDelay | FadeIn | Hold | FadeOut | PostDelay

  class FxItem {
    const kind: FxKind
    const preDelay: int
    const fadeInTime: int
    const holdTime: int
    const fadeOutTime: int
    const postDelay: int
    var seqStatus: SeqStatus
    var playedInRandomList: bool
    var myId: int

    constructor (kind: FxKind, preDelay: int, fadeInTime: int, holdTime: int, fadeOutTime: int, postDelay: int)
      ensures this.kind == kind && this.preDelay == preDelay && this.fadeInTime == fadeInTime
      ensures this.holdTime == holdTime && this.fadeOutTime == fadeOutTime && this.postDelay == postDelay
      ensures seqStatus == Off && !playedInRandomList && myId == 0
    {
      this.kind, this.preDelay, this.fadeInTime, this.holdTime := kind, preDelay, fadeInTime, holdTime;
      this.fadeOutTime, this.postDelay := fadeOutTime, postDelay;
      seqStatus, playedInRandomList, myId := Off, false, 0;
    }

    /** The time the item is expected to take, used to show progress. */
    function CalcExecutionTime(): int {
      if preDelay < 0 then 0 else preDelay + fadeInTime + holdTime + fadeOutTime + postDelay
    }

    method ResetFx()
      modifies this`seqStatus
      ensures seqStatus == Off
    {
      seqStatus := Off;
    }

    method InitForSequence()
      modifies this`seqStatus
      ensures seqStatus == if kind == Audio then Off else old(seqStatus)
    {
      if kind == Audio {
        seqStatus := Off;
      }
    }
  }

  // ----- Ids

  function From(used: set<int>, from: int): set<int> {
    set x | x in used && from <= x
  }

  /** The least unused id from a given one on. */
  function NextId(used: set<int>, from: int): (id: int)
    ensures from <= id && id !in used && forall k :: from <= k < id ==> k in used
    decreases From(used, from)
  {
    if from !in used then from
    else
      assert from in From(used, from) && from !in From(used, from + 1);
      NextId(used, from + 1)
  }

  lemma {:induction false} NextIdIsTheOnlyOne(used: set<int>, from: int, id: int)
    requires from <= id && id !in used && forall k :: from <= k < id ==> k in used
    ensures id == NextId(used, from)
  {
  }

  /** The ids that n items get one after the other when the ids in `used` belong to others. */
  function NewIds(used: set<int>, from: int, lowest: int, n: nat): (ids: seq<int>)
    ensures |ids| == n
    decreases n
  {
    if n == 0 then []
    else
      var id := NextId(used, SearchFrom(from, lowest));
      [id] + NewIds(used + {id}, NextFrom(from), lowest, n - 1)
  }

  function NextFrom(from: int): int {
    if from != 0 then from + 1 else 0
  }

  /** Every item has got the id it was to get. */
  predicate AsRequested(ids: seq<int>, from: int) {
    ids == [] || (ids[0] == from && AsRequested(ids[1..], NextFrom(from)))
  }

  predicate Increasing(ids: seq<int>) {
    forall i, j :: 0 <= i < j < |ids| ==> ids[i] < ids[j]
  }

  /** Where the search for the next id starts. */
  function SearchFrom(from: int, lowest: int): int {
    if from > 0 then from else lowest
  }

  /** The new ids are unused and strictly increase. */
  lemma {:induction false} NewIdsAreFresh(used: set<int>, from: int, lowest: int, n: nat)
    ensures forall id :: id in NewIds(used, from, lowest, n) ==> id !in used && (if from > 0 then from else lowest) <= id
    ensures Increasing(NewIds(used, from, lowest, n))
    decreases n
  {
    if n > 0 {
      var start := SearchFrom(from, lowest);
      var id := NextId(used, start);
      var next := NextFrom(from);
      var rest := NewIds(used + {id}, next, lowest, n - 1);
      NewIdsAreFresh(used + {id}, next, lowest, n - 1);
      forall r | r in rest ensures id < r {
        assert r !in used + {id};
        assert start <= r < id ==> r in used;
      }
      var ids := NewIds(used, from, lowest, n);
      assert ids == [id] + rest;
      forall i, j | 0 <= i < j < n ensures ids[i] < ids[j] {
        assert ids[j] == rest[j - 1] && rest[j - 1] in rest;
        assert i > 0 ==> ids[i] == rest[i - 1];
      }
    }
  }

  /** No unused id is left out: those below a new one, from the start of the search on, are used or new. */
  lemma {:induction false} NewIdsLeaveNoGap(used: set<int>, from: int, lowest: int, n: nat, id: int, k: int)
    requires id in NewIds(used, from, lowest, n) && (if from > 0 then from else lowest) <= k < id
    ensures k in used || k in NewIds(used, from, lowest, n)
    decreases n
  {
    var first := NextId(used, SearchFrom(from, lowest));
    var rest := NewIds(used + {first}, NextFrom(from), lowest, n - 1);
    assert NewIds(used, from, lowest, n) == [first] + rest;
    if id != first && first < k {
      NewIdsLeaveNoGap(used + {first}, NextFrom(from), lowest, n - 1, id, k);
    }
  }

  predicate Consecutive(ids: seq<int>, from: int) {
    forall i :: 0 <= i < |ids| ==> ids[i] == from + i
  }

  /** Asked for from, from + 1, … the items get exactly these ids if and only if nobody else has one of them. */
  lemma {:induction false} NewIdsAreConsecutiveIff(used: set<int>, from: int, lowest: int, n: nat)
    requires from > 0
    ensures Consecutive(NewIds(used, from, lowest, n), from) <==> forall k :: from <= k < from + n ==> k !in used
    decreases n
  {
    if n > 0 {
      var id := NextId(used, from);
      var ids, rest := NewIds(used, from, lowest, n), NewIds(used + {id}, from + 1, lowest, n - 1);
      assert ids == [id] + rest;
      NewIdsAreFresh(used, from, lowest, n);
      if Consecutive(ids, from) {
        forall k | from <= k < from + n ensures k !in used {
          assert ids[k - from] in ids;
        }
      }
      if forall k :: from <= k < from + n ==> k !in used {
        NewIdsAreConsecutiveIff(used + {id}, from + 1, lowest, n - 1);
        assert id == from;
      }
    }
  }

  lemma {:induction false} ConsecutiveFromFront(ids: seq<int>, from: int)
    requires from > 0
    ensures AsRequested(ids, from) <==> Consecutive(ids, from)
    decreases |ids|
  {
    if ids != [] {
      ConsecutiveFromFront(ids[1..], from + 1);
      if Consecutive(ids, from) {
        assert forall i :: 0 <= i < |ids| - 1 ==> ids[1..][i] == ids[i + 1];
      }
      if ids[0] == from && Consecutive(ids[1..], from + 1) {
        assert forall i :: 0 < i < |ids| ==> ids[i] == ids[1..][i - 1];
      }
    }
  }

  /**
   The items get the requested ids if and only if nobody else has one of them. Without a
   request (`from` is 0) this is never reported, although there is nothing to conflict with.
   */
  lemma {:induction false} AsRequestedIff(used: set<int>, from: int, lowest: int, n: nat)
    requires 0 in used && lowest > 0
    ensures AsRequested(NewIds(used, from, lowest, n), from) <==>
            n == 0 || (from > 0 && forall k :: from <= k < from + n ==> k !in used)
  {
    if from > 0 {
      NewIdsAreConsecutiveIff(used, from, lowest, n);
      ConsecutiveFromFront(NewIds(used, from, lowest, n), from);
    }
  }

  /** All items that exist, with the id from which the generator searches by default. */
  class FxRegistry {
    var items: seq<FxItem>
    var lowestId: int

    constructor ()
      ensures items == [] && lowestId == 1
    {
      items, lowestId := [], 1;
    }

    ghost function Ids(): set<int>
      reads this, items
    {
      set fx | fx in items :: fx.myId
    }

    /** Searches an unused id. The item itself drops its own first. */
    method InitGenerateId(item: FxItem, from: int, store: bool) returns (id: int)
      modifies this`items, item`myId
      ensures item.myId == 0
      ensures items == old(items) + if store && item !in old(items) then [item] else []
      ensures id == NextId(Ids(), SearchFrom(from, lowestId))
    {
      item.myId := 0;
      if store && item !in items {
        items := items + [item];
      }
      var ids: set<int> := {};
      var top := 0;
      for t := 0 to |items|
        invariant ids == set fx | fx in items[..t] :: fx.myId
        invariant forall k :: k in ids ==> k < top
      {
        assert items[..t + 1] == items[..t] + [items[t]];
        var id' := items[t].myId;
        if id' >= top {
          top := id' + 1;
        }
        ids := ids + {id'};
      }
      assert items[..|items|] == items && ids == Ids();
      id := SearchFrom(from, lowestId);
      ghost var start := id;
      while id in ids
        invariant start <= id && forall k :: start <= k < id ==> k in ids
        decreases top - id
      {
        id := id + 1;
      }
      NextIdIsTheOnlyOne(ids, start, id);
    }

    /** Gives an item a new id, by default searched from its present one. */
    method GenerateNewID(item: FxItem, from: int) returns (id: int)
      requires item in items
      modifies this`items, item`myId
      ensures items == old(items) && item.myId == id
      ensures var start := if from == 0 then old(item.myId) else from;
              id == NextId(OtherIds(item) + {0}, SearchFrom(start, lowestId))
    {
      var start := if from == 0 then item.myId else from;
      id := InitGenerateId(item, start, false);
      ghost var others := OtherIds(item);
      assert Ids() == others + {0};
      item.myId := id;
      assert OtherIds(item) == others;
    }

    ghost function OtherIds(item: FxItem): set<int>
      reads this, items
    {
      set fx | fx in items && fx != item :: fx.myId
    }
  }
}
