/**
 The light loop: every pass moves the fades of all active scenes on and merges
 their tubes into the DMX universes, the highest value taking precedence.
 */
module LightLoops {
  import opened Common
  import opened DmxFade
  import opened DmxRoundTrip
  import opened DmxChannels
  import opened SceneFade
  import SceneRun
  import opened SceneItems

  const MAX_DMX_UNIVERSE: nat := 4
  const CHANNELS: nat := 512

  // ----- The mathematical merge

  // What a tube contributes: an address and a byte.
  datatype Contribution = Contribution(universe: int, channel: int, value: int)

  predicate Addresses(c: Contribution, universe: int, channel: int) {
    c.universe == universe && c.channel == channel
  }

  /** The highest value at an address, 0 if there is none. */
  function Htp(cs: seq<Contribution>, universe: int, channel: int): int {
    if cs == [] then 0
    else
      var rest := Htp(cs[..|cs| - 1], universe, channel);
      if Addresses(cs[|cs| - 1], universe, channel) then Max(rest, cs[|cs| - 1].value) else rest
  }

  lemma {:induction false} HtpIsMax(cs: seq<Contribution>, universe: int, channel: int)
    ensures var v := Htp(cs, universe, channel);
            && 0 <= v
            && (forall c :: c in cs && Addresses(c, universe, channel) ==> c.value <= v)
            && (v == 0 || exists c :: c in cs && Addresses(c, universe, channel) && c.value == v)
    decreases |cs|
  {
    if cs != [] {
      var head, last := cs[..|cs| - 1], cs[|cs| - 1];
      HtpIsMax(head, universe, channel);
      assert forall c :: c in cs <==> c in head || c == last;
    }
  }

  lemma {:induction false} HtpNext(cs: seq<Contribution>, t: nat, universe: int, channel: int)
    requires t < |cs|
    ensures var before := Htp(cs[..t], universe, channel);
            Htp(cs[..t + 1], universe, channel) == if Addresses(cs[t], universe, channel) then Max(before, cs[t].value) else before
  {
    assert cs[..t + 1][..t] == cs[..t];
  }

  lemma {:induction false} HtpsNext(cs: seq<Contribution>, t: nat)
    requires t < |cs|
    ensures forall u, c :: Htp(cs[..t + 1], u, c) ==
              if Addresses(cs[t], u, c) then Max(Htp(cs[..t], u, c), cs[t].value) else Htp(cs[..t], u, c)
  {
    forall u, c {
      HtpNext(cs, t, u, c);
    }
  }

  /** Only which contributions there are matters, not their order or number. */
  lemma {:induction false} HtpIgnoresOrder(cs: seq<Contribution>, ds: seq<Contribution>, universe: int, channel: int)
    requires forall c :: c in cs <==> c in ds
    ensures Htp(cs, universe, channel) == Htp(ds, universe, channel)
  {
    HtpIsMax(cs, universe, channel);
    HtpIsMax(ds, universe, channel);
  }

  /** Merging scene after scene gives the maximum of the scenes. */
  lemma {:induction false} HtpOfConcat(cs: seq<Contribution>, ds: seq<Contribution>, universe: int, channel: int)
    ensures Htp(cs + ds, universe, channel) == Max(Htp(cs, universe, channel), Htp(ds, universe, channel))
    decreases |ds|
  {
    if ds == [] {
      assert cs + ds == cs;
      HtpIsMax(cs, universe, channel);
    } else {
      assert (cs + ds)[..|cs + ds| - 1] == cs + ds[..|ds| - 1];
      HtpOfConcat(cs, ds[..|ds| - 1], universe, channel);
    }
  }

  function Flatten(parts: seq<seq<Contribution>>): seq<Contribution> {
    if parts == [] then [] else Flatten(parts[..|parts| - 1]) + parts[|parts| - 1]
  }

  lemma {:induction false} FlattenMembers(parts: seq<seq<Contribution>>)
    ensures forall c :: c in Flatten(parts) <==> exists i :: 0 <= i < |parts| && c in parts[i]
    decreases |parts|
  {
    if parts != [] {
      var init := parts[..|parts| - 1];
      FlattenMembers(init);
      forall c ensures c in Flatten(parts) <==> exists i :: 0 <= i < |parts| && c in parts[i] {
        if c in Flatten(init) {
          var i :| 0 <= i < |init| && c in init[i];
          assert c in parts[i];
        }
        if i :| 0 <= i < |parts| && c in parts[i] {
          assert i < |init| ==> c in init[i];
        }
      }
    }
  }

  /** The merge does not depend on the order in which the scenes are visited. */
  lemma {:induction false} MergeIgnoresSceneOrder(parts: seq<seq<Contribution>>, others: seq<seq<Contribution>>,
                                                  universe: int, channel: int)
    requires forall p :: p in parts <==> p in others
    ensures Htp(Flatten(parts), universe, channel) == Htp(Flatten(others), universe, channel)
  {
    FlattenMembers(parts);
    FlattenMembers(others);
    forall c ensures c in Flatten(parts) <==> c in Flatten(others) {
      if c in Flatten(parts) {
        var i :| 0 <= i < |parts| && c in parts[i];
        assert parts[i] in others;
      }
      if c in Flatten(others) {
        var i :| 0 <= i < |others| && c in others[i];
        assert others[i] in parts;
      }
    }
    HtpIgnoresOrder(Flatten(parts), Flatten(others), universe, channel);
  }

  lemma {:induction false} MergeNext(parts: seq<seq<Contribution>>, part: seq<Contribution>)
    ensures forall u, c :: Htp(Flatten(parts + [part]), u, c) == Max(Htp(Flatten(parts), u, c), Htp(part, u, c))
  {
    assert (parts + [part])[..|parts|] == parts;
    forall u, c ensures Htp(Flatten(parts + [part]), u, c) == Max(Htp(Flatten(parts), u, c), Htp(part, u, c)) {
      HtpOfConcat(Flatten(parts), part, u, c);
    }
  }

  lemma {:induction false} NothingMerged()
    ensures forall u, c :: Htp(Flatten([]), u, c) == 0
  {
  }

  lemma {:induction false} HtpsAreNonNegative(cs: seq<Contribution>)
    ensures forall u, c :: 0 <= Htp(cs, u, c)
  {
    forall u, c ensures 0 <= Htp(cs, u, c) {
      HtpIsMax(cs, u, c);
    }
  }

  // ----- Scenes that are over

  /** The scenes, in the order of the pass, that are not visible any more. */
  function InactiveOf<T>(scenes: seq<T>, visible: seq<bool>): seq<T>
    requires |scenes| == |visible|
  {
    if scenes == [] then []
    else
      var n := |scenes| - 1;
      InactiveOf(scenes[..n], visible[..n]) + if visible[n] then [] else [scenes[n]]
  }

  lemma {:induction false} InactiveNext<T>(scenes: seq<T>, visible: seq<bool>, k: nat)
    requires |scenes| == |visible| && k < |scenes|
    ensures InactiveOf(scenes[..k + 1], visible[..k + 1]) ==
      InactiveOf(scenes[..k], visible[..k]) + if visible[k] then [] else [scenes[k]]
  {
    assert scenes[..k + 1][..k] == scenes[..k] && visible[..k + 1][..k] == visible[..k];
  }

  // ----- The list of active scenes

  predicate Distinct<T(==)>(s: seq<T>) {
    forall i, j :: 0 <= i < j < |s| ==> s[i] != s[j]
  }

  function Elements<T(==)>(s: seq<T>): set<T> {
    set x | x in s
  }

  /** The list with the items of more that it lacks. */
  function Added<T(==)>(s: seq<T>, more: seq<T>): seq<T> {
    if more == [] then s
    else
      var r, last := Added(s, more[..|more| - 1]), more[|more| - 1];
      if last in r then r else r + [last]
  }

  lemma {:induction false} AddedIs<T>(s: seq<T>, more: seq<T>)
    ensures forall x :: x in Added(s, more) <==> x in s || x in more
    ensures Distinct(s) ==> Distinct(Added(s, more))
    decreases |more|
  {
    if more != [] {
      var init, last := more[..|more| - 1], more[|more| - 1];
      AddedIs(s, init);
      assert more == init + [last];
    }
  }

  lemma {:induction false} AddedMember<T>(s: seq<T>, more: seq<T>, x: T)
    ensures x in Added(s, more) <==> x in s || x in more
  {
    AddedIs(s, more);
  }

  lemma {:induction false} AddedNext<T>(s: seq<T>, more: seq<T>, k: nat)
    requires k < |more|
    ensures Added(s, more[..k + 1]) == var r := Added(s, more[..k]); if more[k] in r then r else r + [more[k]]
  {
    assert more[..k + 1][..k] == more[..k];
  }

  function Without<T(==)>(s: seq<T>, gone: set<T>): seq<T> {
    if s == [] then []
    else
      var r, last := Without(s[..|s| - 1], gone), s[|s| - 1];
      if last in gone then r else r + [last]
  }

  lemma {:induction false} WithoutIs<T>(s: seq<T>, gone: set<T>)
    ensures forall x :: x in Without(s, gone) <==> x in s && x !in gone
    ensures Distinct(s) ==> Distinct(Without(s, gone))
    decreases |s|
  {
    if s != [] {
      var init, last := s[..|s| - 1], s[|s| - 1];
      WithoutIs(init, gone);
      assert s == init + [last];
    }
  }

  lemma {:induction false} WithoutBoth<T>(s: seq<T>, gone: set<T>, more: set<T>)
    ensures Without(Without(s, gone), more) == Without(s, gone + more)
    decreases |s|
  {
    if s != [] {
      WithoutBoth(s[..|s| - 1], gone, more);
    }
  }

  lemma {:induction false} WithoutOthers<T>(s: seq<T>, gone: set<T>)
    requires forall x :: x in s ==> x !in gone
    ensures Without(s, gone) == s
    decreases |s|
  {
    if s != [] {
      WithoutOthers(s[..|s| - 1], gone);
    }
  }

  lemma {:induction false} InactiveMembers<T>(scenes: seq<T>, visible: seq<bool>)
    requires |scenes| == |visible|
    ensures forall x :: x in InactiveOf(scenes, visible) <==> exists i :: 0 <= i < |scenes| && scenes[i] == x && !visible[i]
    decreases |scenes|
  {
    if scenes != [] {
      var n := |scenes| - 1;
      InactiveMembers(scenes[..n], visible[..n]);
      forall x ensures x in InactiveOf(scenes, visible) <==> exists i :: 0 <= i < |scenes| && scenes[i] == x && !visible[i] {
        if i :| 0 <= i < |scenes| && scenes[i] == x && !visible[i] {
          assert i < n ==> scenes[..n][i] == x && !visible[..n][i];
        }
        if x in InactiveOf(scenes[..n], visible[..n]) {
          var i :| 0 <= i < n && scenes[..n][i] == x && !visible[..n][i];
          assert scenes[i] == x && !visible[i];
        }
      }
    }
  }

  /** Once the invisible scenes are taken out, exactly the visible ones are left. */
  lemma {:induction false} VisibleStay<T>(scenes: seq<T>, visible: seq<bool>, left: seq<T>)
    requires |scenes| == |visible| && Distinct(scenes)
    requires left == Without(scenes, Elements(InactiveOf(scenes, visible)))
    ensures forall i :: 0 <= i < |scenes| ==> (scenes[i] in left <==> visible[i])
  {
    InactiveMembers(scenes, visible);
    WithoutIs(scenes, Elements(InactiveOf(scenes, visible)));
  }

  // ----- The loop

  class LightLoop {
    // Scaler of a channel in the universe layout, None if it is not laid out.
    const globalScaler: (int, int) -> Option<(int, int)>
    const dmxtout: array2<int>
    const dmxOutputValues: array2<int>
    const dmxOutputChanged: array<bool>
    var activeScenes: seq<FxSceneItem>
    // The hidden scanner scenes and the static scenes, which every pass visits.
    var permanentScenes: seq<FxSceneItem>

    constructor (globalScaler: (int, int) -> Option<(int, int)>, permanentScenes: seq<FxSceneItem>)
      ensures Valid() && this.globalScaler == globalScaler
      ensures activeScenes == [] && this.permanentScenes == permanentScenes
    {
      this.globalScaler := globalScaler;
      activeScenes, this.permanentScenes := [], permanentScenes;
      dmxtout := new int[MAX_DMX_UNIVERSE, CHANNELS]((_, _) => 0);
      dmxOutputValues := new int[MAX_DMX_UNIVERSE, CHANNELS]((_, _) => 0);
      dmxOutputChanged := new bool[MAX_DMX_UNIVERSE](_ => false);
    }

    predicate Valid() {
      && dmxtout != dmxOutputValues
      && dmxtout.Length0 == dmxOutputValues.Length0 == dmxOutputChanged.Length == MAX_DMX_UNIVERSE
      && dmxtout.Length1 == dmxOutputValues.Length1 == CHANNELS
    }

    /** The tube's own scaler if it is not 1/1, else the one of the universe layout. */
    function ScalerOf(tube: DmxChannel): (int, int)
      reads tube`dmxUniverse, tube`dmxChannel, tube`scalerNumerator, tube`scalerDenominator
    {
      var global := globalScaler(tube.dmxUniverse, tube.dmxChannel);
      if tube.scalerNumerator > 1 || tube.scalerDenominator > 1 || global.None?
      then (tube.scalerNumerator, tube.scalerDenominator) else global.value
    }

    /** The tube addresses an existing channel and can be scaled. */
    predicate Placed(tube: DmxChannel)
      reads tube`dmxUniverse, tube`dmxChannel, tube`scalerNumerator, tube`scalerDenominator, tube`targetFullValue
    {
      && 0 <= tube.dmxUniverse < MAX_DMX_UNIVERSE && 0 <= tube.dmxChannel < CHANNELS
      && tube.targetFullValue * ScalerOf(tube).1 != 0
    }

    ghost predicate AllPlaced(ts: seq<DmxChannel>)
      reads ts`dmxUniverse, ts`dmxChannel, ts`scalerNumerator, ts`scalerDenominator, ts`targetFullValue
    {
      forall i :: 0 <= i < |ts| ==> Placed(ts[i])
    }

    predicate Usable(tube: DmxChannel)
      reads tube`dmxUniverse, tube`dmxChannel, tube`scalerNumerator, tube`scalerDenominator, tube`targetFullValue
      reads tube`curValue, tube`curValueChanged, tube`curCmd
      reads tube`fadeStartValue, tube`fadeTargetValue, tube`fadeValue, tube`fadeStep
    {
      tube.Valid() && Placed(tube)
    }

    function ByteOf(tube: DmxChannel): int
      requires Usable(tube)
      reads tube`dmxUniverse, tube`dmxChannel, tube`scalerNumerator, tube`scalerDenominator, tube`targetFullValue
      reads tube`curValue, tube`curValueChanged, tube`curCmd
      reads tube`fadeStartValue, tube`fadeTargetValue, tube`fadeValue, tube`fadeStep
    {
      ByteFor(Output(tube.curValue[MIX_INTERN], tube.curValue[MIX_EXTERN]), ScalerOf(tube).0, ScalerOf(tube).1,
              tube.targetFullValue)
    }

    function ContributionOf(tube: DmxChannel): Contribution
      requires Usable(tube)
      reads tube`dmxUniverse, tube`dmxChannel, tube`scalerNumerator, tube`scalerDenominator, tube`targetFullValue
      reads tube`curValue, tube`curValueChanged, tube`curCmd
      reads tube`fadeStartValue, tube`fadeTargetValue, tube`fadeValue, tube`fadeStep
    {
      Contribution(tube.dmxUniverse, tube.dmxChannel, ByteOf(tube))
    }

    /** The level that counts is 0 or that of a mix line, and no line is higher; the tube's own scaler comes first. */
    lemma {:induction false} ByteReadsBothLines(tube: DmxChannel, level: int)
      requires Usable(tube)
      requires 0 <= level && tube.curValue[MIX_INTERN] <= level && tube.curValue[MIX_EXTERN] <= level
      requires level == 0 || level == tube.curValue[MIX_INTERN] || level == tube.curValue[MIX_EXTERN]
      ensures var own, layout := (tube.scalerNumerator, tube.scalerDenominator), globalScaler(tube.dmxUniverse, tube.dmxChannel);
        && (own.0 > 1 || own.1 > 1 || layout.None? ==>
              tube.targetFullValue * own.1 != 0 && ByteOf(tube) == ByteFor(level, own.0, own.1, tube.targetFullValue))
        && (own.0 <= 1 && own.1 <= 1 && layout.Some? ==>
              && tube.targetFullValue * layout.value.1 != 0
              && ByteOf(tube) == ByteFor(level, layout.value.0, layout.value.1, tube.targetFullValue))
    {
      hide ByteFor;
      OutputIs(tube.curValue[MIX_INTERN], tube.curValue[MIX_EXTERN]);
      assert level == Output(tube.curValue[MIX_INTERN], tube.curValue[MIX_EXTERN]);
    }

    ghost predicate Ready(scene: FxSceneItem)
      reads scene, scene.tubes
    {
      scene.Valid() && AllPlaced(scene.tubes)
    }

    ghost function Contributions(scene: FxSceneItem): (cs: seq<Contribution>)
      requires Ready(scene)
      reads scene, scene.tubes
      ensures |cs| == |scene.tubes| && forall i :: 0 <= i < |cs| ==> cs[i] == ContributionOf(scene.tubes[i])
    {
      seq(|scene.tubes|, i requires 0 <= i < |scene.tubes| && Ready(scene) reads scene, scene.tubes =>
        ContributionOf(scene.tubes[i]))
    }

    method ClearOutput()
      requires Valid()
      modifies dmxtout
      ensures forall u, c :: 0 <= u < MAX_DMX_UNIVERSE && 0 <= c < CHANNELS ==> dmxtout[u, c] == 0
    {
      forall u, c | 0 <= u < MAX_DMX_UNIVERSE && 0 <= c < CHANNELS {
        dmxtout[u, c] := 0;
      }
    }

    /** Enters one tube: its byte is stored and merged into the output by maximum. */
    method MergeTube(tube: DmxChannel)
      requires Valid() && Usable(tube)
      modifies tube`dmxValue, dmxtout
      ensures Usable(tube) && ContributionOf(tube) == old(ContributionOf(tube)) && tube.dmxValue == ByteOf(tube)
      ensures forall u, c :: 0 <= u < MAX_DMX_UNIVERSE && 0 <= c < CHANNELS ==>
        dmxtout[u, c] == if Addresses(ContributionOf(tube), u, c) then Max(old(dmxtout[u, c]), ByteOf(tube))
                         else old(dmxtout[u, c])
    {
      var value := 0;
      for i := 0 to MIX_LINES
        invariant value == if i == 0 then 0 else if i == 1 then Max(0, tube.curValue[0])
                           else Output(tube.curValue[0], tube.curValue[1])
      {
        if tube.curValue[i] > value {
          value := tube.curValue[i];
        }
      }
      var num, den := tube.scalerNumerator, tube.scalerDenominator;
      var global := globalScaler(tube.dmxUniverse, tube.dmxChannel);
      if !(num > 1 || den > 1 || global.None?) {
        num, den := global.value.0, global.value.1;
      }
      var dmxval := CDiv(value * 255 * num, tube.targetFullValue * den);
      tube.dmxValue := Clamp(dmxval, 0, 255);
      if tube.dmxValue > dmxtout[tube.dmxUniverse, tube.dmxChannel] {
        dmxtout[tube.dmxUniverse, tube.dmxChannel] := tube.dmxValue;
      }
    }

    /** Moves the fades of a scene on and merges its tubes; false when the scene is no longer visible. */
    method ProcessFxSceneItem(scene: FxSceneItem) returns (visible: bool)
      requires Valid() && Ready(scene)
      requires forall u, c :: 0 <= u < MAX_DMX_UNIVERSE && 0 <= c < CHANNELS ==> 0 <= dmxtout[u, c]
      modifies scene`myStatus, dmxtout
      modifies scene.tubes`curCmd, scene.tubes`fadeValue, scene.tubes`curValue, scene.tubes`curValueChanged, scene.tubes`dmxValue
      ensures Ready(scene) && scene.Now() == TickScene(old(scene.Now())).0
      ensures visible == scene.IsVisible()
      ensures forall i :: 0 <= i < |scene.tubes| ==> scene.tubes[i].dmxValue == ByteOf(scene.tubes[i])
      ensures forall u, c :: 0 <= u < MAX_DMX_UNIVERSE && 0 <= c < CHANNELS ==>
        dmxtout[u, c] == Max(old(dmxtout[u, c]), Htp(Contributions(scene), u, c))
    {
      hide Ready, FxSceneItem.Valid, FxSceneItem.TubesOf, TickScene, Htp, ByteOf, ContributionOf;
      MoveOn(scene);
      MergeTubes(scene);
      visible := scene.IsVisible();
    }

    method MoveOn(scene: FxSceneItem)
      requires Ready(scene)
      modifies scene`myStatus
      modifies scene.tubes`curCmd, scene.tubes`fadeValue, scene.tubes`curValue, scene.tubes`curValueChanged
      ensures Ready(scene) && scene.Now() == TickScene(old(scene.Now())).0
    {
      hide AllPlaced, FxSceneItem.Valid, FxSceneItem.Now, TickScene;
      var active := scene.LoopFunction();
    }

    method MergeTubes(scene: FxSceneItem)
      requires Valid() && Ready(scene)
      requires forall u, c :: 0 <= u < MAX_DMX_UNIVERSE && 0 <= c < CHANNELS ==> 0 <= dmxtout[u, c]
      modifies dmxtout, scene.tubes`dmxValue
      ensures Ready(scene) && scene.Now() == old(scene.Now())
      ensures forall i :: 0 <= i < |scene.tubes| ==> scene.tubes[i].dmxValue == ByteOf(scene.tubes[i])
      ensures forall u, c :: 0 <= u < MAX_DMX_UNIVERSE && 0 <= c < CHANNELS ==>
        dmxtout[u, c] == Max(old(dmxtout[u, c]), Htp(Contributions(scene), u, c))
    {
      assert scene.Valid();
      hide Ready, FxSceneItem.Valid, FxSceneItem.TubesOf, MergedUpTo, ByteOf, ContributionOf;
      ghost var cs, before := Contributions(scene), scene.Now();
      NoneMerged(scene, cs, before);
      hide Htp;
      for t := 0 to |scene.tubes|
        invariant MergedUpTo(scene, cs, before, t)
        invariant forall u, c :: 0 <= u < MAX_DMX_UNIVERSE && 0 <= c < CHANNELS ==>
          dmxtout[u, c] == Max(old(dmxtout[u, c]), Htp(cs[..t], u, c))
      {
        MergeTubeAt(scene, t, cs, before);
        HtpsNext(cs, t);
      }
      assert cs[..|cs|] == cs;
      AllMerged(scene, cs, before);
    }

    /** The first t tubes have their bytes; nothing else of the scene has changed. */
    ghost predicate MergedUpTo(scene: FxSceneItem, cs: seq<Contribution>, before: Scene, t: nat)
      reads scene, scene.tubes
    {
      && Ready(scene) && Contributions(scene) == cs && scene.Now() == before && t <= |scene.tubes|
      && forall i :: 0 <= i < t ==> scene.tubes[i].dmxValue == ByteOf(scene.tubes[i])
    }

    lemma {:induction false} NoneMerged(scene: FxSceneItem, cs: seq<Contribution>, before: Scene)
      requires Ready(scene) && Contributions(scene) == cs && scene.Now() == before
      ensures MergedUpTo(scene, cs, before, 0) && forall u, c :: Htp(cs[..0], u, c) == 0
    {
    }

    lemma {:induction false} AllMerged(scene: FxSceneItem, cs: seq<Contribution>, before: Scene)
      requires MergedUpTo(scene, cs, before, |scene.tubes|)
      ensures Ready(scene) && Contributions(scene) == cs && scene.Now() == before
      ensures forall i :: 0 <= i < |scene.tubes| ==> scene.tubes[i].dmxValue == ByteOf(scene.tubes[i])
    {
    }

    method MergeTubeAt(scene: FxSceneItem, t: nat, ghost cs: seq<Contribution>, ghost before: Scene)
      requires Valid() && MergedUpTo(scene, cs, before, t) && t < |scene.tubes|
      modifies dmxtout, scene.tubes`dmxValue
      ensures MergedUpTo(scene, cs, before, t + 1)
      ensures t < |cs| && forall u, c :: 0 <= u < MAX_DMX_UNIVERSE && 0 <= c < CHANNELS ==>
        dmxtout[u, c] == if Addresses(cs[t], u, c) then Max(old(dmxtout[u, c]), cs[t].value) else old(dmxtout[u, c])
    {
      hide ByteOf, FxSceneItem.TubeOf;
      MergeTube(scene.tubes[t]);
      assert scene.Tubes() == before.tubes;
      hide ContributionOf;
      assert Contributions(scene) == cs;
    }

    // ----- All scenes

    /** The active scenes are ready, different objects, and share no tube; pool holds all their tubes. */
    ghost predicate AllReady(scenes: seq<FxSceneItem>, pool: set<DmxChannel>)
      reads scenes, pool
    {
      && (forall i :: 0 <= i < |scenes| ==> OwnsTubes(scenes[i], pool) && Ready(scenes[i]))
      && forall i, j :: 0 <= i < j < |scenes| ==> scenes[i] != scenes[j] && Disjoint(scenes[i].tubes, scenes[j].tubes)
    }

    ghost predicate OwnsTubes(scene: FxSceneItem, pool: set<DmxChannel>)
      reads scene`tubes
    {
      forall t :: t in scene.tubes ==> t in pool
    }

    ghost predicate Disjoint(a: seq<DmxChannel>, b: seq<DmxChannel>) {
      forall t :: t in a ==> t !in b
    }

    // The scenes, their contributions and their visibility at one moment.
    ghost function Snapshots(scenes: seq<FxSceneItem>, pool: set<DmxChannel>): (r: seq<Scene>)
      requires AllReady(scenes, pool)
      reads scenes, pool
      ensures |r| == |scenes| && forall i :: 0 <= i < |r| ==> WellFormed(r[i])
    {
      seq(|scenes|, i requires 0 <= i < |scenes| && AllReady(scenes, pool) reads scenes, pool => scenes[i].Now())
    }

    ghost function AllContributions(scenes: seq<FxSceneItem>, pool: set<DmxChannel>): (r: seq<seq<Contribution>>)
      requires AllReady(scenes, pool)
      reads scenes, pool
      ensures |r| == |scenes|
    {
      seq(|scenes|, i requires 0 <= i < |scenes| && AllReady(scenes, pool) reads scenes, pool => Contributions(scenes[i]))
    }

    ghost function Visibles(scenes: seq<FxSceneItem>): (r: seq<bool>)
      reads scenes
      ensures |r| == |scenes|
    {
      seq(|scenes|, i requires 0 <= i < |scenes| reads scenes => scenes[i].IsVisible())
    }

    /** One scene of a pass: fade, merge, note the status. */
    method PassScene(scene: FxSceneItem) returns (visible: bool)
      requires Valid() && Ready(scene)
      requires forall u, c :: 0 <= u < MAX_DMX_UNIVERSE && 0 <= c < CHANNELS ==> 0 <= dmxtout[u, c]
      modifies scene`myStatus, scene`mLastStatus, dmxtout
      modifies scene.tubes`curCmd, scene.tubes`fadeValue, scene.tubes`curValue, scene.tubes`curValueChanged, scene.tubes`dmxValue
      ensures Ready(scene) && scene.Now() == Step(old(scene.Now()))
      ensures visible == scene.IsVisible()
      ensures forall u, c :: 0 <= u < MAX_DMX_UNIVERSE && 0 <= c < CHANNELS ==>
        dmxtout[u, c] == Max(old(dmxtout[u, c]), Htp(Contributions(scene), u, c))
    {
      hide TickScene, Htp, ByteOf, ContributionOf, Usable;
      visible := ProcessFxSceneItem(scene);
      NoteStatus(scene);
    }

    method NoteStatus(scene: FxSceneItem)
      requires Ready(scene)
      modifies scene`mLastStatus
      ensures Ready(scene) && scene.Now() == old(scene.Now()).(last := old(scene.Now()).status)
      ensures Contributions(scene) == old(Contributions(scene)) && scene.IsVisible() == old(scene.IsVisible())
    {
      hide FxSceneItem.TubeOf, ByteOf;
      ghost var cs, tubes := Contributions(scene), scene.Tubes();
      var changed := scene.GetClearStatusHasChanged();
      assert Contributions(scene) == cs && scene.Tubes() == tubes;
    }

    twostate lemma {:induction false} SameScene(scene: FxSceneItem)
      requires old(Ready(scene)) && unchanged(scene) && forall t :: t in scene.tubes ==> unchanged(t)
      ensures Ready(scene) && Contributions(scene) == old(Contributions(scene))
      ensures scene.Now() == old(scene.Now()) && scene.IsVisible() == old(scene.IsVisible())
    {
      forall i | 0 <= i < |scene.tubes| ensures unchanged(scene.tubes[i]) {
        assert scene.tubes[i] in scene.tubes;
      }
      assert scene.Tubes() == old(scene.Tubes());
    }

    /** A pass over one scene leaves the others alone. */
    method PassSceneAmong(scene: FxSceneItem, ghost scenes: seq<FxSceneItem>, ghost pool: set<DmxChannel>, ghost k: nat)
        returns (visible: bool)
      requires Valid() && AllReady(scenes, pool) && k < |scenes| && scene == scenes[k]
      requires forall u, c :: 0 <= u < MAX_DMX_UNIVERSE && 0 <= c < CHANNELS ==> 0 <= dmxtout[u, c]
      modifies scene`myStatus, scene`mLastStatus, dmxtout
      modifies pool`curCmd, pool`fadeValue, pool`curValue, pool`curValueChanged, pool`dmxValue
      ensures Ready(scene) && scene.Now() == Step(old(scene.Now())) && visible == scene.IsVisible()
      ensures forall u, c :: 0 <= u < MAX_DMX_UNIVERSE && 0 <= c < CHANNELS ==>
        dmxtout[u, c] == Max(old(dmxtout[u, c]), Htp(Contributions(scene), u, c))
      ensures forall i :: 0 <= i < |scenes| && i != k ==>
        && Ready(scenes[i]) && scenes[i].Now() == old(scenes[i].Now())
        && Contributions(scenes[i]) == old(Contributions(scenes[i]))
        && scenes[i].IsVisible() == old(scenes[i].IsVisible())
    {
      hide Step, Htp, Usable, FxSceneItem.TubeOf, FxSceneItem.IsVisible;
      visible := PassScene(scene);
      forall i | 0 <= i < |scenes| && i != k
        ensures Ready(scenes[i])
        ensures scenes[i].Now() == old(scenes[i].Now())
        ensures Contributions(scenes[i]) == old(Contributions(scenes[i]))
        ensures scenes[i].IsVisible() == old(scenes[i].IsVisible())
      {
        assert scenes[i] != scene && Disjoint(scenes[i].tubes, scene.tubes);
        forall t | t in scenes[i].tubes ensures unchanged(t) {
          assert t !in scene.tubes;
        }
        SameScene(scenes[i]);
      }
    }

    method PassSceneAt(scene: FxSceneItem, ghost scenes: seq<FxSceneItem>, ghost pool: set<DmxChannel>, ghost k: nat)
        returns (visible: bool)
      requires Valid() && AllReady(scenes, pool) && k < |scenes| && scene == scenes[k]
      requires forall u, c :: 0 <= u < MAX_DMX_UNIVERSE && 0 <= c < CHANNELS ==> 0 <= dmxtout[u, c]
      modifies scene`myStatus, scene`mLastStatus, dmxtout
      modifies pool`curCmd, pool`fadeValue, pool`curValue, pool`curValueChanged, pool`dmxValue
      ensures AllReady(scenes, pool)
      ensures var before := old(Snapshots(scenes, pool)); Snapshots(scenes, pool) == before[k := Step(before[k])]
      ensures Visibles(scenes) == old(Visibles(scenes))[k := visible]
      ensures var now := AllContributions(scenes, pool);
        && now == old(AllContributions(scenes, pool))[k := now[k]]
        && forall u, c :: 0 <= u < MAX_DMX_UNIVERSE && 0 <= c < CHANNELS ==>
             dmxtout[u, c] == Max(old(dmxtout[u, c]), Htp(now[k], u, c))
    {
      hide Step, Htp, Ready, OwnsTubes, Disjoint, FxSceneItem.Valid, FxSceneItem.Now, FxSceneItem.IsVisible;
      visible := PassSceneAmong(scene, scenes, pool, k);
    }

    method PassScenes(scenes: seq<FxSceneItem>, ghost pool: set<DmxChannel>) returns (inactive: seq<FxSceneItem>)
      requires Valid() && AllReady(scenes, pool)
      requires forall u, c :: 0 <= u < MAX_DMX_UNIVERSE && 0 <= c < CHANNELS ==> dmxtout[u, c] == 0
      modifies scenes`myStatus, scenes`mLastStatus, dmxtout
      modifies pool`curCmd, pool`fadeValue, pool`curValue, pool`curValueChanged, pool`dmxValue
      ensures AllReady(scenes, pool)
      ensures forall i :: 0 <= i < |scenes| ==> Snapshots(scenes, pool)[i] == Step(old(Snapshots(scenes, pool))[i])
      ensures inactive == InactiveOf(scenes, Visibles(scenes))
      ensures forall u, c :: 0 <= u < MAX_DMX_UNIVERSE && 0 <= c < CHANNELS ==>
        dmxtout[u, c] == Htp(Flatten(AllContributions(scenes, pool)), u, c)
    {
      hide Step, AllReady, Htp, Flatten, Snapshots, AllContributions, Visibles;
      inactive := [];
      ghost var start := Snapshots(scenes, pool);
      ghost var parts: seq<seq<Contribution>> := [];
      assert forall u, c :: Htp(Flatten([]), u, c) == 0 by { NothingMerged(); }
      for k := 0 to |scenes|
        invariant AllReady(scenes, pool)
        invariant parts == AllContributions(scenes, pool)[..k]
        invariant forall i :: 0 <= i < k ==> Snapshots(scenes, pool)[i] == Step(start[i])
        invariant forall i :: k <= i < |scenes| ==> Snapshots(scenes, pool)[i] == start[i]
        invariant inactive == InactiveOf(scenes[..k], Visibles(scenes)[..k])
        invariant forall u, c :: 0 <= u < MAX_DMX_UNIVERSE && 0 <= c < CHANNELS ==> dmxtout[u, c] == Htp(Flatten(parts), u, c)
      {
        HtpsAreNonNegative(Flatten(parts));
        ghost var seen := Visibles(scenes);
        var visible := PassSceneAt(scenes[k], scenes, pool, k);
        InactiveNext(scenes, Visibles(scenes), k);
        assert Visibles(scenes)[..k] == seen[..k];
        if !visible {
          inactive := inactive + [scenes[k]];
        }
        MergeNext(parts, AllContributions(scenes, pool)[k]);
        parts := parts + [AllContributions(scenes, pool)[k]];
      }
      assert AllContributions(scenes, pool)[..|scenes|] == AllContributions(scenes, pool);
      assert scenes[..|scenes|] == scenes && Visibles(scenes)[..|scenes|] == Visibles(scenes);
    }

    // ----- What is merged

    predicate IsAt(tube: DmxChannel, universe: int, channel: int)
      reads tube`dmxUniverse, tube`dmxChannel
    {
      tube.dmxUniverse == universe && tube.dmxChannel == channel
    }

    /** The byte merged at an address is the highest byte of all tubes there, on either mix line, and 0 without any. */
    lemma {:induction false} MergedByteIs(scenes: seq<FxSceneItem>, pool: set<DmxChannel>, universe: int, channel: int)
      requires AllReady(scenes, pool)
      ensures var v := Htp(Flatten(AllContributions(scenes, pool)), universe, channel);
        && (forall i, j :: 0 <= i < |scenes| && 0 <= j < |scenes[i].tubes| && IsAt(scenes[i].tubes[j], universe, channel) ==>
              Usable(scenes[i].tubes[j]) && ByteOf(scenes[i].tubes[j]) <= v)
        && 0 <= v
        && (v == 0 || exists i, j :: 0 <= i < |scenes| && 0 <= j < |scenes[i].tubes| && IsAt(scenes[i].tubes[j], universe, channel)
                                     && Usable(scenes[i].tubes[j]) && ByteOf(scenes[i].tubes[j]) == v)
    {
      hide ByteOf, Flatten, Htp, Usable;
      var parts := AllContributions(scenes, pool);
      var all := Flatten(parts);
      var v := Htp(all, universe, channel);
      HtpIsMax(all, universe, channel);
      FlattenMembers(parts);
      forall i, j | 0 <= i < |scenes| && 0 <= j < |scenes[i].tubes| && IsAt(scenes[i].tubes[j], universe, channel)
        ensures Usable(scenes[i].tubes[j]) && ByteOf(scenes[i].tubes[j]) <= v
      {
        TubeContributes(scenes, pool, i, j);
        assert parts[i][j] in parts[i];
        assert parts[i][j] in all && Addresses(parts[i][j], universe, channel);
      }
      if v != 0 {
        var c :| c in all && Addresses(c, universe, channel) && c.value == v;
        var i :| 0 <= i < |parts| && c in parts[i];
        var j :| 0 <= j < |parts[i]| && parts[i][j] == c;
        TubeContributes(scenes, pool, i, j);
        assert IsAt(scenes[i].tubes[j], universe, channel);
      }
    }

    lemma {:induction false} TubeContributes(scenes: seq<FxSceneItem>, pool: set<DmxChannel>, i: nat, j: nat)
      requires AllReady(scenes, pool) && i < |scenes| && j < |AllContributions(scenes, pool)[i]|
      ensures |AllContributions(scenes, pool)[i]| == |scenes[i].tubes|
      ensures var tube, c := scenes[i].tubes[j], AllContributions(scenes, pool)[i][j];
        Usable(tube) && c == Contribution(tube.dmxUniverse, tube.dmxChannel, ByteOf(tube))
    {
      hide ByteOf;
    }

    /**
     A tube that is alone at its address, with scaler 1/1, faded to byte d on either mix line while the other line is
     no higher: the byte merged there is d exactly if d survives.
     */
    lemma {:induction false} FadedByteIsMerged(scenes: seq<FxSceneItem>, pool: set<DmxChannel>, i: nat, j: nat, mix: nat,
                                               l: MixLine, d: nat, timeMs: int, n: nat)
      requires AllReady(scenes, pool) && i < |scenes| && j < |scenes[i].tubes| && mix < MIX_LINES && d <= 255
      requires var tube := scenes[i].tubes[j];
        && 0 < tube.targetFullValue && Usable(tube)
        && tube.scalerNumerator == tube.scalerDenominator == 1
        && globalScaler(tube.dmxUniverse, tube.dmxChannel) in {None, Some((1, 1))}
        && (forall a, b :: 0 <= a < |scenes| && 0 <= b < |scenes[a].tubes| ==>
              (IsAt(scenes[a].tubes[b], tube.dmxUniverse, tube.dmxChannel) ==> a == i && b == j))
        && (l.cmd == NoCmd || l.cur != LevelFor(d, tube.targetFullValue)) && l.cur <= tube.targetFullValue
        && StepCount(timeMs) <= n
        && tube.Line(mix) == Ticks(InitFade(l, FadeTo, timeMs, LevelFor(d, tube.targetFullValue), tube.targetValue,
                                            tube.targetFullValue).0, tube.targetValue, n)
        && tube.curValue[1 - mix] <= tube.curValue[mix]
      ensures var tube := scenes[i].tubes[j];
        Htp(Flatten(AllContributions(scenes, pool)), tube.dmxUniverse, tube.dmxChannel) == d <==> Survives(d, tube.targetFullValue)
    {
      var tube := scenes[i].tubes[j];
      hide Flatten, Htp, AllReady, Survives, InitFade, Ticks, ByteOf;
      MergedByteIs(scenes, pool, tube.dmxUniverse, tube.dmxChannel);
      assert IsAt(scenes[i].tubes[j], tube.dmxUniverse, tube.dmxChannel);
      ByteFadeLevel(l, d, timeMs, tube.targetValue, tube.targetFullValue, n);
      LevelBounds(d, tube.targetFullValue);
      ByteReadsBothLines(tube, tube.curValue[mix]);
      ByteSurvivesIff(d, tube.targetFullValue);
    }

    // ----- Publishing

    predicate Differs(u: nat, c: nat)
      requires Valid() && u < MAX_DMX_UNIVERSE && c < CHANNELS
      reads dmxtout, dmxOutputValues
    {
      dmxtout[u, c] != dmxOutputValues[u, c]
    }

    /** Copies the merge to the published universes and raises the flag of every universe that changes. */
    method Publish()
      requires Valid()
      modifies dmxOutputValues, dmxOutputChanged
      ensures forall u, c :: 0 <= u < MAX_DMX_UNIVERSE && 0 <= c < CHANNELS ==> dmxOutputValues[u, c] == dmxtout[u, c]
      ensures forall u :: 0 <= u < MAX_DMX_UNIVERSE ==>
        (dmxOutputChanged[u] <==> old(dmxOutputChanged[u]) || exists c :: 0 <= c < CHANNELS && old(Differs(u, c)))
    {
      for u := 0 to MAX_DMX_UNIVERSE
        invariant forall v, c :: 0 <= v < u && 0 <= c < CHANNELS ==> dmxOutputValues[v, c] == dmxtout[v, c]
        invariant forall v, c :: u <= v < MAX_DMX_UNIVERSE && 0 <= c < CHANNELS ==>
          dmxOutputValues[v, c] == old(dmxOutputValues[v, c])
        invariant forall v :: 0 <= v < u ==>
          (dmxOutputChanged[v] <==> old(dmxOutputChanged[v]) || exists c :: 0 <= c < CHANNELS && old(Differs(v, c)))
        invariant forall v :: u <= v < MAX_DMX_UNIVERSE ==> dmxOutputChanged[v] == old(dmxOutputChanged[v])
      {
        assert forall c :: 0 <= c < CHANNELS ==> Differs(u, c) == old(Differs(u, c));
        PublishUniverse(u);
      }
    }

    method PublishUniverse(u: nat)
      requires Valid() && u < MAX_DMX_UNIVERSE
      modifies dmxOutputValues, dmxOutputChanged
      ensures forall c :: 0 <= c < CHANNELS ==> dmxOutputValues[u, c] == dmxtout[u, c]
      ensures forall v, c :: 0 <= v < MAX_DMX_UNIVERSE && v != u && 0 <= c < CHANNELS ==>
        dmxOutputValues[v, c] == old(dmxOutputValues[v, c])
      ensures dmxOutputChanged[u] <==> old(dmxOutputChanged[u]) || exists c :: 0 <= c < CHANNELS && old(Differs(u, c))
      ensures forall v :: 0 <= v < MAX_DMX_UNIVERSE && v != u ==> dmxOutputChanged[v] == old(dmxOutputChanged[v])
    {
      for c := 0 to CHANNELS
        invariant forall d :: 0 <= d < c ==> dmxOutputValues[u, d] == dmxtout[u, d]
        invariant forall d :: c <= d < CHANNELS ==> dmxOutputValues[u, d] == old(dmxOutputValues[u, d])
        invariant forall v, d :: 0 <= v < MAX_DMX_UNIVERSE && v != u && 0 <= d < CHANNELS ==>
          dmxOutputValues[v, d] == old(dmxOutputValues[v, d])
        invariant dmxOutputChanged[u] <==> old(dmxOutputChanged[u]) || exists d :: 0 <= d < c && old(Differs(u, d))
        invariant forall v :: 0 <= v < MAX_DMX_UNIVERSE && v != u ==> dmxOutputChanged[v] == old(dmxOutputChanged[v])
      {
        assert old(Differs(u, c)) <==> dmxtout[u, c] != dmxOutputValues[u, c];
        if dmxtout[u, c] != dmxOutputValues[u, c] {
          dmxOutputChanged[u] := true;
        }
        dmxOutputValues[u, c] := dmxtout[u, c];
      }
    }

    /** Passes the scenes and publishes their merge; the scenes that have ended are reported. */
    method RefreshOutput(scenes: seq<FxSceneItem>, ghost pool: set<DmxChannel>) returns (inactive: seq<FxSceneItem>)
      requires Valid() && AllReady(scenes, pool)
      modifies scenes`myStatus, scenes`mLastStatus, dmxtout, dmxOutputValues, dmxOutputChanged
      modifies pool`curCmd, pool`fadeValue, pool`curValue, pool`curValueChanged, pool`dmxValue
      ensures AllReady(scenes, pool)
      ensures forall i :: 0 <= i < |scenes| ==> Snapshots(scenes, pool)[i] == Step(old(Snapshots(scenes, pool))[i])
      ensures inactive == InactiveOf(scenes, Visibles(scenes))
      ensures forall u, c :: 0 <= u < MAX_DMX_UNIVERSE && 0 <= c < CHANNELS ==>
        dmxOutputValues[u, c] == Htp(Flatten(AllContributions(scenes, pool)), u, c)
      ensures forall u :: 0 <= u < MAX_DMX_UNIVERSE ==>
        (dmxOutputChanged[u] <==>
           old(dmxOutputChanged[u]) || exists c :: 0 <= c < CHANNELS && dmxOutputValues[u, c] != old(dmxOutputValues[u, c]))
    {
      hide Step, AllReady, Htp, Flatten, Snapshots, AllContributions, Visibles, InactiveOf;
      ClearOutput();
      inactive := PassScenes(scenes, pool);
      label Merged:
      ghost var snaps, parts, seen := Snapshots(scenes, pool), AllContributions(scenes, pool), Visibles(scenes);
      Publish();
      assert Snapshots(scenes, pool) == snaps && AllContributions(scenes, pool) == parts && Visibles(scenes) == seen;
      forall u | 0 <= u < MAX_DMX_UNIVERSE
        ensures dmxOutputChanged[u] <==>
          old(dmxOutputChanged[u]) || exists c :: 0 <= c < CHANNELS && dmxOutputValues[u, c] != old(dmxOutputValues[u, c])
      {
        assert forall c :: 0 <= c < CHANNELS ==>
          (old@Merged(Differs(u, c)) <==> dmxOutputValues[u, c] != old(dmxOutputValues[u, c]));
      }
    }

    // ----- Active scenes

    method SetSceneActive(scene: FxSceneItem) returns (added: bool)
      modifies this`activeScenes
      ensures added == (scene !in old(activeScenes))
      ensures activeScenes == if added then old(activeScenes) + [scene] else old(activeScenes)
    {
      if scene in activeScenes {
        return false;
      }
      activeScenes := activeScenes + [scene];
      return true;
    }

    method SetSceneIdle(scene: FxSceneItem) returns (removed: bool)
      modifies this`activeScenes
      ensures removed == (scene in old(activeScenes)) && scene !in activeScenes
      ensures activeScenes == Without(old(activeScenes), {scene})
    {
      WithoutIs(activeScenes, {scene});
      if scene !in activeScenes {
        WithoutOthers(activeScenes, {scene});
        return false;
      }
      activeScenes := Without(activeScenes, {scene});
      return true;
    }

    /** The scenes of a pass. */
    function PassedScenes(): seq<FxSceneItem>
      reads this`activeScenes, this`permanentScenes
    {
      Added(activeScenes, permanentScenes)
    }

    method AddPermanentScenes()
      modifies this`activeScenes
      ensures activeScenes == old(PassedScenes())
    {
      for k := 0 to |permanentScenes|
        invariant activeScenes == Added(old(activeScenes), permanentScenes[..k])
      {
        AddedNext(old(activeScenes), permanentScenes, k);
        var added := SetSceneActive(permanentScenes[k]);
      }
      assert permanentScenes[..|permanentScenes|] == permanentScenes;
    }

    method RemoveScenes(inactive: seq<FxSceneItem>)
      modifies this`activeScenes
      ensures activeScenes == Without(old(activeScenes), Elements(inactive))
    {
      WithoutOthers(activeScenes, {});
      assert Elements(inactive[..0]) == {};
      for k := 0 to |inactive|
        invariant activeScenes == Without(old(activeScenes), Elements(inactive[..k]))
      {
        WithoutBoth(old(activeScenes), Elements(inactive[..k]), {inactive[k]});
        assert Elements(inactive[..k]) + {inactive[k]} == Elements(inactive[..k + 1]);
        var removed := SetSceneIdle(inactive[k]);
      }
      assert inactive[..|inactive|] == inactive;
    }

    lemma {:induction false} PartIsReady(scenes: seq<FxSceneItem>, part: seq<FxSceneItem>, pool: set<DmxChannel>)
      requires AllReady(scenes, pool) && Distinct(part) && forall x :: x in part ==> x in scenes
      ensures AllReady(part, pool)
    {
      hide Ready;
      forall i | 0 <= i < |part| ensures OwnsTubes(part[i], pool) && Ready(part[i]) {
        assert part[i] in scenes;
      }
      forall i, j | 0 <= i < j < |part| ensures Disjoint(part[i].tubes, part[j].tubes) {
        assert part[i] in scenes && part[j] in scenes;
      }
    }

    lemma {:induction false} ReadyFacts(scenes: seq<FxSceneItem>, pool: set<DmxChannel>)
      requires AllReady(scenes, pool)
      ensures Distinct(scenes)
      ensures forall i :: 0 <= i < |scenes| ==> Visibles(scenes)[i] == SceneRun.Visible(Snapshots(scenes, pool)[i].status)
    {
      hide Ready;
    }

    /** The scenes that stay and the permanent ones are ready for the next pass. */
    lemma {:induction false} NextIsReady(passed: seq<FxSceneItem>, inactive: set<FxSceneItem>, pool: set<DmxChannel>)
      requires AllReady(passed, pool) && Distinct(passed) && activeScenes == Without(passed, inactive)
      requires forall x :: x in permanentScenes ==> x in passed
      ensures AllReady(PassedScenes(), pool) && Distinct(activeScenes) && forall x :: x in activeScenes ==> x in passed
    {
      hide AllReady;
      WithoutIs(passed, inactive);
      AddedIs(activeScenes, permanentScenes);
      forall x | x in PassedScenes() ensures x in passed {
        AddedMember(activeScenes, permanentScenes, x);
      }
      PartIsReady(passed, PassedScenes(), pool);
    }

    /**
     A whole pass of the light loop. Every scene moves on, the published bytes are the merge of all scenes, and the
     scenes that stay active are exactly the visible ones; the next pass can follow.
     */
    method ProcessPendingEvents(ghost pool: set<DmxChannel>)
      requires Valid() && AllReady(PassedScenes(), pool)
      modifies this`activeScenes, dmxtout, dmxOutputValues, dmxOutputChanged
      modifies PassedScenes()`myStatus, PassedScenes()`mLastStatus
      modifies pool`curCmd, pool`fadeValue, pool`curValue, pool`curValueChanged, pool`dmxValue
      ensures var passed := old(PassedScenes());
        && (forall x :: x in passed <==> x in old(activeScenes) || x in permanentScenes)
        && AllReady(passed, pool) && AllReady(PassedScenes(), pool) && Distinct(activeScenes)
        && (forall i :: 0 <= i < |passed| ==>
              SceneRun.Held(Snapshots(passed, pool)[i], passed[i] in activeScenes) ==
              SceneRun.Pass(SceneRun.Held(old(Snapshots(PassedScenes(), pool))[i], true)))
        && (forall x :: x in activeScenes ==> x in passed)
        && (forall u, c :: 0 <= u < MAX_DMX_UNIVERSE && 0 <= c < CHANNELS ==>
              dmxOutputValues[u, c] == Htp(Flatten(AllContributions(passed, pool)), u, c))
      ensures forall u :: 0 <= u < MAX_DMX_UNIVERSE ==>
        (dmxOutputChanged[u] <==>
           old(dmxOutputChanged[u]) || exists c :: 0 <= c < CHANNELS && dmxOutputValues[u, c] != old(dmxOutputValues[u, c]))
    {
      hide Step, AllReady, Htp, Flatten, Snapshots, AllContributions, Visibles, InactiveOf, Without, Added;
      ghost var start := Snapshots(PassedScenes(), pool);
      AddedIs(activeScenes, permanentScenes);
      AddPermanentScenes();
      ghost var passed := activeScenes;
      assert Snapshots(passed, pool) == start;
      var inactive := RefreshOutput(activeScenes, pool);
      ghost var snaps, parts, seen := Snapshots(passed, pool), AllContributions(passed, pool), Visibles(passed);
      RemoveScenes(inactive);
      assert Snapshots(passed, pool) == snaps && AllContributions(passed, pool) == parts && Visibles(passed) == seen;
      ReadyFacts(passed, pool);
      VisibleStay(passed, seen, activeScenes);
      NextIsReady(passed, Elements(inactive), pool);
    }
  }
}
