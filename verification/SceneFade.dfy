/**
 Fades of a whole scene: its tubes, single or paired to 16 bits, and the status
 flags derived from them.
 */
module SceneFade {
  import opened Common
  import opened DmxFade
  import opened PairedFade

  datatype SceneFlag = StageLive | StageIntern | StageExtern | ActiveIntern | ActiveExtern

  // The channel types that the commands of a scene tell apart.
  datatype Kind = Plain | Pan | PanFine | Tilt | TiltFine | Speed

  // A main tube is paired with the next tube of the scene, its sub.
  datatype Role = Single | Main | Sub

  // lines: the intern and the extern mix line. localDimmer: the type set on the tube itself is no position
  // or special type; dimmer and kind: its effective type.
  datatype Tube = Tube(lines: seq<MixLine>, targetValue: int, fullValue: int, visible: bool, localDimmer: bool,
                       dimmer: bool, kind: Kind, role: Role)

  // last: the status at the last look for changes.
  datatype Scene = Scene(tubes: seq<Tube>, status: set<SceneFlag>, last: set<SceneFlag>, blacked: seq<bool>,
                         fadeInTime: int, fadeOutTime: int)

  predicate PairsRight(tubes: seq<Tube>) {
    && (forall i :: 0 <= i < |tubes| ==>
          && |tubes[i].lines| == 2 && tubes[i].fullValue != 0
          && (tubes[i].dimmer ==> tubes[i].kind == Plain && tubes[i].localDimmer))
    && forall i :: 0 <= i < |tubes| && tubes[i].role == Main ==> i + 1 < |tubes| && tubes[i + 1].role == Sub
  }

  predicate WellFormed(s: Scene) {
    |s.blacked| == 2 && PairsRight(s.tubes)
  }

  function StageFlag(mix: nat): SceneFlag { if mix == 1 then StageExtern else StageIntern }

  function ActiveFlag(mix: nat): SceneFlag { if mix == 1 then ActiveExtern else ActiveIntern }

  function Put(status: set<SceneFlag>, flag: SceneFlag, on: bool): set<SceneFlag> {
    if on then status + {flag} else status - {flag}
  }

  /** A main tube and its fine partner. */
  function PairOfTwo(coarse: Tube, fine: Tube, mix: nat): Pair
    requires |coarse.lines| == |fine.lines| == 2 && mix < 2
  {
    Pair(coarse.lines[mix], Fine(fine.lines[mix].cur, fine.lines[mix].changed, fine.targetValue, fine.fullValue))
  }

  function PairOf(tubes: seq<Tube>, i: nat, mix: nat): Pair
    requires PairsRight(tubes) && i + 1 < |tubes| && mix < 2
  {
    PairOfTwo(tubes[i], tubes[i + 1], mix)
  }

  // ----- A command to the scene

  /** The scene itself does not fade these tubes: a hidden scene moves them. */
  predicate Moves(kind: Kind) {
    kind == Pan || kind == Tilt || kind == Speed
  }

  predicate CanPair(kind: Kind) {
    kind == Pan || kind == Tilt
  }

  predicate Fits(coarse: Kind, fine: Kind) {
    (coarse == Pan && fine == PanFine) || (coarse == Tilt && fine == TiltFine)
  }

  /** The role of a tube when a command reaches it: the tube before it may have paired or released it. */
  function Visited(tubes: seq<Tube>, i: nat): (r: Role)
    requires i < |tubes|
    ensures r == Main ==> tubes[i].role == Main
  {
    if i == 0 then tubes[0].role
    else
      var before, role := tubes[i - 1], Visited(tubes, i - 1);
      if role == Sub || !before.visible || !CanPair(before.kind) then tubes[i].role
      else if Fits(before.kind, tubes[i].kind) then Sub
      else if role == Main then Single
      else tubes[i].role
  }

  /** The role it leaves with. */
  function RoleAfter(tubes: seq<Tube>, i: nat): Role
    requires i < |tubes|
  {
    var role := Visited(tubes, i);
    if role == Sub || !tubes[i].visible || !CanPair(tubes[i].kind) || i + 1 == |tubes| then role
    else if Fits(tubes[i].kind, tubes[i + 1].kind) then Main
    else Single
  }

  /** Subs, tubes hidden from the desk and moving tubes are left alone; FADETO has no target here and leads to 0. */
  predicate LeftAlone(tubes: seq<Tube>, i: nat)
    requires i < |tubes|
  {
    Visited(tubes, i) == Sub || !tubes[i].visible || Moves(tubes[i].kind)
  }

  /** The command fades the tube as a single channel. */
  predicate Fades(tubes: seq<Tube>, i: nat)
    requires i < |tubes|
  {
    !LeftAlone(tubes, i) && Visited(tubes, i) == Single
  }

  function InitLine(tubes: seq<Tube>, i: nat, mix: nat, cmd: CtrlCmd, timeMs: int): (MixLine, bool)
    requires PairsRight(tubes) && i < |tubes| && mix < 2
  {
    var t := tubes[i];
    if LeftAlone(tubes, i) then (t.lines[mix], false)
    else if Visited(tubes, i) == Main then
      var (p, ok) := InitPair(PairOf(tubes, i, mix), cmd, timeMs, 0, t.targetValue);
      (p.coarse, ok)
    else InitFade(t.lines[mix], cmd, timeMs, 0, t.targetValue, t.fullValue)
  }

  function InitTube(tubes: seq<Tube>, i: nat, mix: nat, cmd: CtrlCmd, timeMs: int): Tube
    requires PairsRight(tubes) && i < |tubes| && mix < 2
  {
    tubes[i].(lines := tubes[i].lines[mix := InitLine(tubes, i, mix, cmd, timeMs).0], role := RoleAfter(tubes, i))
  }

  function CmdTime(s: Scene, cmd: CtrlCmd, cmdTime: int): int {
    if cmdTime != 0 then cmdTime
    else match cmd
      case FadeIn => s.fadeInTime
      case FadeTo => s.fadeInTime
      case FadeOut => s.fadeOutTime
      case _ => 0
  }

  predicate Starts(tubes: seq<Tube>, mix: nat, cmd: CtrlCmd, timeMs: int, i: nat)
    requires PairsRight(tubes) && i < |tubes| && mix < 2
  {
    InitLine(tubes, i, mix, cmd, timeMs).1
  }

  predicate AnyStarts(tubes: seq<Tube>, mix: nat, cmd: CtrlCmd, timeMs: int)
    requires PairsRight(tubes) && mix < 2
  {
    exists i :: 0 <= i < |tubes| && Starts(tubes, mix, cmd, timeMs, i)
  }

  predicate AnyDimmerStarts(tubes: seq<Tube>, mix: nat, cmd: CtrlCmd, timeMs: int)
    requires PairsRight(tubes) && mix < 2
  {
    exists i :: 0 <= i < |tubes| && Starts(tubes, mix, cmd, timeMs, i) && tubes[i].localDimmer
  }

  predicate IsSceneCmd(cmd: CtrlCmd) {
    cmd.Black? || cmd.FadeIn? || cmd.FadeOut? || cmd.FadeTo?
  }

  /** The stage flag and the black-out memory as the command sets them first. */
  function Announce(s: Scene, mix: nat, cmd: CtrlCmd): (set<SceneFlag>, seq<bool>)
    requires WellFormed(s) && mix < 2
  {
    match cmd
    case Black =>
      if StageFlag(mix) in s.status then (s.status - {StageFlag(mix)}, s.blacked[mix := true]) else (s.status, s.blacked)
    case FadeOut => (s.status - {StageFlag(mix)}, s.blacked[mix := false])
    case _ => (s.status + {StageFlag(mix)}, s.blacked[mix := false])
  }

  function InitTubes(tubes: seq<Tube>, mix: nat, cmd: CtrlCmd, timeMs: int): (r: seq<Tube>)
    requires PairsRight(tubes) && mix < 2
    ensures |r| == |tubes| && forall i :: 0 <= i < |r| ==> r[i] == InitTube(tubes, i, mix, cmd, timeMs)
    ensures PairsRight(r)
  {
    seq(|tubes|, i requires 0 <= i < |tubes| => InitTube(tubes, i, mix, cmd, timeMs))
  }

  function InitScene(s: Scene, mix: nat, cmd: CtrlCmd, cmdTime: int): (r: (Scene, bool))
    requires WellFormed(s) && mix < 2
    ensures WellFormed(r.0) && |r.0.tubes| == |s.tubes|
  {
    if !IsSceneCmd(cmd) then (s, false)
    else
      var time := CmdTime(s, cmd, cmdTime);
      var (status, blacked) := Announce(s, mix, cmd);
      var active, onStage := AnyStarts(s.tubes, mix, cmd, time), AnyDimmerStarts(s.tubes, mix, cmd, time);
      (s.(tubes := InitTubes(s.tubes, mix, cmd, time), status := FlagsStarted(status, mix, cmd, active, onStage),
          blacked := blacked), active)
  }

  /** A fade-in that starts no dimmer takes the scene off stage again; the active flag tells whether a tube has started. */
  function FlagsStarted(status: set<SceneFlag>, mix: nat, cmd: CtrlCmd, active: bool, onStage: bool): set<SceneFlag> {
    var staged := if mix == 0 && (cmd == FadeIn || cmd == FadeTo) && !onStage then status - {StageIntern} else status;
    Put(staged, ActiveFlag(mix), active)
  }

  // ----- A tick

  /** The line of a fine channel takes its level from the pair. */
  function WithFine(l: MixLine, fine: Fine): MixLine {
    l.(cur := fine.cur, changed := fine.changed)
  }

  function TickLine(tubes: seq<Tube>, i: nat, mix: nat): (MixLine, bool)
    requires PairsRight(tubes) && i < |tubes| && mix < 2
  {
    var t := tubes[i];
    match t.role
    case Single => Tick(t.lines[mix], t.targetValue)
    case Main =>
      var (p, runs) := TickPairAt(tubes, i, mix);
      (p.coarse, runs)
    case Sub =>
      if i > 0 && tubes[i - 1].role == Main then
        (WithFine(t.lines[mix], TickPairAt(tubes, i - 1, mix).0.fine), false)
      else (t.lines[mix], false)
  }

  function TickPairAt(tubes: seq<Tube>, i: nat, mix: nat): (Pair, bool)
    requires PairsRight(tubes) && i < |tubes| && tubes[i].role == Main && mix < 2
  {
    TickPair(PairOf(tubes, i, mix), tubes[i].targetValue, tubes[i].fullValue)
  }

  function TickTube(tubes: seq<Tube>, i: nat): Tube
    requires PairsRight(tubes) && i < |tubes|
  {
    tubes[i].(lines := [TickLine(tubes, i, 0).0, TickLine(tubes, i, 1).0])
  }

  predicate Runs(tubes: seq<Tube>, mix: nat, i: nat)
    requires PairsRight(tubes) && i < |tubes| && mix < 2
  {
    TickLine(tubes, i, mix).1
  }

  predicate SomeRuns(tubes: seq<Tube>, mix: nat)
    requires PairsRight(tubes) && mix < 2
  {
    exists i :: 0 <= i < |tubes| && Runs(tubes, mix, i)
  }

  /** Some dimmer is above 0. */
  predicate OnStage(tubes: seq<Tube>)
    requires PairsRight(tubes)
  {
    exists i :: 0 <= i < |tubes| && tubes[i].dimmer && tubes[i].lines[0].cur > 0
  }

  function TickTubes(tubes: seq<Tube>): (r: seq<Tube>)
    requires PairsRight(tubes)
    ensures |r| == |tubes| && forall i :: 0 <= i < |r| ==> r[i] == TickTube(tubes, i)
    ensures PairsRight(r)
  {
    seq(|tubes|, i requires 0 <= i < |tubes| => TickTube(tubes, i))
  }

  function TickScene(s: Scene): (r: (Scene, bool))
    requires WellFormed(s)
    ensures WellFormed(r.0)
  {
    var tubes, intern, extern := TickTubes(s.tubes), SomeRuns(s.tubes, 0), SomeRuns(s.tubes, 1);
    (s.(tubes := tubes, status := FlagsAfter(s.status, s.last, intern, extern, OnStage(tubes))), intern || extern)
  }

  /** The active flags follow the tubes; when the intern fades have ended, a dark scene leaves the stage. */
  function FlagsAfter(status: set<SceneFlag>, last: set<SceneFlag>, intern: bool, extern: bool, onStage: bool): set<SceneFlag> {
    var faded := Put(status, ActiveIntern, intern);
    var staged := if !intern && ActiveIntern in last && !onStage then faded - {StageIntern} else faded;
    Put(staged, ActiveExtern, extern)
  }

  /** One pass of the light loop over the scene: a tick, then the look for a changed status. */
  function Step(s: Scene): (r: Scene)
    requires WellFormed(s)
    ensures WellFormed(r)
  {
    var t := TickScene(s).0;
    t.(last := t.status)
  }

  function Steps(s: Scene, n: nat): (r: Scene)
    requires WellFormed(s)
    ensures WellFormed(r)
  {
    if n == 0 then s else Step(Steps(s, n - 1))
  }

  // ----- A command on its way from tube to tube

  /** Visiting one tube: pairing it with the next one or releasing it. */
  function PairAtTube(now: seq<Tube>, t: nat): (r: seq<Tube>)
    requires t < |now|
    ensures |r| == |now|
  {
    if t + 1 == |now| || !CanPair(now[t].kind) then now
    else if Fits(now[t].kind, now[t + 1].kind) then
      now[t := now[t].(role := Main)][t + 1 := now[t + 1].(role := Sub)]
    else
      var next := if now[t].role == Main then Single else now[t + 1].role;
      now[t := now[t].(role := Single)][t + 1 := now[t + 1].(role := next)]
  }

  lemma {:induction false} PairedAtTube(now: seq<Tube>, r: seq<Tube>, t: nat)
    requires |r| == |now| && t < |now|
    requires forall i :: 0 <= i < |now| && i != t && i != t + 1 ==> r[i] == now[i]
    requires if t + 1 < |now| && CanPair(now[t].kind) then
               if Fits(now[t].kind, now[t + 1].kind)
               then r[t] == now[t].(role := Main) && r[t + 1] == now[t + 1].(role := Sub)
               else
                 && r[t] == now[t].(role := Single)
                 && r[t + 1] == now[t + 1].(role := if now[t].role == Main then Single else now[t + 1].role)
             else r[t] == now[t] && (t + 1 < |now| ==> r[t + 1] == now[t + 1])
    ensures r == PairAtTube(now, t)
  {
  }

  /** Then its own fade. */
  function FadeAtTube(now: seq<Tube>, t: nat, mix: nat, cmd: CtrlCmd, timeMs: int): (r: (seq<Tube>, bool))
    requires PairsRight(now) && t < |now| && mix < 2
    ensures |r.0| == |now|
  {
    var was := now[t];
    var (l, ok) :=
      if was.role == Main then
        var (p, started) := InitPair(PairOf(now, t, mix), cmd, timeMs, 0, was.targetValue);
        (p.coarse, started)
      else InitFade(was.lines[mix], cmd, timeMs, 0, was.targetValue, was.fullValue);
    (now[t := was.(lines := was.lines[mix := l])], ok)
  }

  /** The first t tubes have had the command; the next one may have been paired or released. */
  predicate CommandedTo(now: seq<Tube>, before: seq<Tube>, t: nat, mix: nat, cmd: CtrlCmd, timeMs: int) {
    && PairsRight(before) && |before| == |now| && t <= |now| && mix < 2
    && (forall i :: 0 <= i < t ==> now[i] == InitTube(before, i, mix, cmd, timeMs))
    && (forall i :: t < i < |now| ==> now[i] == before[i])
    && (t < |now| ==> now[t] == before[t].(role := Visited(before, t)))
  }

  /** Some of the first t tubes starts a fade. */
  predicate StartsAmong(tubes: seq<Tube>, mix: nat, cmd: CtrlCmd, timeMs: int, t: nat, dimmers: bool)
    requires PairsRight(tubes) && mix < 2 && t <= |tubes|
  {
    exists i :: 0 <= i < t && Starts(tubes, mix, cmd, timeMs, i) && (dimmers ==> tubes[i].localDimmer)
  }

  lemma {:induction false} StartsNext(tubes: seq<Tube>, mix: nat, cmd: CtrlCmd, timeMs: int, t: nat, dimmers: bool)
    requires PairsRight(tubes) && mix < 2 && t < |tubes|
    ensures StartsAmong(tubes, mix, cmd, timeMs, t + 1, dimmers) <==>
              || StartsAmong(tubes, mix, cmd, timeMs, t, dimmers)
              || (InitLine(tubes, t, mix, cmd, timeMs).1 && (dimmers ==> tubes[t].localDimmer))
  {
    hide InitLine;
    assert Starts(tubes, mix, cmd, timeMs, t) == InitLine(tubes, t, mix, cmd, timeMs).1;
  }

  lemma {:induction false} CommandDone(now: seq<Tube>, before: seq<Tube>, mix: nat, cmd: CtrlCmd, timeMs: int)
    requires CommandedTo(now, before, |now|, mix, cmd, timeMs)
    ensures now == InitTubes(before, mix, cmd, timeMs)
    ensures AnyStarts(before, mix, cmd, timeMs) == StartsAmong(before, mix, cmd, timeMs, |now|, false)
    ensures AnyDimmerStarts(before, mix, cmd, timeMs) == StartsAmong(before, mix, cmd, timeMs, |now|, true)
  {
    hide InitTube, Starts;
  }

  lemma {:induction false} CommandSkips(now: seq<Tube>, before: seq<Tube>, t: nat, mix: nat, cmd: CtrlCmd, timeMs: int)
    requires CommandedTo(now, before, t, mix, cmd, timeMs) && t < |now| && (now[t].role == Sub || !now[t].visible)
    ensures CommandedTo(now, before, t + 1, mix, cmd, timeMs) && !InitLine(before, t, mix, cmd, timeMs).1
  {
    assert before[t].lines[mix := before[t].lines[mix]] == before[t].lines;
  }

  lemma {:induction false} CommandPairs(now: seq<Tube>, before: seq<Tube>, t: nat, mix: nat, cmd: CtrlCmd, timeMs: int)
    requires CommandedTo(now, before, t, mix, cmd, timeMs) && t < |now| && now[t].role != Sub && now[t].visible
    ensures var r := PairAtTube(now, t);
            && (forall i :: 0 <= i < t ==> r[i] == InitTube(before, i, mix, cmd, timeMs))
            && (forall i :: t + 1 < i < |now| ==> r[i] == before[i])
            && r[t] == before[t].(role := RoleAfter(before, t))
            && (t + 1 < |now| ==> r[t + 1] == before[t + 1].(role := Visited(before, t + 1)))
  {
    hide InitTube;
  }

  lemma {:induction false} CommandMoves(now: seq<Tube>, before: seq<Tube>, t: nat, mix: nat, cmd: CtrlCmd, timeMs: int)
    requires CommandedTo(now, before, t, mix, cmd, timeMs) && t < |now| && now[t].role != Sub && now[t].visible
    requires Moves(now[t].kind)
    ensures CommandedTo(PairAtTube(now, t), before, t + 1, mix, cmd, timeMs) && !InitLine(before, t, mix, cmd, timeMs).1
  {
    CommandPairs(now, before, t, mix, cmd, timeMs);
    assert before[t].lines[mix := before[t].lines[mix]] == before[t].lines;
    hide Visited, RoleAfter, PairAtTube;
  }

  lemma {:induction false} CommandFades(now: seq<Tube>, before: seq<Tube>, t: nat, mix: nat, cmd: CtrlCmd, timeMs: int)
    requires CommandedTo(now, before, t, mix, cmd, timeMs) && t < |now| && now[t].role != Sub && now[t].visible
    requires !Moves(now[t].kind) && PairsRight(now)
    ensures PairAtTube(now, t) == now
    ensures var (r, ok) := FadeAtTube(now, t, mix, cmd, timeMs);
            CommandedTo(r, before, t + 1, mix, cmd, timeMs) && ok == InitLine(before, t, mix, cmd, timeMs).1
  {
    CommandPairs(now, before, t, mix, cmd, timeMs);
    assert RoleAfter(before, t) == Visited(before, t);
    hide InitFade, InitPair, Visited, RoleAfter;
  }

  // ----- A tick on its way from tube to tube

  function TickAtTube(now: seq<Tube>, t: nat): (r: (seq<Tube>, bool, bool))
    requires PairsRight(now) && t < |now|
    ensures |r.0| == |now|
  {
    var was := now[t];
    match was.role
    case Sub => (now, false, false)
    case Single =>
      var a, d := Tick(was.lines[0], was.targetValue), Tick(was.lines[1], was.targetValue);
      (now[t := was.(lines := [a.0, d.0])], a.1, d.1)
    case Main =>
      var fine := now[t + 1];
      var a, d := TickPairAt(now, t, 0), TickPairAt(now, t, 1);
      (now[t := was.(lines := [a.0.coarse, d.0.coarse])]
          [t + 1 := fine.(lines := [WithFine(fine.lines[0], a.0.fine), WithFine(fine.lines[1], d.0.fine)])], a.1, d.1)
  }

  /** The first t tubes have had their tick; the next one has, too, if it is the partner of a main tube. */
  predicate TickedTo(now: seq<Tube>, before: seq<Tube>, t: nat) {
    && PairsRight(before) && |before| == |now| && t <= |now|
    && (forall i :: 0 <= i < t ==> now[i] == TickTube(before, i))
    && (forall i :: t < i < |now| ==> now[i] == before[i])
    && (t < |now| ==> now[t] == if t > 0 && before[t - 1].role == Main then TickTube(before, t) else before[t])
  }

  /** Some of the first t tubes runs a command. */
  predicate RunsAmong(tubes: seq<Tube>, mix: nat, t: nat)
    requires PairsRight(tubes) && mix < 2 && t <= |tubes|
  {
    exists i :: 0 <= i < t && Runs(tubes, mix, i)
  }

  lemma {:induction false} RunsNext(tubes: seq<Tube>, mix: nat, t: nat)
    requires PairsRight(tubes) && mix < 2 && t < |tubes|
    ensures RunsAmong(tubes, mix, t + 1) == (RunsAmong(tubes, mix, t) || TickLine(tubes, t, mix).1)
  {
    hide TickLine;
    assert Runs(tubes, mix, t) == TickLine(tubes, t, mix).1;
  }

  lemma {:induction false} TickDone(now: seq<Tube>, before: seq<Tube>)
    requires TickedTo(now, before, |now|)
    ensures now == TickTubes(before)
    ensures forall mix: nat :: mix < 2 ==> SomeRuns(before, mix) == RunsAmong(before, mix, |now|)
  {
    hide TickTube, Runs;
  }

  lemma {:induction false} TickedNext(now: seq<Tube>, before: seq<Tube>, t: nat)
    requires TickedTo(now, before, t) && t < |now| && PairsRight(now)
    ensures var (r, auto, direct) := TickAtTube(now, t);
            && TickedTo(r, before, t + 1)
            && auto == TickLine(before, t, 0).1 && direct == TickLine(before, t, 1).1
  {
    hide Tick, TickPair;
    assert now[t].role == before[t].role;
    match before[t].role
    case Sub =>
      assert before[t].lines == [before[t].lines[0], before[t].lines[1]];
    case Single =>
    case Main =>
      assert now[t] == before[t] && now[t + 1] == before[t + 1];
      assert PairOf(now, t, 0) == PairOf(before, t, 0) && PairOf(now, t, 1) == PairOf(before, t, 1);
  }
}
