/**
 Properly nested counted loops: a block written as LOOP lines plays the lines
 of the fully unrolled block, and leaves every counter at 0 again.
 */
module ScriptUnroll {
  import opened Common
  import opened ScriptMachine

  // Do: one line that does not loop. Repeat: a body closed by a counted LOOP line.
  datatype Block =
    | End
    | Do(line: Line, rest: Block)
    | Repeat(body: Block, execTimeMs: int, times: int, rest: Block)

  predicate Proper(b: Block) {
    match b
    case End => true
    case Do(line, rest) => !IsLoop(line) && Proper(rest)
    case Repeat(body, _, times, rest) => times != 0 && Proper(body) && Proper(rest)
  }

  /** No loop is left. */
  predicate Straight(b: Block) {
    match b
    case End => true
    case Do(line, rest) => Straight(rest)
    case Repeat(_, _, _, _) => false
  }

  /** The script text of a block whose first line has the 0-based number at. */
  function Flatten(b: Block, at: nat): seq<Line> {
    match b
    case End => []
    case Do(line, rest) => [line] + Flatten(rest, at + 1)
    case Repeat(body, execTimeMs, times, rest) =>
      var lines := Flatten(body, at);
      lines + [Line(execTimeMs, Loop([at + 1, times]))] + Flatten(rest, at + |lines| + 1)
  }

  function Append(a: Block, b: Block): Block {
    match a
    case End => b
    case Do(line, rest) => Do(line, Append(rest, b))
    case Repeat(body, execTimeMs, times, rest) => Repeat(body, execTimeMs, times, Append(rest, b))
  }

  function Copies(a: Block, k: nat, b: Block): Block {
    if k == 0 then b else Append(a, Copies(a, k - 1, b))
  }

  /** The block with every loop written out: a count below 1 plays its body once. */
  function Unroll(b: Block): Block {
    match b
    case End => End
    case Do(line, rest) => Do(line, Unroll(rest))
    case Repeat(body, _, times, rest) => Copies(Unroll(body), Max(1, times), Unroll(rest))
  }

  function Times(lines: seq<Line>, k: nat): seq<Line> {
    if k == 0 then [] else lines + Times(lines, k - 1)
  }

  /** The visible lines a block plays. */
  function Shown(b: Block): seq<Line> {
    match b
    case End => []
    case Do(line, rest) => Emit(line) + Shown(rest)
    case Repeat(body, _, times, rest) => Times(Shown(body), Max(1, times)) + Shown(rest)
  }

  lemma {:induction false} AppendShows(a: Block, b: Block)
    requires Straight(a)
    ensures Shown(Append(a, b)) == Shown(a) + Shown(b)
    ensures Proper(a) && Proper(b) ==> Proper(Append(a, b))
    ensures Straight(b) ==> Straight(Append(a, b))
  {
    match a
    case End =>
    case Do(line, rest) =>
      AppendShows(rest, b);
      assert Emit(line) + (Shown(rest) + Shown(b)) == (Emit(line) + Shown(rest)) + Shown(b);
  }

  lemma {:induction false} CopiesShow(a: Block, k: nat, b: Block)
    requires Straight(a) && Straight(b) && Proper(a) && Proper(b)
    ensures Shown(Copies(a, k, b)) == Times(Shown(a), k) + Shown(b)
    ensures Straight(Copies(a, k, b)) && Proper(Copies(a, k, b))
  {
    hide Append, Shown, Proper, Straight;
    if k > 0 {
      var rest := Copies(a, k - 1, b);
      CopiesShow(a, k - 1, b);
      AppendShows(a, rest);
      assert Copies(a, k, b) == Append(a, rest);
      assert Times(Shown(a), k) == Shown(a) + Times(Shown(a), k - 1);
      assert Shown(a) + (Times(Shown(a), k - 1) + Shown(b)) == (Shown(a) + Times(Shown(a), k - 1)) + Shown(b);
    }
  }

  /** Unrolling removes all loops and keeps what is played. */
  lemma {:induction false} UnrollShows(b: Block)
    requires Proper(b)
    ensures Straight(Unroll(b)) && Proper(Unroll(b)) && Shown(Unroll(b)) == Shown(b)
  {
    match b
    case End =>
    case Do(_, rest) =>
      UnrollShows(rest);
    case Repeat(body, _, times, rest) =>
      UnrollShows(body);
      UnrollShows(rest);
      CopiesShow(Unroll(body), Max(1, times), Unroll(rest));
  }

  // ----- A block in a script

  /** The block stands in the script at line at, with all its counters at 0. */
  predicate Placed(script: seq<Line>, m: Machine, b: Block, at: nat) {
    var len := |Flatten(b, at)|;
    && WellFormed(script, m)
    && at + len <= |script|
    && script[at..at + len] == Flatten(b, at)
    && forall i :: at <= i < at + len ==> m.count[i] == 0
  }

  lemma {:induction false} SlicePart<T>(s: seq<T>, at: nat, part: seq<T>, i: nat, j: nat)
    requires at + |part| <= |s| && s[at..at + |part|] == part && i <= j <= |part|
    ensures s[at + i..at + j] == part[i..j]
  {
    forall k | 0 <= k < j - i ensures s[at + i..at + j][k] == part[i..j][k] {
      assert part[i + k] == s[at..at + |part|][i + k] == s[at + i + k];
    }
  }

  /** The parts of a placed loop are placed. */
  lemma {:induction false} LoopParts(script: seq<Line>, m: Machine, b: Block, at: nat)
    requires b.Repeat? && b.times != 0 && Placed(script, m, b, at)
    ensures var loop := at + |Flatten(b.body, at)|;
            && loop < at + |Flatten(b, at)| <= |script|
            && Placed(script, m, b.body, at)
            && m.count[loop] == 0 && JumpAt(script, loop) == Counted(at, b.times)
            && loop + 1 + |Flatten(b.rest, loop + 1)| == at + |Flatten(b, at)|
            && Placed(script, m, b.rest, loop + 1)
  {
    var loop := at + |Flatten(b.body, at)|;
    var whole := Flatten(b, at);
    var tail := Flatten(b.rest, loop + 1);
    assert whole == Flatten(b.body, at) + [Line(b.execTimeMs, Loop([at + 1, b.times]))] + tail;
    hide Flatten;
    SlicePart(script, at, whole, 0, loop - at);
    SlicePart(script, at, whole, loop - at, loop - at + 1);
    SlicePart(script, at, whole, loop - at + 1, |whole|);
    assert script[loop] == script[loop..loop + 1][0];
  }

  lemma {:induction false} DoParts(script: seq<Line>, m: Machine, b: Block, at: nat)
    requires b.Do? && Placed(script, m, b, at)
    ensures at < |script| && script[at] == b.line && Placed(script, m.(pc := at + 1), b.rest, at + 1)
    ensures |Flatten(b, at)| == 1 + |Flatten(b.rest, at + 1)|
  {
    var whole, tail := Flatten(b, at), Flatten(b.rest, at + 1);
    assert whole == [b.line] + tail;
    hide Flatten;
    SlicePart(script, at, whole, 0, 1);
    SlicePart(script, at, whole, 1, |whole|);
    assert script[at] == script[at..at + 1][0];
  }

  /** From its first line a block runs through its lines to the line after it and restores all counters. */
  lemma {:induction false} BlockRuns(script: seq<Line>, m: Machine, b: Block, at: nat) returns (n: nat)
    requires Proper(b) && Placed(script, m, b, at) && m.pc == at
    ensures RunsTo(script, m, n, m.(pc := at + |Flatten(b, at)|), Shown(b))
    decreases b, 1
  {
    hide Run, Trace;
    match b
    case End =>
      RunsNowhere(script, m);
      n := 0;
    case Do(line, rest) =>
      DoParts(script, m, b, at);
      LineRuns(script, m);
      var next := m.(pc := at + 1);
      var k := BlockRuns(script, next, rest, at + 1);
      RunsOn(script, m, 1, next, Emit(line), k, m.(pc := at + |Flatten(b, at)|), Shown(rest));
      n := 1 + k;
    case Repeat(_, _, _, _) =>
      n := RepeatRuns(script, m, b, at);
  }

  lemma {:induction false} RepeatRuns(script: seq<Line>, m: Machine, b: Block, at: nat) returns (n: nat)
    requires b.Repeat? && Proper(b) && Placed(script, m, b, at) && m.pc == at
    ensures RunsTo(script, m, n, m.(pc := at + |Flatten(b, at)|), Shown(b))
    decreases b, 0
  {
    hide Run, Trace, Flatten;
    LoopParts(script, m, b, at);
    var loop, end := at + |Flatten(b.body, at)|, at + |Flatten(b, at)|;
    var next := m.(pc := loop + 1);
    assert m.count[loop := 0] == m.count;
    var i := RoundsRun(script, m, b.body, b.times, at, loop, Max(1, b.times));
    var j := BlockRuns(script, next, b.rest, loop + 1);
    RunsOn(script, m, i, next, Times(Shown(b.body), Max(1, b.times)), j, m.(pc := end), Shown(b.rest));
    n := i + j;
  }

  /** The last `left` rounds of a loop; its counter holds the rounds before. */
  lemma {:induction false} RoundsRun(script: seq<Line>, m: Machine, body: Block, times: int, at: nat, loop: nat,
                                     left: nat)
      returns (n: nat)
    requires Proper(body) && times != 0 && Placed(script, m, body, at) && m.pc == at
    requires loop == at + |Flatten(body, at)| < |script| && JumpAt(script, loop) == Counted(at, times)
    requires 1 <= left <= Max(1, times) && m.count[loop] == Max(1, times) - left
    ensures RunsTo(script, m, n, Machine(loop + 1, m.count[loop := 0]), Times(Shown(body), left))
    decreases body, 2, left
  {
    hide Run, Trace, Flatten;
    var k := BlockRuns(script, m, body, at);
    var back := m.(pc := loop);
    LineRuns(script, back);
    var next := Dispatch(script, back);
    RunsOn(script, m, k, back, Shown(body), 1, next, []);
    n := k + 1;
    if left > 1 {
      assert next == Machine(at, m.count[loop := Max(1, times) - left + 1]);
      assert next.count[loop := 0] == m.count[loop := 0];
      var j := RoundsRun(script, next, body, times, at, loop, left - 1);
      RunsOn(script, m, k + 1, next, Shown(body), j, Machine(loop + 1, m.count[loop := 0]), Times(Shown(body), left - 1));
      n := k + 1 + j;
    }
  }

  /** A script of nested counted loops ends with all counters at 0, having played the lines of the block. */
  lemma {:induction false} NestedScriptRuns(b: Block) returns (n: nat)
    requires Proper(b)
    ensures var script := Flatten(b, 0);
            RunsTo(script, Start(script), n, Start(script).(pc := |script|), Shown(b))
  {
    n := BlockRuns(Flatten(b, 0), Start(Flatten(b, 0)), b, 0);
  }

  /** Run to the end, the loop form and the unrolled form of a script play the same lines. */
  lemma {:induction false} LoopFormEqualsUnrolledForm(b: Block, i: nat, j: nat)
    requires Proper(b)
    requires Finished(Flatten(b, 0), Run(Flatten(b, 0), Start(Flatten(b, 0)), i))
    requires Finished(Flatten(Unroll(b), 0), Run(Flatten(Unroll(b), 0), Start(Flatten(Unroll(b), 0)), j))
    ensures Trace(Flatten(b, 0), Start(Flatten(b, 0)), i)
         == Trace(Flatten(Unroll(b), 0), Start(Flatten(Unroll(b), 0)), j)
  {
    UnrollShows(b);
    EndOfNested(b, i);
    EndOfNested(Unroll(b), j);
  }

  lemma {:induction false} EndOfNested(b: Block, i: nat)
    requires Proper(b) && Finished(Flatten(b, 0), Run(Flatten(b, 0), Start(Flatten(b, 0)), i))
    ensures Trace(Flatten(b, 0), Start(Flatten(b, 0)), i) == Shown(b)
  {
    var script, m := Flatten(b, 0), Start(Flatten(b, 0));
    var n := NestedScriptRuns(b);
    FinishedStays(script, m, n, Max(n, i));
    FinishedStays(script, m, i, Max(n, i));
  }
}
