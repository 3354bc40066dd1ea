/**
 The goto machine behind script playback: which line runs next and what the
 counters of LOOP lines become. Time plays no role here; it only decides how
 a run is cut into calls (module ScriptPlayback).
 */
module ScriptMachine {
  import opened Common

  // The parameters of LOOP are its blank-separated words, read as integers
  // (0 when a word is no number).
  datatype Command =
    | Wait(delayMs: int)
    | Pause
    | Loop(paras: seq<int>)
    | Effect(code: int)

  // Blank: empty line, comment, or a command word of at most two letters.
  // execTimeMs is -1 for a line without an absolute time.
  datatype Line = Blank(execTimeMs: int) | Line(execTimeMs: int, cmd: Command)

  predicate IsLoop(line: Line) {
    line.Line? && line.cmd.Loop?
  }

  // pc is the 0-based current line, count the loop counter of every line.
  datatype Machine = Machine(pc: int, count: seq<int>)

  // What a LOOP line asks for; targets are 0-based here, 1-based in the text.
  datatype Jump = Always(target: int) | Invalid | Counted(target: int, times: int)

  function JumpOf(size: nat, paras: seq<int>): Jump {
    if |paras| == 0 then Always(0)
    else if paras[0] == 0 || paras[0] > size then Invalid
    else if |paras| == 1 then Always(paras[0] - 1)
    else if paras[1] == 0 then Invalid
    else Counted(paras[0] - 1, paras[1])
  }

  /** What line i asks for; Invalid also for a line that is no LOOP: the run just goes on. */
  function JumpAt(script: seq<Line>, i: nat): Jump
    requires i < |script|
  {
    if IsLoop(script[i]) then JumpOf(|script|, script[i].cmd.paras) else Invalid
  }

  predicate WellFormed(script: seq<Line>, m: Machine) {
    |m.count| == |script|
  }

  predicate Finished(script: seq<Line>, m: Machine) {
    m.pc < 0 || |script| <= m.pc
  }

  function Start(script: seq<Line>): (m: Machine)
    ensures WellFormed(script, m)
  {
    Machine(0, seq(|script|, _ => 0))
  }

  function ExecLoop(script: seq<Line>, m: Machine, paras: seq<int>): (r: Machine)
    requires WellFormed(script, m) && !Finished(script, m)
    ensures WellFormed(script, r)
  {
    var visits := m.count[m.pc] + 1;
    match JumpOf(|script|, paras)
    case Always(target) => Machine(target, m.count[m.pc := visits])
    case Invalid => Machine(m.pc + 1, m.count[m.pc := visits])
    case Counted(target, times) =>
      if visits >= times then Machine(m.pc + 1, m.count[m.pc := 0])
      else Machine(target, m.count[m.pc := visits])
  }

  /** Executes the current line. */
  function Dispatch(script: seq<Line>, m: Machine): (r: Machine)
    requires WellFormed(script, m) && !Finished(script, m)
    ensures WellFormed(script, r)
  {
    var line := script[m.pc];
    if IsLoop(line) then ExecLoop(script, m, line.cmd.paras)
    else m.(pc := m.pc + 1)
  }

  /** The state after n lines, or at the end of the script if that comes first. */
  function Run(script: seq<Line>, m: Machine, n: nat): (r: Machine)
    requires WellFormed(script, m)
    ensures WellFormed(script, r)
    decreases n
  {
    if n == 0 || Finished(script, m) then m else Run(script, Dispatch(script, m), n - 1)
  }

  /** A line is seen by the outside world unless it is blank or only steers. */
  function Emit(line: Line): seq<Line> {
    if line.Blank? || IsLoop(line) then [] else [line]
  }

  /** The visible lines among the first n executed ones, in order. */
  function Trace(script: seq<Line>, m: Machine, n: nat): seq<Line>
    requires WellFormed(script, m)
    decreases n
  {
    if n == 0 || Finished(script, m) then []
    else Emit(script[m.pc]) + Trace(script, Dispatch(script, m), n - 1)
  }

  lemma {:induction false} RunSplit(script: seq<Line>, m: Machine, i: nat, j: nat)
    requires WellFormed(script, m)
    ensures Run(script, m, i + j) == Run(script, Run(script, m, i), j)
    ensures Trace(script, m, i + j) == Trace(script, m, i) + Trace(script, Run(script, m, i), j)
    decreases i
  {
    if i != 0 && !Finished(script, m) {
      RunSplit(script, Dispatch(script, m), i - 1, j);
    }
  }

  lemma {:induction false} FinishedStays(script: seq<Line>, m: Machine, n: nat, k: nat)
    requires WellFormed(script, m) && n <= k && Finished(script, Run(script, m, n))
    ensures Run(script, m, k) == Run(script, m, n) && Trace(script, m, k) == Trace(script, m, n)
  {
    RunSplit(script, m, n, k - n);
  }

  /** n lines take the run from m to the state `to`, playing `lines`. */
  ghost predicate RunsTo(script: seq<Line>, m: Machine, n: nat, to: Machine, lines: seq<Line>)
    requires WellFormed(script, m)
  {
    Run(script, m, n) == to && Trace(script, m, n) == lines
  }

  lemma {:induction false} RunsOn(script: seq<Line>, m: Machine, i: nat, mid: Machine, a: seq<Line>, j: nat, to: Machine, b: seq<Line>)
    requires WellFormed(script, m) && WellFormed(script, mid)
    requires RunsTo(script, m, i, mid, a) && RunsTo(script, mid, j, to, b)
    ensures RunsTo(script, m, i + j, to, a + b)
  {
    RunSplit(script, m, i, j);
  }

  lemma {:induction false} RunsNowhere(script: seq<Line>, m: Machine)
    requires WellFormed(script, m)
    ensures RunsTo(script, m, 0, m, [])
  {
  }

  lemma {:induction false} LineRuns(script: seq<Line>, m: Machine)
    requires WellFormed(script, m) && !Finished(script, m)
    ensures RunsTo(script, m, 1, Dispatch(script, m), Emit(script[m.pc]))
  {
  }
}
