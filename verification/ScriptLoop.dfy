/** Where a LOOP goes on and what an endless one plays, read off the lines as they are written. */
module ScriptLoops {
  import opened Common
  import opened ScriptMachine
  import opened ScriptTermination

  /**
   The line after a LOOP, in every run: the first one without parameters; the one behind it if the line number
   is 0 or beyond the end or the count is 0; else the numbered one, with a count except at every such visit.
   */
  lemma {:induction false} LoopGoesOn(script: seq<Line>, n: nat)
    requires var m := Run(script, Start(script), n); !Finished(script, m) && IsLoop(script[m.pc])
    ensures var m, next := Run(script, Start(script), n), Run(script, Start(script), n + 1).pc;
            var paras, visits := script[m.pc].cmd.paras, Hits(script, Start(script), n, m.pc) + 1;
            if |paras| == 0 then next == 0
            else if paras[0] == 0 || paras[0] > |script| then next == m.pc + 1
            else if |paras| == 1 then next == paras[0] - 1
            else if paras[1] == 0 || (1 <= paras[1] && visits % paras[1] == 0) || paras[1] < 0 then next == m.pc + 1
            else next == paras[0] - 1
  {
    hide Run, Hits;
    var m := Run(script, Start(script), n);
    RunNext(script, Start(script), n + 1);
    if JumpAt(script, m.pc).Counted? {
      PassesEveryRound(script, n);
    }
  }

  // ----- Endless loops

  /** The lines that hold a command. */
  function Commands(lines: seq<Line>): seq<Line> {
    if lines == [] then [] else (if lines[0].Line? then [lines[0]] else []) + Commands(lines[1..])
  }

  function Repeated(lines: seq<Line>, k: nat): seq<Line> {
    if k == 0 then [] else lines + Repeated(lines, k - 1)
  }

  predicate NoLoops(lines: seq<Line>) {
    forall i :: 0 <= i < |lines| ==> !IsLoop(lines[i])
  }

  /** Lines without LOOP are played one after the other. */
  lemma {:induction false} LinesRun(script: seq<Line>, m: Machine, last: nat)
    requires WellFormed(script, m) && 0 <= m.pc <= last <= |script| && NoLoops(script[m.pc..last])
    ensures RunsTo(script, m, last - m.pc, Machine(last, m.count), Commands(script[m.pc..last]))
    decreases last - m.pc
  {
    var lines := script[m.pc..last];
    if m.pc == last {
      RunsNowhere(script, m);
    } else {
      var next := Machine(m.pc + 1, m.count);
      assert lines[0] == script[m.pc] && lines[1..] == script[m.pc + 1..last];
      assert forall i :: 0 <= i < |lines[1..]| ==> lines[1..][i] == lines[i + 1];
      assert Dispatch(script, m) == next;
      LineRuns(script, m);
      LinesRun(script, next, last);
      RunsOn(script, m, 1, next, Emit(script[m.pc]), last - next.pc, Machine(last, m.count), Commands(lines[1..]));
    }
  }

  /** A LOOP without count to the line behind the head, on the last line. */
  predicate EndlessScript(script: seq<Line>, head: seq<Line>, body: seq<Line>) {
    && |script| == |head| + |body| + 1 && script[..|head| + |body|] == head + body && NoLoops(head) && NoLoops(body)
    && var loop := script[|script| - 1];
       IsLoop(loop) && (loop.cmd.paras == [|head| + 1] || (head == [] && loop.cmd.paras == []))
  }

  lemma {:induction false} RoundRuns(script: seq<Line>, head: seq<Line>, body: seq<Line>, m: Machine) returns (next: Machine)
    requires EndlessScript(script, head, body) && WellFormed(script, m) && m.pc == |head|
    ensures WellFormed(script, next) && next.pc == |head| && RunsTo(script, m, |body| + 1, next, Commands(body))
  {
    hide RunsTo;
    var end := |head| + |body|;
    assert script[|head|..end] == script[..end][|head|..] == body;
    LinesRun(script, m, end);
    var at := Machine(end, m.count);
    next := Dispatch(script, at);
    LineRuns(script, at);
    RunsOn(script, m, |body|, at, Commands(body), 1, next, []);
    assert Commands(body) + [] == Commands(body);
  }

  lemma {:induction false} BodyRunsOn(script: seq<Line>, head: seq<Line>, body: seq<Line>, m: Machine, k: nat)
    requires EndlessScript(script, head, body) && WellFormed(script, m) && m.pc == |head|
    ensures Run(script, m, k * (|body| + 1)).pc == |head|
    ensures Trace(script, m, k * (|body| + 1)) == Repeated(Commands(body), k)
    decreases k
  {
    hide EndlessScript, Run, Trace, Commands;
    if k == 0 {
      RunsNowhere(script, m);
    } else {
      var round := |body| + 1;
      var next := RoundRuns(script, head, body, m);
      BodyRunsOn(script, head, body, next, k - 1);
      assert k * round == round + (k - 1) * round;
      RunSplit(script, m, round, (k - 1) * round);
    }
  }

  /** Such a script plays its head once and its body again and again. */
  lemma {:induction false} EndlessScriptPlays(script: seq<Line>, head: seq<Line>, body: seq<Line>, k: nat)
    requires EndlessScript(script, head, body)
    ensures Trace(script, Start(script), |head| + k * (|body| + 1)) == Commands(head) + Repeated(Commands(body), k)
  {
    var m := Start(script);
    assert script[0..|head|] == script[..|head| + |body|][..|head|] == head;
    LinesRun(script, m, |head|);
    var at := Machine(|head|, m.count);
    BodyRunsOn(script, head, body, at, k);
    RunSplit(script, m, |head|, k * (|body| + 1));
  }

  /** Without LOOP every line is played once. */
  lemma {:induction false} PlainScriptPlays(script: seq<Line>)
    requires NoLoops(script)
    ensures Trace(script, Start(script), |script|) == Commands(script) && Finished(script, Run(script, Start(script), |script|))
  {
    assert script[0..|script|] == script;
    LinesRun(script, Start(script), |script|);
  }
}
