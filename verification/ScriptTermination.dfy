/**
 Which scripts end. A counted LOOP falls through on every max(1, count)-th
 visit, wherever it jumps, so a script without uncounted LOOPs ends; with
 backward jumps only, that is also the only way to end.
 */
module ScriptTermination {
  import opened Common
  import opened ScriptMachine

  /** Every LOOP that can jump carries a count. */
  predicate AllCounted(script: seq<Line>) {
    forall i {:trigger JumpAt(script, i)} :: 0 <= i < |script| ==> !JumpAt(script, i).Always?
  }

  /** The same for the first i lines. */
  predicate CountedBelow(script: seq<Line>, i: nat)
    requires i <= |script|
  {
    forall k {:trigger JumpAt(script, k)} :: 0 <= k < i ==> !JumpAt(script, k).Always?
  }

  /** The number of visits after which line i lets the run pass. */
  function Rounds(script: seq<Line>, i: nat): (k: int)
    requires i < |script|
    ensures 1 <= k
  {
    match JumpAt(script, i)
    case Counted(_, times) => Max(1, times)
    case _ => 1
  }

  function Visits(script: seq<Line>, m: Machine, i: nat): int
    requires WellFormed(script, m) && i < |script|
  {
    if JumpAt(script, i).Counted? then m.count[i] else 0
  }

  /** The counters of a run: a counted LOOP is always short of its last round. */
  predicate CountersInRange(script: seq<Line>, m: Machine) {
    WellFormed(script, m) &&
    forall i {:trigger Visits(script, m, i)} :: 0 <= i < |script| ==> 0 <= Visits(script, m, i) < Rounds(script, i)
  }

  /** The most lines a run can execute while it stays among the first i lines. */
  function Budget(script: seq<Line>, i: nat): nat
    requires i <= |script|
  {
    if i == 0 then 0 else Rounds(script, i - 1) * (Budget(script, i - 1) + 1)
  }

  /** What line i alone still allows: its open rounds, each with a full pass over the lines before it. */
  function Share(script: seq<Line>, m: Machine, i: nat): int
    requires WellFormed(script, m) && i < |script|
  {
    (Rounds(script, i) - Visits(script, m, i)) * (Budget(script, i) + 1) - Budget(script, i)
  }

  /** The lines that can still run before the run leaves the first i lines: the decreasing measure. */
  function Remaining(script: seq<Line>, m: Machine, i: nat): int
    requires WellFormed(script, m) && i <= |script|
  {
    if i == 0 || m.pc < 0 || i <= m.pc then 0
    else Remaining(script, m, i - 1) + Share(script, m, i - 1)
  }

  lemma {:induction false} ShareBounds(script: seq<Line>, m: Machine, i: nat)
    requires CountersInRange(script, m) && i < |script|
    ensures 1 <= Share(script, m, i) <= Budget(script, i + 1) - Budget(script, i)
  {
    var open, b := Rounds(script, i) - Visits(script, m, i), Budget(script, i) + 1;
    assert 1 <= open <= Rounds(script, i);
    assert b <= open * b <= Rounds(script, i) * b;
  }

  lemma {:induction false} RemainingBounds(script: seq<Line>, m: Machine, i: nat)
    requires CountersInRange(script, m) && i <= |script|
    ensures 0 <= Remaining(script, m, i) <= Budget(script, i)
    ensures 0 <= m.pc < i ==> 1 <= Remaining(script, m, i)
  {
    if i > 0 {
      RemainingBounds(script, m, i - 1);
      ShareBounds(script, m, i - 1);
    }
  }

  lemma {:induction false} DispatchKeepsRange(script: seq<Line>, m: Machine)
    requires CountersInRange(script, m) && !Finished(script, m)
    ensures CountersInRange(script, Dispatch(script, m))
    ensures forall i {:trigger Visits(script, m, i)} :: 0 <= i < |script| && i != m.pc
              ==> Visits(script, Dispatch(script, m), i) == Visits(script, m, i)
  {
    var r := Dispatch(script, m);
    assert Visits(script, m, m.pc) < Rounds(script, m.pc);
    forall i {:trigger Visits(script, r, i)} | 0 <= i < |script|
      ensures 0 <= Visits(script, r, i) < Rounds(script, i)
      ensures i != m.pc ==> Visits(script, r, i) == Visits(script, m, i)
    {
      assert 0 <= Visits(script, m, i) < Rounds(script, i);
    }
  }

  /** A LOOP that jumps pays one of its rounds. */
  lemma {:induction false} JumpPays(script: seq<Line>, m: Machine)
    requires CountersInRange(script, m) && !Finished(script, m) && !JumpAt(script, m.pc).Always?
    requires Dispatch(script, m).pc != m.pc + 1
    ensures Share(script, Dispatch(script, m), m.pc) == Share(script, m, m.pc) - Budget(script, m.pc) - 1
  {
  }

  lemma {:induction false} DispatchDecreases(script: seq<Line>, m: Machine, i: nat)
    requires 0 <= m.pc < i <= |script| && CountedBelow(script, i) && CountersInRange(script, m)
    ensures Remaining(script, Dispatch(script, m), i) < Remaining(script, m, i)
    decreases i
  {
    var r := Dispatch(script, m);
    DispatchKeepsRange(script, m);
    RemainingBounds(script, m, i);
    if 0 <= r.pc < i {
      if i == m.pc + 1 {
        RemainingBounds(script, r, m.pc);
        JumpPays(script, m);
      } else {
        DispatchDecreases(script, m, i - 1);
        assert Visits(script, m, i - 1) == Visits(script, r, i - 1);
      }
    }
  }

  lemma {:induction false} StartInRange(script: seq<Line>)
    ensures CountersInRange(script, Start(script))
  {
  }

  lemma {:induction false} RunEnds(script: seq<Line>, m: Machine, n: nat)
    requires AllCounted(script) && CountersInRange(script, m)
    requires Remaining(script, m, |script|) <= n
    ensures Finished(script, Run(script, m, n))
    decreases n
  {
    RemainingBounds(script, m, |script|);
    if !Finished(script, m) {
      DispatchKeepsRange(script, m);
      DispatchDecreases(script, m, |script|);
      RunEnds(script, Dispatch(script, m), n - 1);
    }
  }

  /** Whatever the targets (backward, forward, overlapping), a script of counted loops ends within its budget. */
  lemma {:induction false} CountedScriptEnds(script: seq<Line>)
    requires AllCounted(script)
    ensures Finished(script, Run(script, Start(script), Budget(script, |script|)))
  {
    StartInRange(script);
    RemainingBounds(script, Start(script), |script|);
    RunEnds(script, Start(script), Budget(script, |script|));
  }

  // ----- When a counted LOOP lets the run pass

  /** The run stands at a counted LOOP that is in its last round: it goes on with the next line. */
  predicate LetsPass(script: seq<Line>, m: Machine)
    requires WellFormed(script, m)
  {
    && !Finished(script, m)
    && JumpAt(script, m.pc).Counted? && JumpAt(script, m.pc).times <= m.count[m.pc] + 1
  }

  /** How often line i is executed among the first n lines of a run. */
  function Hits(script: seq<Line>, m: Machine, n: nat, i: nat): nat
    requires WellFormed(script, m)
  {
    if n == 0 then 0
    else
      var before := Run(script, m, n - 1);
      Hits(script, m, n - 1, i) + if !Finished(script, before) && before.pc == i then 1 else 0
  }

  lemma {:induction false} NoMultipleBetween(d: int, k: int)
    requires -k < d * k < k
    ensures d == 0
  {
  }

  lemma {:induction false} RemainderIs(a: nat, q: int, r: int, k: nat)
    requires a == q * k + r && 0 <= r < k
    ensures a % k == r
  {
    var d := a / k - q;
    assert d * k == (a / k) * k - q * k == r - a % k;
    NoMultipleBetween(d, k);
  }

  lemma {:induction false} NextRemainder(a: nat, k: nat)
    requires 0 < k
    ensures (a + 1) % k == if a % k + 1 == k then 0 else a % k + 1
  {
    var q, r := a / k, a % k;
    assert a == q * k + r;
    if r + 1 == k {
      assert (q + 1) * k == q * k + k;
      RemainderIs(a + 1, q + 1, 0, k);
    } else {
      RemainderIs(a + 1, q, r + 1, k);
    }
  }

  lemma {:induction false} RunNext(script: seq<Line>, m: Machine, n: nat)
    requires WellFormed(script, m) && n > 0
    ensures var before := Run(script, m, n - 1);
            Run(script, m, n) == if Finished(script, before) then before else Dispatch(script, before)
  {
    RunSplit(script, m, n - 1, 1);
    var before := Run(script, m, n - 1);
    if !Finished(script, before) {
      assert Run(script, before, 1) == Run(script, Dispatch(script, before), 0);
    }
  }

  /** Wherever it is reached from, a counter holds the number of visits to its line modulo the rounds of the loop. */
  lemma {:induction false} CounterIsHits(script: seq<Line>, n: nat, i: nat)
    requires i < |script| && JumpAt(script, i).Counted?
    ensures CountersInRange(script, Run(script, Start(script), n))
    ensures Visits(script, Run(script, Start(script), n), i) == Hits(script, Start(script), n, i) % Rounds(script, i)
  {
    hide Run;
    var m, k := Start(script), Rounds(script, i);
    if n == 0 {
      StartInRange(script);
      assert Run(script, m, 0) == m by { RunsNowhere(script, m); }
      RemainderIs(0, 0, 0, k);
    } else {
      CounterIsHits(script, n - 1, i);
      var before, hits := Run(script, m, n - 1), Hits(script, m, n - 1, i);
      RunNext(script, m, n);
      if !Finished(script, before) {
        DispatchKeepsRange(script, before);
        NextRemainder(hits, k);
        if before.pc == i {
          CounterNext(script, before);
        }
      }
    }
  }

  lemma {:induction false} CounterNext(script: seq<Line>, m: Machine)
    requires CountersInRange(script, m) && !Finished(script, m) && JumpAt(script, m.pc).Counted?
    ensures var v, k := Visits(script, m, m.pc), Rounds(script, m.pc);
            && (LetsPass(script, m) <==> v + 1 == k)
            && Visits(script, Dispatch(script, m), m.pc) == if v + 1 == k then 0 else v + 1
  {
    assert 0 <= Visits(script, m, m.pc) < Rounds(script, m.pc);
  }

  /**
   In every script, whatever its other lines do, a counted LOOP lets the run
   pass at exactly every max(1, count)-th visit, and jumps to its target otherwise.
   */
  lemma {:induction false} PassesEveryRound(script: seq<Line>, n: nat)
    requires var m := Run(script, Start(script), n); !Finished(script, m) && JumpAt(script, m.pc).Counted?
    ensures var m := Run(script, Start(script), n);
            && (LetsPass(script, m) <==> (Hits(script, Start(script), n, m.pc) + 1) % Rounds(script, m.pc) == 0)
            && Dispatch(script, m).pc == if LetsPass(script, m) then m.pc + 1 else JumpAt(script, m.pc).target
  {
    hide Run, Hits, Rounds;
    var m := Run(script, Start(script), n);
    CounterIsHits(script, n, m.pc);
    CounterNext(script, m);
    NextRemainder(Hits(script, Start(script), n, m.pc), Rounds(script, m.pc));
  }

  // ----- Targets in front of the script

  predicate Jumps(script: seq<Line>, m: Machine)
    requires WellFormed(script, m)
  {
    !Finished(script, m) && !JumpAt(script, m.pc).Invalid? && !LetsPass(script, m)
  }

  /** A LOOP that jumps ends the script exactly if its target, as written, is a negative number. */
  lemma {:induction false} JumpEndsIff(script: seq<Line>, m: Machine)
    requires WellFormed(script, m) && Jumps(script, m)
    ensures var paras := script[m.pc].cmd.paras;
            Finished(script, Dispatch(script, m)) <==> paras != [] && paras[0] < 0
  {
  }

  /** LOOP -1 on the second of three lines: the third one is never played. */
  lemma {:induction false} NegativeTargetWitness(line: Line)
    requires !IsLoop(line)
    ensures var script := [line, Line(-1, Loop([-1])), line];
            Finished(script, Run(script, Start(script), 2)) && Trace(script, Start(script), 3) == Emit(line)
  {
    var script := [line, Line(-1, Loop([-1])), line];
    var m1 := Dispatch(script, Start(script));
    var m2 := Dispatch(script, m1);
    assert m2.pc == -2;
    assert Run(script, Start(script), 2) == Run(script, m1, 1) == Run(script, m2, 0);
    assert Trace(script, m2, 1) == [];
    assert Trace(script, m1, 2) == [] + Trace(script, m2, 1);
  }

  // ----- Scripts that do not end

  /** All jumps go to the own line or before it, and to a line that exists. */
  predicate BackwardOnly(script: seq<Line>) {
    forall i {:trigger JumpAt(script, i)} :: 0 <= i < |script| ==>
      var j := JumpAt(script, i);
      j.Invalid? || 0 <= j.target <= i
  }

  /** A run among the first i + 1 lines cannot get past an uncounted LOOP on line i. */
  lemma {:induction false} Trapped(script: seq<Line>, m: Machine, i: nat, n: nat)
    requires BackwardOnly(script) && WellFormed(script, m)
    requires i < |script| && JumpAt(script, i).Always? && 0 <= m.pc <= i
    ensures 0 <= Run(script, m, n).pc <= i
    decreases n
  {
    if n > 0 {
      assert JumpAt(script, m.pc).Invalid? || 0 <= JumpAt(script, m.pc).target <= m.pc;
      Trapped(script, Dispatch(script, m), i, n - 1);
    }
  }

  predicate EndsAfter(script: seq<Line>, n: nat) {
    Finished(script, Run(script, Start(script), n))
  }

  /** With backward jumps only, a script ends exactly if no LOOP that can jump lacks a count. */
  lemma {:induction false} BackwardScriptEndsIff(script: seq<Line>)
    requires BackwardOnly(script)
    ensures (exists n: nat :: EndsAfter(script, n)) <==> AllCounted(script)
  {
    if AllCounted(script) {
      CountedScriptEnds(script);
      assert EndsAfter(script, Budget(script, |script|));
    } else {
      var i :| 0 <= i < |script| && JumpAt(script, i).Always?;
      forall n: nat ensures !EndsAfter(script, n) {
        Trapped(script, Start(script), i, n);
      }
    }
  }
}
