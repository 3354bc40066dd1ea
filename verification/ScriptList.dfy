/** The list of script lines with its cached duration. */
module ScriptLists {
  import opened ScriptMachine

  /** The time a line takes: only WAIT lasts. */
  function LineDuration(line: Line): int {
    if line.Line? && line.cmd.Wait? then line.cmd.delayMs else 0
  }

  /** The full fold over the list, in which a positive absolute time resets the running sum. */
  function Duration(lines: seq<Line>): int {
    if lines == [] then 0
    else
      var last := lines[|lines| - 1];
      if last.execTimeMs > 0 then last.execTimeMs
      else Duration(lines[..|lines| - 1]) + LineDuration(last)
  }

  function WaitSum(lines: seq<Line>): int {
    if lines == [] then 0 else LineDuration(lines[0]) + WaitSum(lines[1..])
  }

  /** The duration is the last positive absolute time plus the waits behind it. */
  lemma {:induction false} DurationAfter(head: seq<Line>, lines: seq<Line>)
    requires forall i :: 0 <= i < |lines| ==> lines[i].execTimeMs <= 0
    ensures Duration(head + lines) == Duration(head) + WaitSum(lines)
    decreases |lines|
  {
    if lines == [] {
      assert head + lines == head;
    } else {
      assert (head + [lines[0]])[..|head|] == head;
      assert head + [lines[0]] + lines[1..] == head + lines;
      DurationAfter(head + [lines[0]], lines[1..]);
    }
  }

  // ----- From the raw text to lines

  const SEPARATOR := ';'

  /** The pieces with text added to the last one. */
  function Lengthened(pieces: seq<string>, text: string): (r: seq<string>)
    requires pieces != []
    ensures |r| == |pieces|
  {
    pieces[..|pieces| - 1] + [pieces[|pieces| - 1] + text]
  }

  lemma {:induction false} LengthenedTwice(pieces: seq<string>, a: string, b: string)
    requires pieces != []
    ensures Lengthened(pieces, []) == pieces
    ensures Lengthened(Lengthened(pieces, a), b) == Lengthened(pieces, a + b)
  {
    var last := pieces[|pieces| - 1];
    assert last + [] == last && (last + a) + b == last + (a + b);
  }

  /** The pieces of a text between separators; an empty text is one empty piece. */
  function Split(raw: string): (pieces: seq<string>)
    ensures pieces != []
  {
    if raw == [] then [[]]
    else
      var last := |raw| - 1;
      if raw[last] == SEPARATOR then Split(raw[..last]) + [[]] else Lengthened(Split(raw[..last]), [raw[last]])
  }

  function Join(pieces: seq<string>): string
    requires pieces != []
  {
    if |pieces| == 1 then pieces[0]
    else Join(pieces[..|pieces| - 1]) + [SEPARATOR] + pieces[|pieces| - 1]
  }

  /** No text is lost, and every separator ends a line, even an empty one. */
  lemma {:induction false} SplitLosesNothing(raw: string)
    ensures Join(Split(raw)) == raw
    ensures forall p :: p in Split(raw) ==> SEPARATOR !in p
    decreases |raw|
  {
    if raw != [] {
      var init := Split(raw[..|raw| - 1]);
      SplitLosesNothing(raw[..|raw| - 1]);
      assert raw == raw[..|raw| - 1] + [raw[|raw| - 1]];
      if raw[|raw| - 1] == SEPARATOR {
        assert (init + [[]])[..|init|] == init;
      } else {
        var n := |init| - 1;
        var pieces := Lengthened(init, [raw[|raw| - 1]]);
        assert pieces[..n] == init[..n] && init[n] in init;
        forall p | p in pieces ensures SEPARATOR !in p {
          assert p in init[..n] || p == init[n] + [raw[|raw| - 1]];
        }
      }
    }
  }

  lemma {:induction false} SeparatorEndsPiece(text: string)
    ensures Split(text + [SEPARATOR]) == Split(text) + [[]]
  {
  }

  lemma {:induction false} JoinNext(pieces: seq<string>, last: string)
    requires pieces != []
    ensures Join(pieces + [last]) == Join(pieces) + [SEPARATOR] + last
  {
  }

  /** Lines without separators come back as they were joined. */
  lemma {:induction false} SplitOfJoin(pieces: seq<string>)
    requires pieces != [] && forall i :: 0 <= i < |pieces| ==> SEPARATOR !in pieces[i]
    ensures Split(Join(pieces)) == pieces
    decreases |pieces|
  {
    hide Lengthened, Split;
    var n := |pieces| - 1;
    var init, last := pieces[..n], pieces[n];
    assert init + [last] == pieces;
    LastLengthened(init, last);
    if n == 0 {
      FirstPiece(last);
    } else {
      hide Join;
      SplitOfJoin(init);
      JoinNext(init, last);
      SeparatorEndsPiece(Join(init));
      SplitTail(Join(init) + [SEPARATOR], last);
    }
  }

  lemma {:induction false} FirstPiece(piece: string)
    requires SEPARATOR !in piece
    ensures Split(piece) == [piece]
  {
    SplitTail([], piece);
    assert [] + piece == piece;
  }

  lemma {:induction false} LastLengthened(pieces: seq<string>, text: string)
    ensures Lengthened(pieces + [[]], text) == pieces + [text]
  {
    assert (pieces + [[]])[..|pieces|] == pieces && [] + text == text;
  }

  /** Text without a separator only lengthens the last piece. */
  lemma {:induction false} SplitTail(text: string, tail: string)
    requires SEPARATOR !in tail
    ensures Split(text + tail) == Lengthened(Split(text), tail)
    decreases |tail|
  {
    hide Lengthened;
    if tail == [] {
      assert text + tail == text;
      LengthenedTwice(Split(text), [], []);
    } else {
      var last := |tail| - 1;
      SplitTail(text, tail[..last]);
      assert (text + tail)[..|text + tail| - 1] == text + tail[..last];
      assert tail[last] in tail;
      LengthenedTwice(Split(text), tail[..last], [tail[last]]);
      assert tail[..last] + [tail[last]] == tail;
    }
  }

  function Parsed(pieces: seq<string>, parse: string -> Line): (lines: seq<Line>)
    ensures |lines| == |pieces|
  {
    seq(|pieces|, i requires 0 <= i < |pieces| => parse(pieces[i]))
  }

  class FxScriptList {
    var lines: seq<Line>
    var lineNums: seq<int>
    var execDurationMs: int  // -1: not known

    ghost predicate Valid()
      reads this
    {
      && |lineNums| == |lines|
      && (forall i :: 0 <= i < |lines| ==> lineNums[i] == i + 1)
      && (execDurationMs == -1 || execDurationMs == Duration(lines))
    }

    constructor ()
      ensures Valid() && lines == []
    {
      lines, lineNums, execDurationMs := [], [], -1;
    }

    method Clear()
      modifies this
      ensures Valid() && lines == [] && execDurationMs == 0
    {
      lines, lineNums := [], [];
      execDurationMs := 0;
    }

    method Append(scriptLine: Line)
      requires Valid()
      modifies this
      ensures Valid() && lines == old(lines) + [scriptLine]
      ensures execDurationMs == Duration(lines)
    {
      lines := lines + [scriptLine];
      lineNums := lineNums + [|lines|];
      assert lines[..|lines| - 1] == old(lines);
      if execDurationMs == -1 || scriptLine.execTimeMs > 0 {
        CalculateDuration();
      } else {
        execDurationMs := execDurationMs + LineDuration(scriptLine);
      }
    }

    /** Appends one line for every piece of the raw text, so that piece k of a new list is line number k. */
    method RawToScript(raw: string, parse: string -> Line) returns (count: nat)
      requires Valid()
      modifies this
      ensures Valid() && lines == old(lines) + Parsed(Split(raw), parse) && count == |Split(raw)|
      ensures |lines| == |old(lines)| + count
      ensures forall i :: 0 <= i < count ==> lines[|old(lines)| + i] == parse(Split(raw)[i])
    {
      var pieces := Split(raw);
      count := 0;
      while count < |pieces|
        invariant Valid() && count <= |pieces|
        invariant lines == old(lines) + Parsed(pieces, parse)[..count]
      {
        Append(parse(pieces[count]));
        count := count + 1;
      }
    }

    method ExecDuration() returns (ms: int)
      requires Valid()
      modifies this`execDurationMs
      ensures Valid() && ms == Duration(lines)
    {
      if execDurationMs == -1 {
        CalculateDuration();
      }
      ms := execDurationMs;
    }

    method CalculateDuration()
      modifies this`execDurationMs
      ensures execDurationMs == Duration(lines)
    {
      var ms := 0;
      for i := 0 to |lines|
        invariant ms == Duration(lines[..i])
      {
        assert lines[..i + 1][..i] == lines[..i];
        if lines[i].execTimeMs > 0 {
          ms := lines[i].execTimeMs;
        } else {
          ms := ms + LineDuration(lines[i]);
        }
      }
      assert lines[..|lines|] == lines;
      execDurationMs := ms;
    }
  }
}
