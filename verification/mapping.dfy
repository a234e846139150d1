/**
 * The `map(callback)` stage and `numberLines(counter)`, which is `map` with a
 * callback that closes over a counter and pre-increments it for every line.
 */
module Mapping {
  import opened Text
  import opened LineSplitting

  /** `map(callback)` applied to a stream: one output per input, in order. */
  method Map<T, U>(callback: T -> U, items: seq<T>) returns (out: seq<U>)
    ensures |out| == |items|
    ensures forall i :: 0 <= i < |items| ==> out[i] == callback(items[i])
  {
    out := [];
    for i := 0 to |items|
      invariant |out| == i
      invariant forall j :: 0 <= j < i ==> out[j] == callback(items[j])
    {
      out := out + [callback(items[i])];
    }
  }

  /**
   * The template `${n}: ${line}`: the rendering of `n`, which holds no
   * newline, then ": ", then the line unchanged.
   */
  function Label(n: int, line: string): (r: string)
    ensures |r| >= |line| + 3
    ensures r[|r| - |line|..] == line
    ensures r[|r| - |line| - 2..|r| - |line|] == ": "
    ensures EOL !in r[..|r| - |line|]
  {
    IntToString(n) + ": " + line
  }

  /** Lines numbered by a counter that starts at `counter` and is incremented before each use: line i (from 0) gets counter + i + 1. */
  function Numbered(counter: int, lines: seq<string>): (r: seq<string>)
    ensures |r| == |lines|
    ensures forall i :: 0 <= i < |lines| ==> |r[i]| > |lines[i]| && r[i][|r[i]| - |lines[i]|..] == lines[i]
  {
    seq(|lines|, i requires 0 <= i < |lines| => Label(counter + i + 1, lines[i]))
  }

  /** The counter carries over: numbering a stream in two parts numbers it as a whole. */
  lemma NumberedAppend(counter: int, a: seq<string>, b: seq<string>)
    ensures Numbered(counter, a + b) == Numbered(counter, a) + Numbered(counter + |a|, b)
  {
    var whole := Numbered(counter, a + b);
    var front := Numbered(counter, a);
    var back := Numbered(counter + |a|, b);
    forall i | 0 <= i < |a| + |b|
      ensures whole[i] == (front + back)[i]
    {
      if i < |a| {
        assert (a + b)[i] == a[i];
        assert (front + back)[i] == front[i];
      } else {
        var j := i - |a|;
        assert (a + b)[i] == b[j];
        assert (front + back)[i] == back[j];
        assert counter + |a| + j + 1 == counter + i + 1;
      }
    }
    assert |whole| == |front + back|;
  }

  /** A stream whose line j is labelled counter + j + 1 is the numbered stream. */
  lemma NumberedPointwise(counter: int, lines: seq<string>, out: seq<string>)
    requires |out| == |lines|
    requires forall j :: 0 <= j < |lines| ==> out[j] == Label(counter + j + 1, lines[j])
    ensures out == Numbered(counter, lines)
  {
  }

  /** Numbering keeps a line a line: the prefix adds no newline, and a line ends with one exactly when it did before. */
  lemma LabelKeepsLine(n: int, line: string)
    ensures IsLine(line) ==> IsLine(Label(n, line))
    ensures EndsWithEol(Label(n, line)) <==> EndsWithEol(line)
  {
    var prefix := IntToString(n) + ": ";
    var labelled := Label(n, line);
    assert labelled == prefix + line;
    assert EOL !in prefix by {
      assert EOL !in IntToString(n);
    }
    if line == [] {
      assert labelled[|labelled| - 1] == ' ';
    } else {
      assert labelled[|labelled| - 1] == line[|line| - 1];
      assert labelled[..|labelled| - 1] == prefix + line[..|line| - 1];
    }
  }

  /** Numbered lines are still well-formed lines. */
  lemma NumberedWellFormed(counter: int, lines: seq<string>)
    requires WellFormed(lines)
    ensures WellFormed(Numbered(counter, lines))
  {
    var r := Numbered(counter, lines);
    forall i | 0 <= i < |r|
      ensures IsLine(r[i]) && (i < |r| - 1 ==> EndsWithEol(r[i]))
    {
      LabelKeepsLine(counter + i + 1, lines[i]);
    }
  }

  /** The closure built by `numberLines(counter)`; `counter` is the captured variable. */
  class LineNumbering {
    var counter: int

    constructor (counter: int)
      ensures this.counter == counter
    {
      this.counter := counter;
    }

    /** The callback: increments the counter, then labels the line with it. */
    method Number(line: string) returns (numbered: string)
      modifies this
      ensures counter == old(counter) + 1
      ensures numbered == Label(counter, line)
    {
      counter := counter + 1;
      numbered := Label(counter, line);
    }

    /** The mapping stage over this callback; the counter keeps its value between streams. */
    method Stage(lines: seq<string>) returns (out: seq<string>)
      modifies this
      ensures out == Numbered(old(counter), lines)
      ensures counter == old(counter) + |lines|
    {
      ghost var start := counter;
      out := [];
      for i := 0 to |lines|
        invariant |out| == i
        invariant forall j :: 0 <= j < i ==> out[j] == Label(start + j + 1, lines[j])
        invariant counter == start + i
      {
        var numbered := Number(lines[i]);
        out := out + [numbered];
      }
      NumberedPointwise(start, lines, out);
    }
  }

  /** `numberLines(counter)` applied to one stream: line i (from 0) becomes "<counter + i + 1>: " + line. */
  method NumberLines(counter: int, lines: seq<string>) returns (out: seq<string>)
    ensures out == Numbered(counter, lines)
  {
    var numbering := new LineNumbering(counter);
    out := numbering.Stage(lines);
  }
}
