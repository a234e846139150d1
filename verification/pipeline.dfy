/**
 * The pipeline the test builds: a source of text chunks, then
 * `chunksToLines`, then `numberLines()`, then `take(count)`, applied in that
 * order (the composer itself is not part of this model).
 */
module Pipeline {
  import opened Text
  import opened LineSplitting
  import opened Mapping
  import opened Collecting

  /** What the pipeline yields for a text cut into `chunks`: at most `count` entries, one per source line. */
  function NumberedLines(chunks: seq<string>, count: Bound): (r: seq<string>)
    ensures |r| <= |Lines(Concat(chunks))|
    ensures count.Finite? ==> |r| <= count.n
    ensures count.Unbounded? ==> |r| == |Lines(Concat(chunks))|
  {
    Taken(Numbered(0, Lines(Concat(chunks))), count)
  }

  /** Collected entry i is source line i, newline kept, prefixed with its number i + 1. */
  lemma NumberedLinesAt(chunks: seq<string>, count: Bound, i: nat)
    requires i < |NumberedLines(chunks, count)|
    ensures i < |Lines(Concat(chunks))|
    ensures NumberedLines(chunks, count)[i] == Label(i + 1, Lines(Concat(chunks))[i])
  {
  }

  /** A prefix of well-formed lines is well-formed, so every collected line is still a line. */
  lemma NumberedLinesWellFormed(chunks: seq<string>, count: Bound)
    ensures WellFormed(NumberedLines(chunks, count))
  {
    var lines := Lines(Concat(chunks));
    LinesWellFormed(Concat(chunks));
    NumberedWellFormed(0, lines);
    var all := Numbered(0, lines);
    var r := NumberedLines(chunks, count);
    forall i | 0 <= i < |r|
      ensures IsLine(r[i]) && (i < |r| - 1 ==> EndsWithEol(r[i]))
    {
      assert r[i] == all[i];
    }
  }

  /**
   * The stages run one after the other on the chunks, as in
   * `greenpipe(source, chunksToLines, numberLines(), take(count))`; `pulls`
   * is how often the collecting stage called `next()`.
   */
  method RunPipeline(chunks: seq<string>, count: Bound) returns (result: seq<string>, pulls: nat)
    ensures result == NumberedLines(chunks, count)
    ensures pulls == Pulls(|Lines(Concat(chunks))|, count)
    ensures count.Finite? ==> pulls <= count.n
  {
    var lines := ChunksToLines(chunks);
    var numbered := NumberLines(0, lines);
    assert numbered == Numbered(0, lines);
    var stream := new SourceIterator(numbered);
    assert stream.Remaining() == numbered;
    result := Take(count, stream);
    pulls := stream.pulls;
  }

  /** Lines of text, each given its terminating newline. */
  function Terminated(texts: seq<string>): (lines: seq<string>)
    ensures |lines| == |texts|
  {
    seq(|texts|, i requires 0 <= i < |texts| => texts[i] + [EOL])
  }

  /**
   * The test's whole-file run: for a file made of newline-terminated lines,
   * however it is cut into chunks, `take()` collects every line in order,
   * newline kept, prefixed with "<n>: " for n counted from 1.
   */
  lemma WholeFile(chunks: seq<string>, texts: seq<string>)
    requires forall i :: 0 <= i < |texts| ==> EOL !in texts[i]
    requires Concat(chunks) == Concat(Terminated(texts))
    ensures |NumberedLines(chunks, Unbounded)| == |texts|
    ensures forall i :: 0 <= i < |texts| ==>
      NumberedLines(chunks, Unbounded)[i] == IntToString(i + 1) + ": " + texts[i] + "\n"
  {
    var numbered := Numbered(0, Terminated(texts));
    assert NumberedLines(chunks, Unbounded) == numbered by {
      TerminatedWellFormed(texts);
      LinesUnique(Terminated(texts), Concat(chunks));
    }
    forall i | 0 <= i < |texts|
      ensures numbered[i] == IntToString(i + 1) + ": " + texts[i] + "\n"
    {
      NumberedTerminatedAt(texts, i);
    }
  }

  lemma NumberedTerminatedAt(texts: seq<string>, i: nat)
    requires i < |texts|
    ensures Numbered(0, Terminated(texts))[i] == IntToString(i + 1) + ": " + texts[i] + "\n"
  {
    var lines := Terminated(texts);
    assert lines[i] == texts[i] + "\n";
    var prefix := IntToString(i + 1) + ": ";
    assert prefix + (texts[i] + "\n") == (prefix + texts[i]) + "\n";
  }

  lemma TerminatedWellFormed(texts: seq<string>)
    requires forall i :: 0 <= i < |texts| ==> EOL !in texts[i]
    ensures WellFormed(Terminated(texts))
  {
    var lines := Terminated(texts);
    forall i | 0 <= i < |lines|
      ensures IsLine(lines[i]) && EndsWithEol(lines[i])
    {
      assert lines[i][..|lines[i]| - 1] == texts[i];
    }
  }

  /** Chunks "line1\nline2\n" and "line3\n" split into three lines. */
  lemma TwoChunksThreeLines()
    ensures Lines(Concat(["line1\nline2\n", "line3\n"])) == ["line1\n", "line2\n", "line3\n"]
  {
    var lines := ["line1\n", "line2\n", "line3\n"];
    assert Concat(["line1\nline2\n", "line3\n"]) == "line1\nline2\nline3\n";
    assert Concat(lines) == "line1\nline2\nline3\n";
    assert WellFormed(lines) by {
      assert "line1\n"[..5] == "line1";
      assert "line2\n"[..5] == "line2";
      assert "line3\n"[..5] == "line3";
    }
    LinesUnique(lines, "line1\nline2\nline3\n");
  }

  /** The first two of the lines "line1\n", "line2\n", "line3\n", numbered from 1. */
  lemma FirstTwoNumbered()
    ensures Numbered(0, ["line1\n", "line2\n", "line3\n"])[..2] == ["1: line1\n", "2: line2\n"]
  {
    var r := Numbered(0, ["line1\n", "line2\n", "line3\n"]);
    NumberedOne();
    NumberedTwo();
    assert r[..2] == [r[0], r[1]];
  }

  /** The first and the second of those lines, each numbered on its own. */
  lemma NumberedOne()
    ensures Numbered(0, ["line1\n", "line2\n", "line3\n"])[0] == "1: line1\n"
  {
    SingleDigitNumbered(["line1\n", "line2\n", "line3\n"], 0);
    assert Digit(1) == '1';
    assert ['1'] + ": " + "line1\n" == "1: line1\n";
  }

  lemma NumberedTwo()
    ensures Numbered(0, ["line1\n", "line2\n", "line3\n"])[1] == "2: line2\n"
  {
    SingleDigitNumbered(["line1\n", "line2\n", "line3\n"], 1);
    assert Digit(2) == '2';
    assert ['2'] + ": " + "line2\n" == "2: line2\n";
  }

  /** While the line numbers stay below 10, each is its one digit. */
  lemma SingleDigitNumbered(lines: seq<string>, i: nat)
    requires i < |lines| && i + 1 < 10
    ensures Numbered(0, lines)[i] == [Digit(i + 1)] + ": " + lines[i]
  {
    assert Numbered(0, lines)[i] == Label(i + 1, lines[i]);
  }

  /**
   * Chunks "line1\nline2\n" and "line3\n" with a bound of 2 give
   * "1: line1\n" and "2: line2\n"; `take` pulls twice, so the third line is
   * never requested.
   */
  lemma TakeTwoOfThree()
    ensures NumberedLines(["line1\nline2\n", "line3\n"], Finite(2)) == ["1: line1\n", "2: line2\n"]
    ensures Pulls(|Lines(Concat(["line1\nline2\n", "line3\n"]))|, Finite(2)) == 2
  {
    TwoChunksThreeLines();
    FirstTwoNumbered();
  }
}
