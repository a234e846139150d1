/**
 * The `chunksToLines` stage: chunks of text arrive one after another, are
 * appended to a carry-over buffer, and every complete line (up to and
 * including its '\n') is emitted as soon as it is in the buffer. Whatever is
 * left when the input ends is emitted as a last, unterminated line, unless it
 * is empty.
 *
 * `Lines` is the specification: the split of the whole text. The method
 * `ChunksToLines` is the buffer-and-split loop, proved to produce exactly
 * `Lines(Concat(chunks))` however the text is cut into chunks.
 */
module LineSplitting {
  import opened Text

  const EOL: char := '\n'

  /** The split of `s` into lines, each keeping its terminating newline. */
  function Lines(s: string): (r: seq<string>)
    ensures |r| <= |s|
    ensures r == [] <==> s == []
    decreases |s|
  {
    var i := IndexOf(s, EOL);
    if i < 0 then (if s == [] then [] else [s])
    else [s[..i + 1]] + Lines(s[i + 1..])
  }

  /** A line is never empty and holds no newline except possibly as its last character. */
  predicate IsLine(line: string)
  {
    line != [] && EOL !in line[..|line| - 1]
  }

  predicate EndsWithEol(line: string)
  {
    line != [] && line[|line| - 1] == EOL
  }

  /** A sequence of lines in which only the last one may lack its newline. */
  predicate WellFormed(lines: seq<string>)
  {
    forall i :: 0 <= i < |lines| ==>
      IsLine(lines[i]) && (i < |lines| - 1 ==> EndsWithEol(lines[i]))
  }

  /** Nothing is lost, duplicated or reordered: the lines join back into the text. */
  lemma {:induction false} LinesConcat(s: string)
    ensures Concat(Lines(s)) == s
    decreases |s|
  {
    var i := IndexOf(s, EOL);
    if i >= 0 {
      LinesConcat(s[i + 1..]);
      assert s == s[..i + 1] + s[i + 1..];
    }
  }

  /** Every line ends with its single newline, except that the last may have none; no line is empty. */
  lemma {:induction false} LinesWellFormed(s: string)
    ensures WellFormed(Lines(s))
    decreases |s|
  {
    var i := IndexOf(s, EOL);
    if i >= 0 {
      var rest := Lines(s[i + 1..]);
      LinesWellFormed(s[i + 1..]);
      var line := s[..i + 1];
      assert line[..|line| - 1] == s[..i];
      assert EndsWithEol(line);
      assert Lines(s) == [line] + rest;
      forall k | 0 <= k < |Lines(s)|
        ensures IsLine(Lines(s)[k]) && (k < |Lines(s)| - 1 ==> EndsWithEol(Lines(s)[k]))
      {
        if k > 0 {
          assert Lines(s)[k] == rest[k - 1];
        }
      }
    } else if s != [] {
      assert s[..|s| - 1] <= s;
    }
  }

  /** `Lines` is the only well-formed way to cut a text into lines. */
  lemma {:induction false} LinesUnique(lines: seq<string>, s: string)
    requires WellFormed(lines) && Concat(lines) == s
    ensures Lines(s) == lines
    decreases |lines|
  {
    if lines != [] {
      var line := lines[0];
      var rest := lines[1..];
      assert s == line + Concat(rest);
      WellFormedTail(lines);
      if EndsWithEol(line) {
        LinesCons(line, Concat(rest));
        LinesUnique(rest, Concat(rest));
      } else {
        assert rest == [];
        assert s == line;
        LinesSingle(line);
      }
    }
  }

  lemma WellFormedTail(lines: seq<string>)
    requires WellFormed(lines) && lines != []
    ensures WellFormed(lines[1..])
  {
    var rest := lines[1..];
    forall k | 0 <= k < |rest|
      ensures IsLine(rest[k]) && (k < |rest| - 1 ==> EndsWithEol(rest[k]))
    {
      assert rest[k] == lines[k + 1];
    }
  }

  /** A line that ends with its only newline is the first line of any text that starts with it. */
  lemma LinesCons(line: string, t: string)
    requires IsLine(line) && EndsWithEol(line)
    ensures Lines(line + t) == [line] + Lines(t)
  {
    SplitAtFirstEol(line, t);
    var s := line + t;
    assert s[..|line|] == line && s[|line|..] == t;
  }

  /** A line without a newline is a text of one line. */
  lemma LinesSingle(line: string)
    requires IsLine(line) && !EndsWithEol(line)
    ensures Lines(line) == [line]
  {
    assert line == line[..|line| - 1] + [line[|line| - 1]];
    assert EOL !in line;
  }

  /** When `line` ends with its only newline, that newline is the first one of `line + t`. */
  lemma SplitAtFirstEol(line: string, t: string)
    requires IsLine(line) && EndsWithEol(line)
    ensures IndexOf(line + t, EOL) == |line| - 1
  {
    var j := IndexOf(line + t, EOL);
    assert (line + t)[|line| - 1] == EOL;
  }

  /** Lines that each end with their single newline, as the inner loop yields them. */
  predicate AllTerminated(lines: seq<string>)
  {
    forall j :: 0 <= j < |lines| ==> IsLine(lines[j]) && EndsWithEol(lines[j])
  }

  /**
   * One pass of the inner loop: the buffer's prefix up to and including its
   * first newline is a complete line, and yielding it while keeping the rest
   * of the buffer loses no text.
   */
  lemma EmitLine(emitted: seq<string>, buffer: string)
    requires AllTerminated(emitted)
    requires IndexOf(buffer, EOL) >= 0
    ensures var i := IndexOf(buffer, EOL);
      && AllTerminated(emitted + [buffer[..i + 1]])
      && Concat(emitted + [buffer[..i + 1]]) + buffer[i + 1..] == Concat(emitted) + buffer
  {
    var i := IndexOf(buffer, EOL);
    var line := buffer[..i + 1];
    FirstLine(buffer);
    assert AllTerminated(emitted + [line]) by {
      forall j | 0 <= j < |emitted| + 1
        ensures IsLine((emitted + [line])[j]) && EndsWithEol((emitted + [line])[j])
      {
        if j < |emitted| {
          assert (emitted + [line])[j] == emitted[j];
        }
      }
    }
    ConcatSnoc(emitted, line);
    assert buffer == line + buffer[i + 1..];
    AppendAssoc(Concat(emitted), line, buffer[i + 1..]);
  }

  /** The prefix of a buffer up to its first newline is a line that ends with that newline. */
  lemma FirstLine(buffer: string)
    requires IndexOf(buffer, EOL) >= 0
    ensures var line := buffer[..IndexOf(buffer, EOL) + 1];
      IsLine(line) && EndsWithEol(line)
  {
    var i := IndexOf(buffer, EOL);
    var line := buffer[..i + 1];
    assert line[..|line| - 1] == buffer[..i];
  }

  lemma ConcatSnoc(parts: seq<string>, last: string)
    ensures Concat(parts + [last]) == Concat(parts) + last
  {
    ConcatAppend(parts, [last]);
    assert Concat([last]) == last + Concat([]);
  }

  /** Appending one chunk to the text read so far. */
  lemma ConcatPrefixStep(chunks: seq<string>, k: nat)
    requires k < |chunks|
    ensures Concat(chunks[..k + 1]) == Concat(chunks[..k]) + chunks[k]
  {
    assert chunks[..k + 1] == chunks[..k] + [chunks[k]];
    ConcatSnoc(chunks[..k], chunks[k]);
  }

  /** At end of input: the yielded lines plus the non-empty leftover, if any, are the split of the whole text. */
  lemma Flush(emitted: seq<string>, buffer: string, text: string)
    requires AllTerminated(emitted) && EOL !in buffer
    requires Concat(emitted) + buffer == text
    ensures var all := if |buffer| > 0 then emitted + [buffer] else emitted;
      WellFormed(all) && Concat(all) == text && all == Lines(text)
  {
    var all := if |buffer| > 0 then emitted + [buffer] else emitted;
    if |buffer| > 0 {
      assert buffer[..|buffer| - 1] <= buffer;
      ConcatSnoc(emitted, buffer);
    } else {
      assert Concat(emitted) + buffer == Concat(emitted);
    }
    assert WellFormed(all) by {
      forall j | 0 <= j < |all|
        ensures IsLine(all[j]) && (j < |all| - 1 ==> EndsWithEol(all[j]))
      {
        if j < |emitted| {
          assert all[j] == emitted[j];
        }
      }
    }
    LinesUnique(all, text);
  }

  /**
   * The stage itself. `previous` is the carry-over buffer; `lines` is what
   * has been yielded so far: every line yielded inside the loop ends with
   * its one newline, and only the final flush may yield a line without one.
   */
  method ChunksToLines(chunks: seq<string>) returns (lines: seq<string>)
    ensures lines == Lines(Concat(chunks))
    ensures Concat(lines) == Concat(chunks)
    ensures WellFormed(lines)
  {
    lines := [];
    var previous := "";
    var k := 0;
    while k < |chunks|
      invariant 0 <= k <= |chunks|
      invariant EOL !in previous
      invariant AllTerminated(lines)
      invariant Concat(lines) + previous == Concat(chunks[..k])
    {
      ConcatPrefixStep(chunks, k);
      previous := previous + chunks[k];
      var eolIndex := IndexOf(previous, EOL);
      while eolIndex >= 0
        invariant eolIndex == IndexOf(previous, EOL)
        invariant AllTerminated(lines)
        invariant Concat(lines) + previous == Concat(chunks[..k + 1])
        decreases |previous|
      {
        EmitLine(lines, previous);
        var line := previous[..eolIndex + 1];
        lines := lines + [line];
        previous := previous[eolIndex + 1..];
        eolIndex := IndexOf(previous, EOL);
      }
      k := k + 1;
    }
    assert chunks[..k] == chunks;
    Flush(lines, previous, Concat(chunks));
    if |previous| > 0 {
      lines := lines + [previous];
    }
  }

  /** A line cut across chunks and a last line without a newline: "ab", "c\nde", "f" gives "abc\n" and "def". */
  lemma SplitExample()
    ensures Lines(Concat(["ab", "c\nde", "f"])) == ["abc\n", "def"]
  {
    var expected := ["abc\n", "def"];
    assert Concat(["ab", "c\nde", "f"]) == "abc\ndef";
    assert Concat(expected) == "abc\ndef";
    assert WellFormed(expected) by {
      assert "abc\n"[..3] == "abc";
      assert "def"[..2] == "de";
    }
    LinesUnique(expected, "abc\ndef");
  }
}
