# greenpipe stages, modelled in Dafny

This project models the pipeline stages that the greenpipe test suite
builds and composes:

- `chunksToLines` turns a stream of text chunks into a stream of lines, each
  line keeping its newline. It keeps a carry-over buffer across chunks and
  flushes a non-empty remainder at the end.
- `map(callback)` transforms a stream element by element.
- `numberLines(counter)` is `map` with a callback that pre-increments a
  captured counter. It prefixes each line with `"<n>: "`.
- `take(count)` pulls from a stream's iterator until it has `count` elements
  or the iterator reports `done`.
- The end-to-end test runs a read stream through
  `chunksToLines`, `numberLines()` and `take()`.

Streams are finite sequences. Each stage is a method with loops and
invariants, proved against a pure specification function:

| stage | method | specification |
|---|---|---|
| `chunksToLines` | `LineSplitting.ChunksToLines` | `Lines` of the joined text |
| `map` | `Mapping.Map` | per-element callback |
| `numberLines` | `Mapping.LineNumbering.Stage` | `Numbered` |
| `take` | `Collecting.Take` | `Taken` and `Pulls` |

The closure built by `numberLines` is a class with a mutable `counter`
field. The stream's iterator is a class whose `pulls` field counts the calls
of `next()`, so the model can state how much `take` reads.

Files:

- `text.dfy`: `indexOf`, joining strings, and decimal rendering of integers.
- `lines.dfy`: `chunksToLines`.
- `mapping.dfy`: `map` and `numberLines`.
- `take.dfy`: `take` and the iterator.
- `pipeline.dfy`: the stages composed in the order of the test.

## Model

| member | source | states |
|---|---|---|
| LineSplitting.Lines | test/greenpipe.spec.js:14-23 | The split of a text at each first newline, newline kept, with a non-empty remainder last: no more lines than characters, and no lines exactly when the text is empty. |
| LineSplitting.ChunksToLines | test/greenpipe.spec.js:9-24 | The buffer-and-split loop yields exactly `Lines` of the joined chunks, however the text is cut. The yielded lines join back into the input. Every line is non-empty, and only the last may lack its newline. |
| LineSplitting.LinesConcat | test/greenpipe.spec.js:10-23 | Joining the lines gives back the text: nothing is lost, duplicated or reordered. |
| LineSplitting.LinesWellFormed | test/greenpipe.spec.js:14-23 | Every line is non-empty and has no newline before its last character. Every line but the last ends with a newline. |
| LineSplitting.LinesUnique | test/greenpipe.spec.js:14-23 | Any well-formed cut of a text into lines is `Lines` of that text. |
| LineSplitting.LinesCons | test/greenpipe.spec.js:14-18 | A line that ends with its only newline is split off as the first line of any text that starts with it, and the split goes on with the rest. |
| LineSplitting.LinesSingle | test/greenpipe.spec.js:21-23 | A non-empty text without a newline is flushed as one line. |
| LineSplitting.SplitAtFirstEol | test/greenpipe.spec.js:14 | A line ending in its only newline is found by the `indexOf('\n')` search of anything that starts with it. |
| LineSplitting.EmitLine | test/greenpipe.spec.js:14-18 | Slicing the buffer up to and including its first newline gives a line that ends with its single newline. Keeping the rest of the buffer loses no text. |
| LineSplitting.FirstLine | test/greenpipe.spec.js:14-16 | The slice up to the first newline is non-empty, ends with a newline and has no other newline. |
| LineSplitting.Flush | test/greenpipe.spec.js:21-23 | At end of input, the yielded lines plus the leftover (only when it is non-empty) are the well-formed split of the whole text. |
| LineSplitting.SplitExample | test/greenpipe.spec.js:9-24 | Chunks "ab", "c\nde" and "f" give the lines "abc\n" and "def". |
| Text.IndexOf | test/greenpipe.spec.js:14 | Returns -1 exactly when the character is absent. Otherwise it returns the position of its first occurrence. |
| Text.ConcatAppend | test/greenpipe.spec.js:12 | Joining two streams of strings one after the other is joining each and appending. |
| Text.NatToString | test/greenpipe.spec.js:34 | The rendering of a number is a non-empty string of decimal digits with no leading zero. |
| Text.NatToStringRoundTrip | test/greenpipe.spec.js:34 | Reading the rendered digits back as a decimal number gives the number. |
| Text.IntToString | test/greenpipe.spec.js:34 | A negative counter renders as a minus sign followed by the digits of its magnitude. No rendering contains a newline. |
| Mapping.Map | test/greenpipe.spec.js:26-32 | One output per input, in order, with output i equal to the callback applied to input i. |
| Mapping.Label | test/greenpipe.spec.js:34 | The template `${n}: ${line}`: the rendering of n, which holds no newline, then ": ", then the line unchanged at the end. |
| Mapping.Numbered | test/greenpipe.spec.js:34 | The specification of the numbering stage: one entry per line, each ending with its line unchanged. Line i gets the label counter + i + 1. |
| Mapping.LineNumbering.Number | test/greenpipe.spec.js:34 | The callback increments the captured counter and then labels the line with the new value. |
| Mapping.LineNumbering.Stage | test/greenpipe.spec.js:34 | Mapping the callback over a stream gives `Numbered` from the counter's old value: line i gets counter + i + 1. The counter advances by the stream's length. |
| Mapping.NumberLines | test/greenpipe.spec.js:34 | `numberLines(counter)` applied to a stream gives line i (from 0) the prefix "<counter + i + 1>: ". |
| Mapping.NumberedAppend | test/greenpipe.spec.js:34 | Numbering a stream in two parts, with the counter carried over, is numbering the whole stream. |
| Mapping.NumberedPointwise | test/greenpipe.spec.js:34 | A stream whose line j carries the number counter + j + 1 is the numbered stream. |
| Mapping.LabelKeepsLine | test/greenpipe.spec.js:34 | The "<n>: " prefix adds no newline. A labelled line ends with a newline exactly when the line did. |
| Mapping.NumberedWellFormed | test/greenpipe.spec.js:34 | Numbering keeps well-formed lines well-formed. |
| Collecting.Taken | test/greenpipe.spec.js:42-49 | The collected result is a prefix of the stream. It is the whole stream when the bound is `Infinity` or exceeds the stream's length. Otherwise it has exactly `count` elements. |
| Collecting.Pulls | test/greenpipe.spec.js:44-46 | `next()` is called at most `count` times. It is called once more than the stream's length exactly when the stream ends below the bound. |
| Collecting.TakeZero | test/greenpipe.spec.js:36-44 | `take(0)` collects nothing and never calls `next()`. |
| Collecting.SourceIterator.Next | test/greenpipe.spec.js:45 | Each call counts one pull. It hands out the next element and advances, or reports `done` at the end without moving. |
| Collecting.Take | test/greenpipe.spec.js:36-51 | The collecting loop returns `Taken` of what the iterator had left. It calls `next()` exactly `Pulls` times. It leaves every element after the collected prefix unread. |
| Pipeline.NumberedLines | test/greenpipe.spec.js:56-61 | What the composed stages yield: at most one entry per source line and at most `count` entries, and one entry per source line when `take()` has its default `Infinity`. |
| Pipeline.RunPipeline | test/greenpipe.spec.js:56-61 | The three stages composed give `NumberedLines` of the chunks. `next()` is called no more than the bound allows. |
| Pipeline.NumberedLinesAt | test/greenpipe.spec.js:56-70 | Collected line i is source line i, in order and with its newline kept, prefixed with "<i + 1>: ". |
| Pipeline.NumberedLinesWellFormed | test/greenpipe.spec.js:56-70 | Every collected line is a non-empty line, and all but the last end with a newline. |
| Pipeline.WholeFile | test/greenpipe.spec.js:53-73 | For a file of newline-terminated lines, however it is chunked, `take()` collects one entry per line: "<n>: " + line + "\n", with n counted from 1. |
| Pipeline.NumberedTerminatedAt | test/greenpipe.spec.js:63-70 | Terminated line i, once numbered, reads "<i + 1>: " + text + "\n". |
| Pipeline.TerminatedWellFormed | test/greenpipe.spec.js:63-70 | Lines that each get one newline appended form a well-formed split. |
| Pipeline.TwoChunksThreeLines | test/greenpipe.spec.js:9-24 | An example input of the chunking stage: chunks "line1\nline2\n" and "line3\n" split into three lines. |
| Pipeline.FirstTwoNumbered | test/greenpipe.spec.js:34 | `numberLines()` on those three lines labels the first two "1: " and "2: ". |
| Pipeline.TakeTwoOfThree | test/greenpipe.spec.js:56-61 | An example instance of the call at 56-61, with two literal chunks in place of the read stream and `take(2)` in place of `take()`: it collects "1: line1\n" and "2: line2\n" and pulls only twice, so the third line is never requested. |

## Left out

- The `greenpipe` composer: src/greenpipe is not part of this model. `RunPipeline` composes the stages in the order of the call at test/greenpipe.spec.js:56-61.
- `createReadStream` and the fixture file: file I/O. The chunks are a parameter. `WholeFile` states the expected result for any file made of newline-terminated lines, in place of the six literal lines of the fixture.
- Async generators, `for await`, Promises and `Symbol.asyncIterator`: streams are finite sequences, so the upstream stages run to completion before `take` starts. The laziness of the pipeline shows only in the iterator's pull counter.
- The mocha harness and the `unexpected` assertion library: test framework code.
- Mapping.LineNumbering.Number, Mapping.Numbered: the counter is an unbounded integer, so line i is always labelled counter + i + 1. In the source the counter is a double-precision number: `++counter` is exact only up to 2^53 (`Number.MAX_SAFE_INTEGER` + 1). From there on it stops advancing or advances by 2, so labels repeat or are skipped. That loss of precision is not modelled.
- Number formatting in template strings beyond integers below 2^53: exponent forms (from 1e21 on) and non-integer counters are not modelled.
- `take` counts other than a natural number or `Infinity` (negative or fractional counts): `Bound` holds only those two kinds.
- Callbacks that throw, and iterators whose `next()` rejects: no error path is modelled.
- Reuse of `map` by `numberLines`: the numbering stage loops over the stream itself rather than calling `Map`, because `Map` takes a pure function and the numbering callback updates the closure's counter. Both loops have the same shape.
