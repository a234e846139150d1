/**
 * The `take(count)` stage: a terminal stage that pulls elements from a
 * stream's iterator into an array until it holds `count` of them or the
 * iterator reports that it is done. The stream is a finite sequence read
 * through an iterator object that counts how often `next()` was called.
 */
module Collecting {

  /** The bound of `take`: a number of elements, or `Infinity` (the default). */
  datatype Bound = Finite(n: nat) | Unbounded

  /** The loop guard `result.length < count`. */
  predicate Below(length: nat, count: Bound)
  {
    count.Unbounded? || length < count.n
  }

  /** What `next()` resolves to: `{done: true}` or `{value, done: false}`. */
  datatype Step<T> = Done | Yield(value: T)

  /** What `take(count)` collects from a stream `s`. */
  function Taken<T>(s: seq<T>, count: Bound): (r: seq<T>)
    ensures r <= s
    ensures count.Unbounded? ==> r == s
    ensures count.Finite? && count.n <= |s| ==> |r| == count.n
    ensures count.Finite? && |s| < count.n ==> r == s
  {
    match count
    case Unbounded => s
    case Finite(n) => if n <= |s| then s[..n] else s
  }

  /**
   * How many times `take(count)` calls `next()` on a stream of `available`
   * elements: once per element it keeps, plus one last call that reports
   * `done` when the stream ends before the bound is reached.
   */
  function Pulls(available: nat, count: Bound): (k: nat)
    ensures count.Finite? ==> k <= count.n
    ensures k <= available + 1
    ensures Below(available, count) <==> k == available + 1
  {
    match count
    case Unbounded => available + 1
    case Finite(n) => if n <= available then n else available + 1
  }

  /** A bound of 0 collects nothing and never pulls, since the loop guard fails at once. */
  lemma TakeZero<T>(s: seq<T>)
    ensures Taken(s, Finite(0)) == [] && Pulls(|s|, Finite(0)) == 0
  {
  }

  /** The iterator of a finite stream; `pulls` counts the calls of `next()`. */
  class SourceIterator<T> {
    const items: seq<T>
    var position: nat
    var pulls: nat

    ghost predicate Valid()
      reads this
    {
      position <= |items|
    }

    /** The elements not yet handed out. */
    ghost function Remaining(): seq<T>
      reads this
      requires Valid()
    {
      items[position..]
    }

    constructor (items: seq<T>)
      ensures Valid() && this.items == items
      ensures position == 0 && pulls == 0
    {
      this.items := items;
      position := 0;
      pulls := 0;
    }

    /** `iterator.next()`: hands out the next element, or reports `done` once the stream has ended. */
    method Next() returns (step: Step<T>)
      requires Valid()
      modifies this
      ensures Valid()
      ensures pulls == old(pulls) + 1
      ensures old(position) < |items| ==> step == Yield(items[old(position)]) && position == old(position) + 1
      ensures old(position) == |items| ==> step == Done && position == old(position)
    {
      pulls := pulls + 1;
      if position < |items| {
        step := Yield(items[position]);
        position := position + 1;
      } else {
        step := Done;
      }
    }
  }

  /**
   * The stage returned by `take(count)`, applied to a stream. It collects
   * `Taken` of what the iterator had left, calls `next()` exactly `Pulls`
   * times (never more than `count`) and leaves everything after the
   * collected prefix unread.
   */
  method Take<T>(count: Bound, stream: SourceIterator<T>) returns (result: seq<T>)
    requires stream.Valid()
    modifies stream
    ensures stream.Valid()
    ensures result == Taken(old(stream.Remaining()), count)
    ensures stream.pulls == old(stream.pulls) + Pulls(|old(stream.Remaining())|, count)
    ensures stream.position == old(stream.position) + |result|
  {
    ghost var pending := stream.Remaining();
    result := [];
    while Below(|result|, count)
      invariant stream.Valid()
      invariant stream.position == old(stream.position) + |result|
      invariant stream.pulls == old(stream.pulls) + |result|
      invariant result == pending[..|result|]
      invariant count.Finite? ==> |result| <= count.n
      decreases |stream.items| - stream.position
    {
      var step := stream.Next();
      if step.Done? {
        break;
      }
      result := result + [step.value];
    }
    assert |result| < |pending| ==> !Below(|result|, count);
  }
}
