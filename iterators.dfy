/** The iterator protocol tutorial: a hand-written iterator class (a cursor
    over a sequence), an iterable that hands out a fresh iterator on every
    request, and the list and generator transformations built on top.

    Generators are modelled by the sequence of values they yield; a `for`
    loop over an iterator is modelled by `Drain`, which collects what the
    loop body would receive. */
module Iterators {

  /** The outcome of one call of `__next__`: a value, or the
      `StopIteration` exception that ends a `for` loop. */
  datatype Step<T> = Yield(value: T) | StopIteration

  /** `__next__` as a pure transition on (sequence, index): the outcome and
      the index afterwards. */
  function Advance<T>(sequence: seq<T>, index: nat): (r: (Step<T>, nat))
    requires index <= |sequence|
    ensures index <= r.1 <= |sequence|
    ensures r.0.Yield? <==> index < |sequence|
    ensures r.0.Yield? ==> r.0.value == sequence[index] && r.1 == index + 1
    ensures r.0 == StopIteration ==> r.1 == index
  {
    if index < |sequence| then (Yield(sequence[index]), index + 1)
    else (StopIteration, index)
  }

  /** The outcomes of `n` successive `__next__` calls starting at `index`. */
  function Run<T>(sequence: seq<T>, index: nat, n: nat): seq<Step<T>>
    requires index <= |sequence|
    decreases n
  {
    if n == 0 then []
    else
      var (step, next) := Advance(sequence, index);
      [step] + Run(sequence, next, n - 1)
  }

  /** One `Yield` per element, in order. */
  function Yields<T>(xs: seq<T>): (r: seq<Step<T>>)
    ensures |r| == |xs|
    ensures forall k :: 0 <= k < |xs| ==> r[k] == Yield(xs[k])
  {
    seq(|xs|, k requires 0 <= k < |xs| => Yield(xs[k]))
  }

  /** `n` raised `StopIteration`s. */
  function Stops<T>(n: nat): (r: seq<Step<T>>)
    ensures |r| == n
    ensures forall k :: 0 <= k < n ==> r[k] == StopIteration
  {
    seq(n, _ => StopIteration)
  }

  /** Successive `__next__` calls return the remaining elements in index
      order, each exactly once, and from then on only `StopIteration`. */
  lemma {:induction false} RunYieldsRemainingThenStops<T>(s: seq<T>, i: nat, n: nat)
    requires i <= |s|
    decreases n
    ensures var k := if n < |s| - i then n else |s| - i;
            Run(s, i, n) == Yields(s[i..i + k]) + Stops(n - k)
  {
    var k := if n < |s| - i then n else |s| - i;
    if n == 0 {
      assert Run(s, i, n) == [];
    } else if i < |s| {
      RunYieldsRemainingThenStops(s, i + 1, n - 1);
      assert Run(s, i, n) == [Yield(s[i])] + Run(s, i + 1, n - 1);
      assert [Yield(s[i])] + Yields(s[i + 1..i + k]) == Yields(s[i..i + k]);
    } else {
      RunYieldsRemainingThenStops(s, i, n - 1);
      assert Run(s, i, n) == [StopIteration] + Run(s, i, n - 1);
      assert [StopIteration] + Stops<T>(n - 1) == Stops<T>(n);
      assert s[i..i + k] == [];
    }
  }

  /** Exhaustion is sticky: an exhausted iterator yields nothing however
      often it is asked again. */
  lemma {:induction false} ExhaustedRunStops<T>(s: seq<T>, n: nat)
    ensures Run(s, |s|, n) == Stops(n)
  {
    RunYieldsRemainingThenStops(s, |s|, n);
    assert s[|s|..|s|] == [];
  }

  /** The tutorial's own iterator class: a cursor over `sequence`. */
  class MyIterator<T> {
    const sequence: seq<T>
    var index: nat

    ghost predicate Valid()
      reads this
    {
      index <= |sequence|
    }

    /** What a `for` loop over this iterator would still receive. */
    ghost function Remaining(): seq<T>
      reads this
      requires Valid()
    {
      sequence[index..]
    }

    constructor (s: seq<T>)
      ensures Valid()
      ensures sequence == s && index == 0
      ensures Remaining() == s
    {
      sequence := s;
      index := 0;
    }

    /** `__iter__` returns the iterator itself and changes nothing. */
    method Iter() returns (r: MyIterator<T>)
      ensures r == this
    {
      r := this;
    }

    /** `__next__`: the element at the cursor and one step forward, or
        `StopIteration` with the state left as it was. */
    method Next() returns (r: Step<T>)
      requires Valid()
      modifies this
      ensures Valid()
      ensures (r, index) == Advance(sequence, old(index))
      ensures old(index) < |sequence| ==>
                r == Yield(sequence[old(index)]) && index == old(index) + 1
      ensures old(index) == |sequence| ==> r == StopIteration && index == old(index)
      ensures Remaining() == if r.Yield? then old(Remaining())[1..] else old(Remaining())
    {
      if index < |sequence| {
        var value := sequence[index];
        index := index + 1;
        r := Yield(value);
      } else {
        r := StopIteration;
      }
    }
  }

  /** The tutorial's iterable: it keeps the sequence and hands out a new
      iterator per traversal. */
  class MyIterable<T> {
    const sequence: seq<T>

    constructor (s: seq<T>)
      ensures sequence == s
    {
      sequence := s;
    }

    /** `__iter__`: a fresh iterator at index 0 over the same sequence. */
    method Iter() returns (it: MyIterator<T>)
      ensures fresh(it)
      ensures it.Valid() && it.sequence == sequence && it.index == 0
    {
      it := new MyIterator(sequence);
    }
  }

  /** A `for` loop over an iterator: `iter()` on it, then `__next__` until
      `StopIteration`; `items` is what the loop body receives. */
  method Drain<T>(cursor: MyIterator<T>) returns (items: seq<T>)
    requires cursor.Valid()
    modifies cursor
    ensures cursor.Valid()
    ensures items == old(cursor.Remaining())
    ensures cursor.index == |cursor.sequence|
  {
    var it := cursor.Iter();
    items := [];
    var done := false;
    while !done
      invariant it == cursor && it.Valid()
      invariant items + it.Remaining() == old(cursor.Remaining())
      invariant done ==> it.index == |it.sequence|
      decreases |it.sequence| - it.index, !done
    {
      var step := it.Next();
      match step
      case Yield(v) => items := items + [v];
      case StopIteration => done := true;
    }
  }

  /** An iterator can be traversed only once: a second `for` loop over the
      same, exhausted iterator receives nothing. */
  method TraverseIteratorTwice<T>(s: seq<T>) returns (first: seq<T>, second: seq<T>)
    ensures first == s
    ensures second == []
  {
    var it := new MyIterator(s);
    first := Drain(it);
    second := Drain(it);
  }

  /** An iterable can be traversed any number of times with identical
      results, because each traversal starts from a fresh iterator. */
  method TraverseIterableTwice<T>(s: seq<T>) returns (first: seq<T>, second: seq<T>)
    ensures first == s
    ensures second == s
  {
    var iterable := new MyIterable(s);
    var it1 := iterable.Iter();
    first := Drain(it1);
    var it2 := iterable.Iter();
    second := Drain(it2);
  }

  /** `square_iterator` and `square`: the squares of the input, lazily, in
      order. Python's `item ** 2` on integers is exact. */
  function Squares(xs: seq<int>): (r: seq<int>)
    ensures |r| == |xs|
    ensures forall i :: 0 <= i < |xs| ==> r[i] == xs[i] * xs[i]
  {
    if xs == [] then [] else [xs[0] * xs[0]] + Squares(xs[1..])
  }

  /** `square_list`: builds a new list by appending the square of each
      input element; it yields what `square_iterator` yields. */
  method SquareList(xs: seq<int>) returns (squares: seq<int>)
    ensures |squares| == |xs|
    ensures forall i :: 0 <= i < |xs| ==> squares[i] == xs[i] * xs[i]
    ensures squares == Squares(xs)
  {
    squares := [];
    var i := 0;
    while i < |xs|
      invariant 0 <= i <= |xs|
      invariant |squares| == i
      invariant forall j :: 0 <= j < i ==> squares[j] == xs[j] * xs[j]
    {
      squares := squares + [xs[i] * xs[i]];
      i := i + 1;
    }
  }

  /** `filter_odd`: keeps exactly the items with `item % 2 == 1`. Python's
      floored `%` and Dafny's Euclidean `%` agree for the divisor 2, so
      negative odd numbers are kept as well. */
  function FilterOdd(xs: seq<int>): (r: seq<int>)
    ensures |r| <= |xs|
    ensures forall x :: x in r <==> x in xs && x % 2 == 1
  {
    if xs == [] then []
    else if xs[0] % 2 == 1 then [xs[0]] + FilterOdd(xs[1..])
    else FilterOdd(xs[1..])
  }

  /** Filtering distributes over concatenation, so the kept items stay in
      their original order. */
  lemma {:induction false} FilterOddAppend(a: seq<int>, b: seq<int>)
    ensures FilterOdd(a + b) == FilterOdd(a) + FilterOdd(b)
  {
    if a == [] {
      assert a + b == b;
    } else {
      var ab := a + b;
      assert ab[0] == a[0] && ab[1..] == a[1..] + b;
      FilterOddAppend(a[1..], b);
    }
  }

  /** `filter_odd` keeps every odd value as often as it occurs in the input
      and drops every other value. */
  lemma {:induction false} FilterOddCount(xs: seq<int>, x: int)
    ensures multiset(FilterOdd(xs))[x] == if x % 2 == 1 then multiset(xs)[x] else 0
  {
    if xs != [] {
      FilterOddCount(xs[1..], x);
      assert xs == [xs[0]] + xs[1..];
    }
  }

  /** Reference definition of the pipeline in a single pass: the square of
      every odd item, in input order. */
  function SquaresOfOdd(xs: seq<int>): seq<int>
  {
    if xs == [] then []
    else if xs[0] % 2 == 1 then [xs[0] * xs[0]] + SquaresOfOdd(xs[1..])
    else SquaresOfOdd(xs[1..])
  }

  /** The two-stage pipeline `square(filter_odd(xs))` yields the squares of
      exactly the odd items, in their original order. */
  lemma {:induction false} PipelineSquaresOdd(xs: seq<int>)
    ensures Squares(FilterOdd(xs)) == SquaresOfOdd(xs)
  {
    if xs != [] {
      PipelineSquaresOdd(xs[1..]);
      if xs[0] % 2 == 1 {
        var f := FilterOdd(xs[1..]);
        assert ([xs[0]] + f)[1..] == f;
      }
    }
  }

  /** The outputs printed by the tutorial for `[1, 2, 3, 4, 5]`. */
  lemma TutorialOutputs()
    ensures Squares([1, 2, 3, 4, 5]) == [1, 4, 9, 16, 25]
    ensures Squares(FilterOdd([1, 2, 3, 4, 5])) == [1, 9, 25]
  {
    PipelineSquaresOdd([1, 2, 3, 4, 5]);
    assert [1, 2, 3, 4, 5][1..] == [2, 3, 4, 5];
    assert [2, 3, 4, 5][1..] == [3, 4, 5];
    assert [3, 4, 5][1..] == [4, 5];
    assert [4, 5][1..] == [5];
    assert [5][1..] == [];
  }
}
