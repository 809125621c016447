/** The generators and iterators demo: `number_generator`, the endless
    `fibonacci_generator`, the squares generator expression, the `CountDown` iterator class
    and `nested_generator` with `yield from`.

    A finite generator is modelled by the sequence of values it yields. */
module Generators {

  /** `range(n)`, which `number_generator(n)` yields value by value: 0, 1, ..., n - 1, and
      nothing when `n <= 0`. */
  function Range(n: int): (r: seq<int>)
    ensures |r| == if n <= 0 then 0 else n
    ensures forall i :: 0 <= i < |r| ==> r[i] == i
    decreases if n <= 0 then 0 else n
  {
    if n <= 0 then [] else Range(n - 1) + [n - 1]
  }

  /** `(x * x for x in range(n))`. */
  function Squares(n: int): (r: seq<int>)
    ensures |r| == if n <= 0 then 0 else n
    ensures forall i :: 0 <= i < |r| ==> r[i] == i * i
  {
    var xs := Range(n);
    seq(|xs|, i requires 0 <= i < |xs| => xs[i] * xs[i])
  }

  /** The generator expression of `generator_expression_demo` yields the squares of 0..9. */
  lemma SquaresBelowTen()
    ensures Squares(10) == [0, 1, 4, 9, 16, 25, 36, 49, 64, 81]
  {
  }

  /** The Fibonacci numbers, with fib(0) = 0 and fib(1) = 1. */
  function Fib(k: nat): nat {
    if k < 2 then k else Fib(k - 1) + Fib(k - 2)
  }

  /** The suspended state of `fibonacci_generator()`: the pair `a, b` and, as ghost state,
      how many values it has yielded so far. */
  class FibonacciGenerator {
    var a: nat
    var b: nat
    ghost var yielded: nat

    ghost predicate Valid()
      reads this
    {
      a == Fib(yielded) && b == Fib(yielded + 1)
    }

    /** `a, b = 0, 1`, before the first value. */
    constructor ()
      ensures Valid() && yielded == 0
    {
      a, b := 0, 1;
      yielded := 0;
    }

    /** `next(gen)`: yield `a`, then `a, b = b, a + b`. The k-th value is fib(k). */
    method Next() returns (v: nat)
      requires Valid()
      modifies this
      ensures Valid() && yielded == old(yielded) + 1
      ensures v == Fib(old(yielded))
    {
      v := a;
      a, b := b, a + b;
      yielded := yielded + 1;
    }
  }

  /** The demo's `for _ in range(count): next(fib)`: the first `count` values of a fresh
      Fibonacci generator are fib(0), ..., fib(count - 1), and each is the sum of the two
      before it. */
  method TakeFibonacci(count: nat) returns (values: seq<nat>)
    ensures |values| == count
    ensures forall k :: 0 <= k < count ==> values[k] == Fib(k)
    ensures forall k :: 2 <= k < count ==> values[k] == values[k - 1] + values[k - 2]
  {
    var gen := new FibonacciGenerator();
    values := [];
    while |values| < count
      invariant gen.Valid() && gen.yielded == |values| <= count
      invariant forall k :: 0 <= k < |values| ==> values[k] == Fib(k)
    {
      var v := gen.Next();
      values := values + [v];
    }
  }

  /** What `next()` on an iterator gives: a value or StopIteration. */
  datatype Step<T> = Yield(value: T) | StopIteration

  /** The values a `CountDown(s)` yields: s, s - 1, ..., 1, and nothing when `s <= 0`. */
  function CountDownValues(s: int): (r: seq<int>)
    ensures |r| == if s <= 0 then 0 else s
    ensures forall i :: 0 <= i < |r| ==> r[i] == s - i && r[i] >= 1
    decreases if s <= 0 then 0 else s
  {
    if s <= 0 then [] else [s] + CountDownValues(s - 1)
  }

  /** `CountDown`: an iterator whose state is the field `start`. */
  class CountDown {
    var start: int

    constructor (start: int)
      ensures this.start == start
    {
      this.start := start;
    }

    /** `__iter__` returns the object itself, so a second loop resumes where the first stopped. */
    method Iter() returns (it: CountDown)
      ensures it == this
    {
      it := this;
    }

    /** `__next__`: once `start <= 0` raise StopIteration and change nothing; otherwise
        decrement `start` by one and yield its value before the decrement. */
    method Next() returns (step: Step<int>)
      modifies this
      ensures old(start) <= 0 ==> step == StopIteration && start == old(start)
      ensures old(start) > 0 ==> step == Yield(old(start)) && start == old(start) - 1
    {
      if start <= 0 {
        return StopIteration;
      }
      start := start - 1;
      step := Yield(start + 1);
    }

    /** A `for` loop over the iterator: call `__next__` until StopIteration, collecting the
        values. It yields CountDownValues of the starting `start` and leaves `start` at 0,
        or unchanged when it was not positive. */
    method Drain() returns (values: seq<int>)
      modifies this
      ensures values == CountDownValues(old(start))
      ensures start == if old(start) > 0 then 0 else old(start)
    {
      var it := Iter();
      values := [];
      while true
        invariant it == this
        invariant values + CountDownValues(start) == CountDownValues(old(start))
        invariant old(start) > 0 ==> 0 <= start
        invariant old(start) <= 0 ==> start == old(start)
        decreases if start > 0 then start else 0
      {
        var step := it.Next();
        if step.StopIteration? {
          break;
        }
        values := values + [step.value];
      }
    }
  }

  /** The demo's `CountDown(s)` iterated twice: the first loop yields s, ..., 1 and the second
      yields nothing, because the iterator is its own and is exhausted. */
  method CountDownTwice(s: int) returns (first: seq<int>, second: seq<int>)
    ensures first == CountDownValues(s)
    ensures second == []
  {
    var countdown := new CountDown(s);
    first := countdown.Drain();
    second := countdown.Drain();
  }

  /** What `nested_generator` yields: integers from `range(3)`, then characters of 'ABC'. */
  datatype Item = IntItem(i: int) | CharItem(c: char)

  /** `yield from` over a sequence of integers. */
  function YieldFromInts(xs: seq<int>): (r: seq<Item>)
    ensures |r| == |xs| && forall i :: 0 <= i < |xs| ==> r[i] == IntItem(xs[i])
  {
    seq(|xs|, i requires 0 <= i < |xs| => IntItem(xs[i]))
  }

  /** `yield from` over a string. */
  function YieldFromChars(s: string): (r: seq<Item>)
    ensures |r| == |s| && forall i :: 0 <= i < |s| ==> r[i] == CharItem(s[i])
  {
    seq(|s|, i requires 0 <= i < |s| => CharItem(s[i]))
  }

  /** `nested_generator`: `yield from range(3)` then `yield from 'ABC'`. */
  function NestedGenerator(): seq<Item> {
    YieldFromInts(Range(3)) + YieldFromChars("ABC")
  }

  /** `nested_generator` yields 0, 1, 2 and then 'A', 'B', 'C'. */
  lemma NestedGeneratorYields()
    ensures NestedGenerator() == [IntItem(0), IntItem(1), IntItem(2), CharItem('A'), CharItem('B'), CharItem('C')]
  {
    assert Range(3) == [0, 1, 2];
  }
}
