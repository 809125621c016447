/** The decorator demo: `log_execution`, the parameterised `repeat(times)`, the call-counting
    class decorator `Timer`, and the HTML decorators `bold` and `italic` stacked on
    `format_text`.

    A decorated function is a Dafny function value. A wrapped function whose calls may differ
    from one another (it prints, it reads state) is modelled by the result of its i-th call. */
module Decorators {

  /** `log_execution(func)`: the wrapper logs before and after the call and hands back exactly
      what `func` returned. */
  function LogExecution<A(!new), R>(func: A -> R): (wrapper: A -> R)
    ensures forall a :: wrapper(a) == func(a)
  {
    a => func(a)
  }

  /** Decorating twice with `log_execution` still returns what the original returns. */
  lemma LogExecutionTwice<A(!new), R>(func: A -> R, a: A)
    ensures LogExecution(LogExecution(func))(a) == func(a)
  {
  }

  /** What a `repeat` wrapper does: it returns the result of the last call, or fails with
      UnboundLocalError when the loop body never ran and `result` was never bound. */
  datatype RepeatOutcome<R> = Returned(result: R) | UnboundLocalError

  /** The wrapper of `repeat(times)(func)`: `for _ in range(times): result = func(...)`, then
      `return result`. `call(i)` is what the i-th call of `func` returns. The function is
      called exactly `times` times (none when `times <= 0`) and the last result is returned. */
  method Repeat<R>(times: int, call: nat -> R) returns (outcome: RepeatOutcome<R>, calls: nat)
    ensures calls == if times <= 0 then 0 else times
    ensures times <= 0 <==> outcome.UnboundLocalError?
    ensures times > 0 ==> outcome == Returned(call(times - 1))
  {
    outcome := UnboundLocalError;
    calls := 0;
    var i := 0;
    while i < times
      invariant 0 <= i <= (if times > 0 then times else 0)
      invariant calls == i
      invariant i == 0 <==> outcome.UnboundLocalError?
      invariant i > 0 ==> outcome == Returned(call(i - 1))
    {
      outcome := Returned(call(i));
      calls := calls + 1;
      i := i + 1;
    }
  }

  /** `print_message` decorated with `repeat(times=3)`: the message is printed three times,
      and the wrapper returns what the last `print` returned, `None`. */
  method PrintMessageThreeTimes(message: string) returns (printed: seq<string>, outcome: RepeatOutcome<()>)
    ensures printed == [message, message, message]
    ensures outcome == Returned(())
  {
    var calls;
    outcome, calls := Repeat(3, _ => ());
    printed := seq(calls, _ => message);
  }

  /** The class decorator `Timer`: it holds the wrapped function and the number of calls. */
  class Timer<A, R> {
    const func: A -> R
    var count: nat

    /** `@Timer`: wrap `func` with a count of 0. */
    constructor (func: A -> R)
      ensures this.func == func && count == 0
    {
      this.func := func;
      count := 0;
    }

    /** `__call__`: the count goes up by one before the call, and the wrapped result is passed
        through. */
    method Call(a: A) returns (r: R)
      modifies this
      ensures count == old(count) + 1
      ensures r == func(a)
    {
      count := count + 1;
      r := func(a);
    }
  }

  /** `expensive_operation` is decorated with `@Timer` and called twice: afterwards its count
      is 2, and each call returned the wrapped function's result. */
  method ExpensiveOperationTwice<A, R>(func: A -> R, a: A) returns (count: nat, first: R, second: R)
    ensures count == 2
    ensures first == func(a) && second == func(a)
  {
    var timer := new Timer(func);
    first := timer.Call(a);
    second := timer.Call(a);
    count := timer.count;
  }

  /** `bold(func)`: the wrapped result between `<b>` and `</b>`. */
  function Bold<A(!new)>(func: A -> string): (wrapper: A -> string)
    ensures forall a :: wrapper(a) == "<b>" + func(a) + "</b>"
  {
    a => "<b>" + func(a) + "</b>"
  }

  /** `italic(func)`: the wrapped result between `<i>` and `</i>`. */
  function Italic<A(!new)>(func: A -> string): (wrapper: A -> string)
    ensures forall a :: wrapper(a) == "<i>" + func(a) + "</i>"
  {
    a => "<i>" + func(a) + "</i>"
  }

  /** `format_text` before decoration returns its argument. */
  function Identity(text: string): string {
    text
  }

  /** `format_text` decorated with `@bold` over `@italic`. */
  function FormatText(text: string): string {
    Bold(Italic(Identity))(text)
  }

  /** `@bold` stacked over `@italic` puts the italic tags inside the bold ones. */
  lemma FormatTextOutput(text: string)
    ensures FormatText(text) == "<b><i>" + text + "</i></b>"
  {
    assert FormatText(text) == "<b>" + ("<i>" + text + "</i>") + "</b>";
  }

  /** The order of the decorators matters: the other stacking gives a different string for
      every input. */
  lemma StackingOrderMatters<A(!new)>(func: A -> string, a: A)
    ensures Bold(Italic(func))(a) != Italic(Bold(func))(a)
  {
    assert Bold(Italic(func))(a)[1] == 'b';
    assert Italic(Bold(func))(a)[1] == 'i';
  }

  /** The bold tags can be taken off again: the wrapped result is recovered. */
  lemma BoldUnwraps<A(!new)>(func: A -> string, a: A)
    ensures var s := Bold(func)(a); s[3..|s| - 4] == func(a)
  {
    var s := Bold(func)(a);
    assert s == "<b>" + func(a) + "</b>";
  }

  /** The italic tags can be taken off again: the wrapped result is recovered. */
  lemma ItalicUnwraps<A(!new)>(func: A -> string, a: A)
    ensures var s := Italic(func)(a); s[3..|s| - 4] == func(a)
  {
    var s := Italic(func)(a);
    assert s == "<i>" + func(a) + "</i>";
  }
}
