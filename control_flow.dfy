/** The control-flow demo: the grading `if`/`elif` chain and the pass/fail conditional
    expression, the `for` loops (over a list, with `enumerate`, the squares comprehension), the
    counting `while` loop, the `for` loop with `continue` and `break`, and the `match` on a
    lower-cased command.

    What the loops print is returned as the sequence of printed values. */
module ControlFlow {
  import opened PyStrings
  import opened Generators

  /** The letter grade of `if_statement_demo`: 90 and up A, 80 up to 90 B, 70 up to 80 C,
      anything below D. A score may be an integer or a fraction. */
  function Grade(score: real): (g: char)
    ensures g == 'A' <==> score >= 90.0
    ensures g == 'B' <==> 80.0 <= score < 90.0
    ensures g == 'C' <==> 70.0 <= score < 80.0
    ensures g == 'D' <==> score < 70.0
  {
    if score >= 90.0 then 'A'
    else if score >= 80.0 then 'B'
    else if score >= 70.0 then 'C'
    else 'D'
  }

  /** The conditional expression `"通过" if score >= 60 else "不通过"`. */
  function PassResult(score: real): (r: string)
    ensures r == "通过" <==> score >= 60.0
    ensures r == "不通过" <==> score < 60.0
  {
    if score >= 60.0 then "通过" else "不通过"
  }

  /** A higher score never gets a worse grade. */
  lemma GradeMonotone(low: real, high: real)
    requires low <= high
    ensures Grade(high) <= Grade(low)
  {
  }

  /** The two thresholds differ: scores from 60 up to 70 get the grade D and still pass. */
  lemma GradeDButPass(score: real)
    requires 60.0 <= score < 70.0
    ensures Grade(score) == 'D' && PassResult(score) == "通过"
  {
  }

  /** The demo's score 85 is a B and passes. */
  lemma IfStatementDemo()
    ensures Grade(85.0) == 'B' && PassResult(85.0) == "通过"
  {
  }

  /** `for index, fruit in enumerate(items)`: each item with its index, in order. */
  method Enumerate<T>(items: seq<T>) returns (pairs: seq<(nat, T)>)
    ensures |pairs| == |items|
    ensures forall i :: 0 <= i < |items| ==> pairs[i] == (i, items[i])
  {
    pairs := [];
    for i := 0 to |items|
      invariant |pairs| == i
      invariant forall j :: 0 <= j < i ==> pairs[j] == (j, items[j])
    {
      pairs := pairs + [(i, items[i])];
    }
  }

  /** The comprehension `[x**2 for x in range(5)]`. */
  lemma SquaresBelowFive()
    ensures Squares(5) == [0, 1, 4, 9, 16]
  {
  }

  /** `count = 0; while count < limit: print(count); count += 1`: the values printed are
      0, ..., limit - 1 and the loop leaves `count` at `limit` (at 0 when `limit <= 0`). */
  method CountWhile(limit: int) returns (printed: seq<int>, count: int)
    ensures printed == Range(limit)
    ensures count == if limit <= 0 then 0 else limit
  {
    count := 0;
    printed := [];
    while count < limit
      invariant 0 <= count <= (if limit <= 0 then 0 else limit)
      invariant printed == Range(count)
    {
      printed := printed + [count];
      count := count + 1;
    }
  }

  /** The demo's `while count < 3` prints 0, 1, 2 and stops with `count == 3`. */
  method WhileLoopDemo() returns (printed: seq<int>, count: int)
    ensures printed == [0, 1, 2] && count == 3
  {
    printed, count := CountWhile(3);
  }

  /** What the loop `for num in numbers: if num == 2: continue; if num == 4: break;
      print(num)` prints: every number before the first 4, except the 2s. */
  function ContinueBreakOutput(numbers: seq<int>): seq<int> {
    if numbers == [] then []
    else if numbers[0] == 2 then ContinueBreakOutput(numbers[1..])
    else if numbers[0] == 4 then []
    else [numbers[0]] + ContinueBreakOutput(numbers[1..])
  }

  /** The loop itself, proved to print what `ContinueBreakOutput` describes. */
  method ContinueBreak(numbers: seq<int>) returns (printed: seq<int>)
    ensures printed == ContinueBreakOutput(numbers)
  {
    printed := [];
    var i := 0;
    while i < |numbers|
      invariant 0 <= i <= |numbers|
      invariant printed + ContinueBreakOutput(numbers[i..]) == ContinueBreakOutput(numbers)
    {
      var num := numbers[i];
      if num == 2 {
        i := i + 1;
        continue;
      }
      if num == 4 {
        break;
      }
      printed := printed + [num];
      i := i + 1;
    }
  }

  /** Nothing printed is a 2 or a 4, and everything printed comes from the input. */
  lemma {:induction false} ContinueBreakSkips(numbers: seq<int>)
    ensures forall k :: 0 <= k < |ContinueBreakOutput(numbers)| ==>
      ContinueBreakOutput(numbers)[k] != 2 && ContinueBreakOutput(numbers)[k] != 4 &&
      ContinueBreakOutput(numbers)[k] in numbers
  {
    if numbers != [] {
      ContinueBreakSkips(numbers[1..]);
      var rest := ContinueBreakOutput(numbers[1..]);
      forall x | x in rest ensures x in numbers {
        assert x in numbers[1..];
      }
    }
  }

  /** Without 2s and 4s the loop prints every number. */
  lemma {:induction false} ContinueBreakPrintsAll(numbers: seq<int>)
    requires forall k :: 0 <= k < |numbers| ==> numbers[k] != 2 && numbers[k] != 4
    ensures ContinueBreakOutput(numbers) == numbers
  {
    if numbers != [] {
      ContinueBreakPrintsAll(numbers[1..]);
    }
  }

  /** `break` at the first 4: what follows it is never looked at. */
  lemma {:induction false} ContinueBreakStopsAtFour(before: seq<int>, after: seq<int>)
    requires 4 !in before
    ensures ContinueBreakOutput(before + [4] + after) == ContinueBreakOutput(before)
  {
    if before != [] {
      assert (before + [4] + after)[1..] == before[1..] + [4] + after;
      ContinueBreakStopsAtFour(before[1..], after);
    } else {
      assert before + [4] + after == [4] + after;
    }
  }

  /** The demo's loop over [1, 2, 3, 4, 5] prints 1 and 3. */
  lemma ContinueBreakDemo()
    ensures ContinueBreakOutput([1, 2, 3, 4, 5]) == [1, 3]
  {
    assert [1, 2, 3, 4, 5][1..] == [2, 3, 4, 5];
    assert [2, 3, 4, 5][1..] == [3, 4, 5];
    assert [3, 4, 5][1..] == [4, 5];
  }

  /** The branches of `match_statement_demo`. */
  datatype Action = Start | Stop | Restart | Unknown

  /** `match command.lower()`: "start", "stop" and "restart" select their branch, anything
      else the default. */
  function MatchCommand(command: string): (a: Action)
    ensures a == Start <==> Lower(command) == "start"
    ensures a == Stop <==> Lower(command) == "stop"
    ensures a == Restart <==> Lower(command) == "restart"
  {
    var c := Lower(command);
    if c == "start" then Start
    else if c == "stop" then Stop
    else if c == "restart" then Restart
    else Unknown
  }

  /** The match ignores case: two commands that lower-case alike select the same branch. */
  lemma MatchIgnoresCase(c1: string, c2: string)
    requires Lower(c1) == Lower(c2)
    ensures MatchCommand(c1) == MatchCommand(c2)
  {
  }

  /** Lower-casing is idempotent, so a command already in lower case selects the same branch as
      any of its casings. */
  lemma LowerIdempotent(s: string)
    ensures Lower(Lower(s)) == Lower(s)
  {
  }

  /** The demo: "start" starts and "unknown" takes the default; beyond the demo, upper-case
      "STOP" stops. */
  lemma MatchDemo()
    ensures MatchCommand("start") == Start
    ensures MatchCommand("unknown") == Unknown
    ensures MatchCommand("STOP") == Stop
  {
    assert Lower("start") == "start";
    assert Lower("STOP") == "stop";
    assert Lower("unknown") == "unknown";
  }
}
