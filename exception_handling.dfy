/** The exception handling demo: `divide` with a ZeroDivisionError handler, `process_data`
    with handlers for ValueError and ZeroDivisionError, the custom `InvalidAgeError` raised by
    `verify_age`, and an exception raised in `inner_function` that passes through
    `middle_function` and is caught in `outer_function`.

    A function that returns `None` after handling an exception returns `None` here; which
    handler ran is kept where the demo tells the cases apart. */
module ExceptionHandling {
  import opened Wrappers
  import opened PyStrings
  import opened PyInts

  /** `divide(a, b)`: `a / b`, or `None` when `b` is zero. */
  function Divide(a: real, b: real): (r: Option<real>)
    ensures r.None? <==> b == 0.0
    ensures r.Some? ==> r.value * b == a
  {
    if b == 0.0 then None else Some(a / b)
  }

  /** The demo: `divide(10, 2)` is 5.0 and `divide(10, 0)` is `None`. */
  lemma DivideDemo()
    ensures Divide(10.0, 2.0) == Some(5.0)
    ensures Divide(10.0, 0.0) == None
  {
  }

  /** How `process_data` ends: it returns the quotient, or returns `None` after the
      ValueError handler or after the ZeroDivisionError handler. */
  datatype DataOutcome = Quotient(value: real) | NotANumber | ZeroDivision

  /** `process_data(data)`: `100 / int(data)`. Text that `int` refuses takes the ValueError
      handler and zero takes the ZeroDivisionError handler; `int` on text raises nothing else,
      so the catch-all handler is never reached. */
  function ProcessData(data: string): (r: DataOutcome)
    ensures r.NotANumber? <==> ParseInt(data).None?
    ensures r.ZeroDivision? <==> ParseInt(data) == Some(0)
    ensures r.Quotient? ==> QuotientOf(r.value, ParseInt(data).value)
  {
    match ParseInt(data)
    case None => NotANumber
    case Some(number) =>
      if number == 0 then ZeroDivision
      else
        QuotientDivides(number);
        Quotient(100.0 / number as real)
  }

  /** `q` is 100 divided by `number`: multiplied back it gives 100. */
  ghost predicate QuotientOf(q: real, number: int) {
    q * number as real == 100.0
  }

  /** `100 / number` multiplied by `number` is 100. */
  lemma QuotientDivides(number: int)
    requires number != 0
    ensures QuotientOf(100.0 / number as real, number)
  {
  }

  /** `process_data` on the text of any non-zero integer returns 100 divided by it. */
  lemma ProcessDataOfInt(n: int)
    requires n != 0
    ensures ProcessData(ShowInt(n)) == Quotient(100.0 / n as real)
  {
    ParseShowInt(n);
  }

  /** The demo: "10" gives 10.0. */
  lemma ProcessDataTen()
    ensures ProcessData("10") == Quotient(10.0)
  {
    assert ShowInt(10) == "10" by {
      assert DigitChar(1) == '1' && DigitChar(0) == '0';
      assert ShowNat(10) == ShowNat(1) + ['0'];
    }
    ProcessDataOfInt(10);
    HundredOverTen();
  }

  /** 100 / 10 is 10. */
  lemma HundredOverTen()
    ensures 100.0 / 10 as real == 10.0
  {
  }

  /** Text without surrounding whitespace that starts with neither a sign nor a digit is not
      a number. */
  lemma ParseRejectsNonDigit(s: string)
    requires s != [] && !IsSpace(s[0]) && !IsSpace(s[|s| - 1])
    requires !IsDigit(s[0]) && s[0] != '-' && s[0] != '+'
    ensures ParseInt(s) == None
  {
    StripUnchanged(s);
  }

  /** The demo: "abc" is not a number and takes the ValueError handler. */
  lemma ProcessDataLetters()
    ensures ProcessData("abc") == NotANumber
  {
    ParseRejectsNonDigit("abc");
  }

  /** The demo: "0" takes the ZeroDivisionError handler. */
  lemma ProcessDataZero()
    ensures ProcessData("0") == ZeroDivision
  {
    assert ShowInt(0) == "0";
    ParseShowInt(0);
  }

  /** The default message of `InvalidAgeError`. */
  const AgeRangeMessage: string := "年龄必须在0-150岁之间"

  /** `InvalidAgeError(age, message)`: the exception keeps the age and the message. */
  datatype InvalidAgeError = InvalidAgeError(age: int, message: string)

  /** `verify_age(age)`: ages from 0 to 150 inclusive pass with a message that names the
      age; any other age raises `InvalidAgeError` with that age and the default message. */
  function VerifyAge(age: int): (r: Result<string, InvalidAgeError>)
    ensures r.Ok? <==> 0 <= age <= 150
    ensures r.Ok? ==> r.value == "年龄" + ShowInt(age) + "验证通过"
    ensures r.Err? ==> r.error == InvalidAgeError(age, AgeRangeMessage)
  {
    if !(0 <= age <= 150) then Err(InvalidAgeError(age, AgeRangeMessage))
    else Ok("年龄" + ShowInt(age) + "验证通过")
  }

  /** The age can be read back from the message of a passing check. */
  lemma VerifyAgeMessageNamesAge(age: int)
    requires 0 <= age <= 150
    ensures var m := VerifyAge(age).value; ParseInt(m[2..|m| - 4]) == Some(age)
  {
    var m := VerifyAge(age).value;
    assert m[2..|m| - 4] == ShowInt(age);
    ParseShowInt(age);
  }

  /** The demo: 25 passes; 200 raises with the age 200 and the default message, and the
      handler prints "错误：<message>，输入的年龄：<age>". */
  lemma VerifyAgeDemo()
    ensures VerifyAge(25) == Ok("年龄25验证通过")
    ensures VerifyAge(200).Err?
    ensures AgeErrorLine(VerifyAge(200).error) == "错误：年龄必须在0-150岁之间，输入的年龄：200"
  {
    assert ShowInt(25) == "25";
    assert "年龄" + "25" + "验证通过" == "年龄25验证通过";
    assert ShowInt(200) == "200";
    assert "错误：" + AgeRangeMessage + "，输入的年龄：" + "200" == "错误：年龄必须在0-150岁之间，输入的年龄：200";
  }

  /** What the demo's `except InvalidAgeError as e` handler prints. */
  function AgeErrorLine(e: InvalidAgeError): string {
    "错误：" + e.message + "，输入的年龄：" + ShowInt(e.age)
  }

  /** The exceptions of the propagation demo. */
  datatype PyException = ValueError(message: string)

  /** `inner_function`: raises ValueError. */
  function Inner(): (r: Result<(), PyException>)
    ensures r.Err?
  {
    Err(ValueError("这是一个内部错误"))
  }

  /** `middle_function`: calls `inner_function` without a handler, so whatever it raises
      passes through unchanged. */
  function Middle(): (r: Result<(), PyException>)
    ensures r == Inner()
  {
    Inner()
  }

  /** `outer_function`: calls `middle_function` and catches every exception, printing its
      message; it returns normally, having printed the line it returns here (or nothing). */
  function Outer(): (printed: Option<string>)
    ensures Middle().Err? ==> printed == Some("外层函数捕获到异常：" + Middle().error.message)
    ensures Middle().Ok? ==> printed.None?
  {
    match Middle()
    case Ok(_) => None
    case Err(e) => Some("外层函数捕获到异常：" + e.message)
  }

  /** The ValueError raised in `inner_function` reaches `outer_function` with its message, and
      `outer_function` itself completes normally. */
  lemma PropagationDemo()
    ensures Middle() == Err(ValueError("这是一个内部错误"))
    ensures Outer() == Some("外层函数捕获到异常：这是一个内部错误")
  {
    assert "外层函数捕获到异常：" + "这是一个内部错误" == "外层函数捕获到异常：这是一个内部错误";
  }
}
