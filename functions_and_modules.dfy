/** The functions-and-modules demo: a plain function, a default parameter, variable positional
    arguments, keyword arguments, module-level constants and a module-level function. */
module FunctionsAndModules {
  import opened Wrappers

  /** `greet(name)`: "你好，<name>！". */
  function Greet(name: string): (r: string)
    ensures |r| == |name| + 4
    ensures r[..3] == "你好，" && r[3..|r| - 1] == name && r[|r| - 1] == '！'
  {
    "你好，" + name + "！"
  }

  /** Two different names never get the same greeting. */
  lemma GreetInjective(a: string, b: string)
    requires Greet(a) == Greet(b)
    ensures a == b
  {
    var r := Greet(a);
    assert a == r[3..|r| - 1];
  }

  /** The default `title` of `greet_with_title`. */
  const DefaultTitle: string := "先生/女士"

  /** `greet_with_title(name, title="先生/女士")`: "尊敬的<title> <name>，您好！". */
  function GreetWithTitle(name: string, title: string := DefaultTitle): (r: string)
    ensures |r| == 3 + |title| + 1 + |name| + 4
    ensures r[..3] == "尊敬的" && r[3..3 + |title|] == title && r[3 + |title|] == ' '
    ensures r[4 + |title|..|r| - 4] == name && r[|r| - 4..] == "，您好！"
  {
    "尊敬的" + title + " " + name + "，您好！"
  }

  /** The title and the name can be read back from the greeting, given the title's length (a
      title may itself hold a space, so the text alone does not always tell where it ends). */
  lemma GreetWithTitleInjective(n1: string, t1: string, n2: string, t2: string)
    requires |t1| == |t2|
    requires GreetWithTitle(n1, t1) == GreetWithTitle(n2, t2)
    ensures n1 == n2 && t1 == t2
  {
    var r := GreetWithTitle(n1, t1);
    assert t1 == r[3..3 + |t1|];
    assert n1 == r[4 + |t1|..|r| - 4];
  }

  /** The demo: "李四" with the default title, "王五" with the title "教授". */
  lemma GreetDemo()
    ensures Greet("张三") == "你好，张三！"
    ensures GreetWithTitle("李四") == "尊敬的先生/女士 李四，您好！"
    ensures GreetWithTitle("王五", "教授") == "尊敬的教授 王五，您好！"
  {
    assert "你好，" + "张三" + "！" == "你好，张三！";
    assert "尊敬的" + DefaultTitle + " " + "李四" + "，您好！" == "尊敬的先生/女士 李四，您好！";
    assert "尊敬的" + "教授" + " " + "王五" + "，您好！" == "尊敬的教授 王五，您好！";
  }

  /** `sum_numbers(*numbers)`: `sum` adds the arguments from left to right, starting at 0. */
  function SumNumbers(numbers: seq<int>): int {
    if numbers == [] then 0
    else SumNumbers(numbers[..|numbers| - 1]) + numbers[|numbers| - 1]
  }

  /** Summing two runs of arguments one after the other is summing them together. */
  lemma {:induction false} SumNumbersAppend(a: seq<int>, b: seq<int>)
    ensures SumNumbers(a + b) == SumNumbers(a) + SumNumbers(b)
  {
    if b != [] {
      var last := |b| - 1;
      assert (a + b)[..|a + b| - 1] == a + b[..last];
      SumNumbersAppend(a, b[..last]);
    } else {
      assert a + b == a;
    }
  }

  /** The sum does not depend on where it starts: the first argument plus the sum of the rest. */
  lemma SumNumbersCons(x: int, rest: seq<int>)
    ensures SumNumbers([x] + rest) == x + SumNumbers(rest)
  {
    SumNumbersAppend([x], rest);
    assert SumNumbers([x]) == SumNumbers([]) + x;
  }

  /** No arguments sum to 0; the demo's 1, 2, 3, 4, 5 sum to 15. */
  lemma SumNumbersDemo()
    ensures SumNumbers([]) == 0
    ensures SumNumbers([1, 2, 3, 4, 5]) == 15
  {
    assert [1, 2, 3, 4, 5][..4] == [1, 2, 3, 4];
    assert [1, 2, 3, 4][..3] == [1, 2, 3];
    assert [1, 2, 3][..2] == [1, 2];
    assert [1, 2][..1] == [1];
  }

  /** A keyword argument's value in the demo: text or an integer. */
  datatype Value = Str(s: string) | Int(i: int)

  /** `create_person(**properties)`: the keyword arguments as a dictionary, in the order they
      were passed; keyword names are distinct, so every name maps to its own value. */
  function CreatePerson(properties: seq<(string, Value)>): (person: seq<(string, Value)>)
    requires forall i, j :: 0 <= i < j < |properties| ==> properties[i].0 != properties[j].0
    ensures person == properties
  {
    properties
  }

  /** `d[key]` on a dictionary given as its ordered entries: the value of the first entry
      with that key, or `None` (a KeyError) when there is none. */
  function Get(entries: seq<(string, Value)>, key: string): (v: Option<Value>)
    ensures v.None? <==> forall i :: 0 <= i < |entries| ==> entries[i].0 != key
    ensures v.Some? ==> exists i :: 0 <= i < |entries| && entries[i] == (key, v.value)
  {
    if entries == [] then None
    else if entries[0].0 == key then Some(entries[0].1)
    else
      var v := Get(entries[1..], key);
      assert v.Some? ==> exists i :: 0 <= i < |entries[1..]| && entries[1..][i] == (key, v.value);
      v
  }

  /** The demo's person has the name "张三", the age 25 and the city "北京", and nothing else:
      three entries, and every other key is missing. */
  lemma CreatePersonDemo()
    ensures var p := CreatePerson([("name", Str("张三")), ("age", Int(25)), ("city", Str("北京"))]);
      && |p| == 3
      && Get(p, "name") == Some(Str("张三")) && Get(p, "age") == Some(Int(25))
      && Get(p, "city") == Some(Str("北京"))
      && forall key :: key != "name" && key != "age" && key != "city" ==> Get(p, key) == None
  {
    var p := [("name", Str("张三")), ("age", Int(25)), ("city", Str("北京"))];
    assert p[1..] == [("age", Int(25)), ("city", Str("北京"))];
    assert p[1..][1..] == [("city", Str("北京"))];
  }

  /** The module-level constants `APP_NAME` and `APP_VERSION`. */
  const AppName: string := "Python学习"
  const AppVersion: string := "1.0.0"

  /** `get_app_info()`: the name, a space, "v" and the version. */
  function GetAppInfo(): (r: string)
    ensures |r| == |AppName| + 2 + |AppVersion|
    ensures r[..|AppName|] == AppName
    ensures r[|AppName|..] == " v" + AppVersion
  {
    AppName + " v" + AppVersion
  }

  /** The demo prints "Python学习 v1.0.0". */
  lemma GetAppInfoDemo()
    ensures GetAppInfo() == "Python学习 v1.0.0"
  {
    assert AppName + " v" + AppVersion == "Python学习 v1.0.0";
  }
}
