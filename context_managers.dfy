/** The context manager demo: the `Timer`, `DatabaseConnection` and `Transaction` classes with
    `__enter__`/`__exit__`, the generator-based `temporary_attribute`, and the nested `with`
    statements whose exception reaches the surrounding `try`.

    What the managers print is recorded as a sequence of events on a console object; an
    exception is named by its type. */
module ContextManagers {
  import opened Wrappers

  /** A Python value an attribute can hold, as far as the demo needs. */
  datatype Value = PyNone | Str(s: string) | Int(i: int)

  /** What the managers print, in order. */
  datatype Event =
    | TimerStarted(description: string)
    | TimerDone(description: string, elapsed: int)
    | Connected(db: string)
    | Closed(db: string)
    | TransactionBegun
    | Committed
    | RolledBack(excType: string)
    | DatabaseOperation
    | ExceptionCaught

  /** Standard output, as the list of events printed so far. */
  class Console {
    var events: seq<Event>

    constructor ()
      ensures events == []
    {
      events := [];
    }

    method Emit(e: Event)
      modifies this
      ensures events == old(events) + [e]
    {
      events := events + [e];
    }
  }

  /** The `Timer` context manager. The clock is a parameter: `now` is what `time.time()`
      returns at that moment, in whole time units. */
  class Timer {
    const description: string
    var start: int

    constructor (description: string)
      ensures this.description == description
    {
      this.description := description;
      start := 0;
    }

    /** `__enter__`: remember the start time, announce the start and return the timer. */
    method Enter(console: Console, now: int) returns (self: Timer)
      modifies this, console
      ensures start == now && self == this
      ensures console.events == old(console.events) + [TimerStarted(description)]
    {
      start := now;
      console.Emit(TimerStarted(description));
      self := this;
    }

    /** `__exit__`: report the elapsed time and return False, so an exception propagates. */
    method Exit(console: Console, now: int, excType: Option<string>) returns (suppress: bool)
      modifies console
      ensures !suppress
      ensures console.events == old(console.events) + [TimerDone(description, now - start)]
    {
      console.Emit(TimerDone(description, now - start));
      suppress := false;
    }
  }

  /** The `DatabaseConnection` context manager. */
  class DatabaseConnection {
    const dbName: string

    constructor (dbName: string)
      ensures this.dbName == dbName
    {
      this.dbName := dbName;
    }

    /** `__enter__`: announce the connection and return the connection object. */
    method Enter(console: Console) returns (self: DatabaseConnection)
      modifies console
      ensures self == this
      ensures console.events == old(console.events) + [Connected(dbName)]
    {
      console.Emit(Connected(dbName));
      self := this;
    }

    /** `__exit__`: announce the close, with or without an exception, and return False. */
    method Exit(console: Console, excType: Option<string>) returns (suppress: bool)
      modifies console
      ensures !suppress
      ensures console.events == old(console.events) + [Closed(dbName)]
    {
      console.Emit(Closed(dbName));
      suppress := false;
    }
  }

  /** The `Transaction` context manager. */
  class Transaction {
    constructor ()
    {
    }

    /** `__enter__`: begin the transaction and return it. */
    method Enter(console: Console) returns (self: Transaction)
      modifies console
      ensures self == this
      ensures console.events == old(console.events) + [TransactionBegun]
    {
      console.Emit(TransactionBegun);
      self := this;
    }

    /** `__exit__`: commit when no exception is in flight, roll back naming its type
        otherwise, and return False. */
    method Exit(console: Console, excType: Option<string>) returns (suppress: bool)
      modifies console
      ensures !suppress
      ensures excType.None? ==> console.events == old(console.events) + [Committed]
      ensures excType.Some? ==> console.events == old(console.events) + [RolledBack(excType.value)]
    {
      if excType.None? {
        console.Emit(Committed);
      } else {
        console.Emit(RolledBack(excType.value));
      }
      suppress := false;
    }
  }

  /** `with Transaction(): <body>` where the body ends normally (`bodyRaises == None`) or by
      raising an exception of the given type: the transaction commits exactly when the body
      ended normally, and the exception, if any, leaves the `with` statement unchanged. */
  method TransactionBlock(bodyRaises: Option<string>) returns (events: seq<Event>, propagated: Option<string>)
    ensures propagated == bodyRaises
    ensures |events| == 2 && events[0] == TransactionBegun
    ensures events[1] == Committed <==> bodyRaises.None?
    ensures bodyRaises.Some? ==> events[1] == RolledBack(bodyRaises.value)
  {
    var console := new Console();
    var tx := new Transaction();
    var _ := tx.Enter(console);
    var suppress := tx.Exit(console, bodyRaises);
    propagated := if suppress then None else bodyRaises;
    events := console.events;
  }

  /** `with DatabaseConnection(db): <body>`: the connection is closed either way and the
      exception, if any, propagates. */
  method DatabaseBlock(db: string, bodyRaises: Option<string>) returns (events: seq<Event>, propagated: Option<string>)
    ensures propagated == bodyRaises
    ensures events == [Connected(db), Closed(db)]
  {
    var console := new Console();
    var conn := new DatabaseConnection(db);
    var _ := conn.Enter(console);
    var suppress := conn.Exit(console, bodyRaises);
    propagated := if suppress then None else bodyRaises;
    events := console.events;
  }

  /** `with Timer(description): <body>` between the clock readings `startTime` and `endTime`:
      the elapsed time is reported and the exception, if any, propagates. */
  method TimerBlock(description: string, startTime: int, endTime: int, bodyRaises: Option<string>)
    returns (events: seq<Event>, propagated: Option<string>)
    ensures propagated == bodyRaises
    ensures events == [TimerStarted(description), TimerDone(description, endTime - startTime)]
  {
    var console := new Console();
    var timer := new Timer(description);
    var _ := timer.Enter(console, startTime);
    var suppress := timer.Exit(console, endTime, bodyRaises);
    propagated := if suppress then None else bodyRaises;
    events := console.events;
  }

  /** The nested demo: inside `with DatabaseConnection("MyDB")` and `with Transaction()` the
      body runs its operation and raises ValueError. The transaction rolls back, the
      connection closes, neither exit suppresses the exception, and the surrounding
      `except ValueError` catches it. */
  method NestedDemo() returns (events: seq<Event>, caught: bool)
    ensures events == [Connected("MyDB"), TransactionBegun, DatabaseOperation,
                       RolledBack("ValueError"), Closed("MyDB"), ExceptionCaught]
    ensures caught
  {
    var console := new Console();
    var db := new DatabaseConnection("MyDB");
    var _ := db.Enter(console);
    var tx := new Transaction();
    var _ := tx.Enter(console);
    console.Emit(DatabaseOperation);
    var exc: Option<string> := Some("ValueError");
    var innerSuppress := tx.Exit(console, exc);
    if innerSuppress {
      exc := None;
    }
    var outerSuppress := db.Exit(console, exc);
    if outerSuppress {
      exc := None;
    }
    caught := exc == Some("ValueError");
    if caught {
      console.Emit(ExceptionCaught);
    }
    events := console.events;
  }

  /** An instance with its own attributes (`__dict__`) and the attributes of its class. */
  class PyObject {
    var attrs: map<string, Value>
    const classAttrs: map<string, Value>

    /** A fresh instance of a class with the given class attributes. */
    constructor (classAttrs: map<string, Value>)
      ensures attrs == map[] && this.classAttrs == classAttrs
    {
      attrs := map[];
      this.classAttrs := classAttrs;
    }

    /** `getattr(obj, name)`: the instance attribute, else the class attribute, else none. */
    function GetAttr(name: string): (v: Option<Value>)
      reads this
      ensures name in attrs ==> v == Some(attrs[name])
      ensures name !in attrs && name in classAttrs ==> v == Some(classAttrs[name])
      ensures v.None? <==> name !in attrs && name !in classAttrs
    {
      if name in attrs then Some(attrs[name])
      else if name in classAttrs then Some(classAttrs[name])
      else None
    }

    /** `getattr(obj, name, None)`. */
    function GetAttrOrNone(name: string): (v: Value)
      reads this
      ensures GetAttr(name).Some? ==> v == GetAttr(name).value
      ensures GetAttr(name).None? ==> v == PyNone
    {
      match GetAttr(name)
      case Some(x) => x
      case None => PyNone
    }

    /** `setattr(obj, name, value)`: sets the instance attribute. */
    method SetAttr(name: string, value: Value)
      modifies this
      ensures attrs == old(attrs)[name := value]
    {
      attrs := attrs[name := value];
    }

    /** `delattr(obj, name)`: removes the instance attribute; without one it raises
        AttributeError (`ok` is false) and changes nothing. */
    method DelAttr(name: string) returns (ok: bool)
      modifies this
      ensures ok <==> name in old(attrs)
      ensures attrs == old(attrs) - {name}
    {
      ok := name in attrs;
      attrs := attrs - {name};
    }
  }

  /** `with temporary_attribute(obj, name, value): <body>`, the body ending normally or by
      raising `bodyRaises`. Inside the block `name` reads as `value`. On the way out, whether or
      not the body raised, an old value that was not None is set back, and an old value that
      was None (or missing) makes the attribute be deleted. Nothing but `name` is touched, and
      the body's exception propagates. */
  method TemporaryAttribute(obj: PyObject, name: string, value: Value, bodyRaises: Option<string>)
    returns (inside: Option<Value>, propagated: Option<string>)
    modifies obj
    ensures inside == Some(value)
    ensures propagated == bodyRaises
    ensures old(obj.GetAttrOrNone(name)) != PyNone ==> obj.attrs == old(obj.attrs)[name := old(obj.GetAttrOrNone(name))]
    ensures old(obj.GetAttrOrNone(name)) == PyNone ==> obj.attrs == old(obj.attrs) - {name}
    ensures old(obj.GetAttrOrNone(name)) != PyNone ==> obj.GetAttr(name) == old(obj.GetAttr(name))
    ensures forall n :: n != name ==> obj.GetAttr(n) == old(obj.GetAttr(n))
  {
    var oldValue := obj.GetAttrOrNone(name);
    obj.SetAttr(name, value);
    inside := obj.GetAttr(name);
    if oldValue == PyNone {
      var _ := obj.DelAttr(name);
    } else {
      obj.SetAttr(name, oldValue);
    }
    propagated := bodyRaises;
  }

  /** The demo: `Person` has the class attribute `name = "原始名字"`. The name reads as the
      original before the block, as "临时名字" inside it, and as the original again after. */
  method TemporaryNameDemo() returns (before: Option<Value>, during: Option<Value>, after: Option<Value>)
    ensures before == Some(Str("原始名字"))
    ensures during == Some(Str("临时名字"))
    ensures after == before
  {
    var p := new PyObject(map["name" := Str("原始名字")]);
    before := p.GetAttr("name");
    var propagated;
    during, propagated := TemporaryAttribute(p, "name", Str("临时名字"), None);
    after := p.GetAttr("name");
  }

  /** As written, an attribute that exists and holds None is not restored but deleted: the
      saved value None is taken to mean "there was no attribute". */
  method NoneAttributeIsDeleted() returns (before: Option<Value>, after: Option<Value>)
    ensures before == Some(PyNone)
    ensures after == None
  {
    var p := new PyObject(map[]);
    p.SetAttr("x", PyNone);
    before := p.GetAttr("x");
    var _, _ := TemporaryAttribute(p, "x", Int(1), None);
    after := p.GetAttr("x");
  }

  /** `temporary_attribute` as evidently intended: remember whether the instance had its own
      attribute and put back exactly what was there, so the instance attributes end as they
      began, whatever value they held. */
  method TemporaryAttributeRestoring(obj: PyObject, name: string, value: Value, bodyRaises: Option<string>)
    returns (inside: Option<Value>, propagated: Option<string>)
    modifies obj
    ensures inside == Some(value)
    ensures propagated == bodyRaises
    ensures obj.attrs == old(obj.attrs)
  {
    var saved: Option<Value> := if name in obj.attrs then Some(obj.attrs[name]) else None;
    obj.SetAttr(name, value);
    inside := obj.GetAttr(name);
    match saved {
      case Some(v) => obj.SetAttr(name, v);
      case None => var _ := obj.DelAttr(name);
    }
    propagated := bodyRaises;
  }

  /** With the intended restore, an attribute holding None survives the block. */
  method NoneAttributeIsKept() returns (before: Option<Value>, after: Option<Value>)
    ensures before == Some(PyNone)
    ensures after == before
  {
    var p := new PyObject(map[]);
    p.SetAttr("x", PyNone);
    before := p.GetAttr("x");
    var _, _ := TemporaryAttributeRestoring(p, "x", Int(1), None);
    after := p.GetAttr("x");
  }
}
