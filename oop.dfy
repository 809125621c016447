/** The object-oriented demo: the `Animal` base class with its class-wide counter
    `species_count`, the subclasses `Dog` and `Cat`, and `BankAccount` with a validating
    `balance` property.

    The class object `Animal`, which holds the class variable, is an object of its own; every
    constructor of the hierarchy increments its counter. The three classes of the hierarchy are
    one Dafny class whose `kind` records which Python class an instance belongs to. */
module Oop {
  import opened Wrappers

  /** Which class of the hierarchy an instance was built by; a dog also has its breed. */
  datatype Kind = Base | DogKind(breed: string) | CatKind

  /** The message of the NotImplementedError raised by the base `make_sound`. */
  const SubclassMustImplement: string := "子类必须实现此方法"

  /** The class object `Animal` and its class variable `species_count`. */
  class AnimalClass {
    var speciesCount: nat

    /** The class statement: `species_count = 0`. */
    constructor ()
      ensures speciesCount == 0
    {
      speciesCount := 0;
    }

    /** The class method `get_species_count`. */
    function GetSpeciesCount(): (count: nat)
      reads this
      ensures count == speciesCount
    {
      speciesCount
    }
  }

  /** An instance of `Animal`, `Dog` or `Cat`. */
  class Animal {
    const name: string
    const species: string
    const kind: Kind

    /** `Animal(name, species)`: store both and count one more animal. */
    constructor (cls: AnimalClass, name: string, species: string)
      modifies cls
      ensures this.name == name && this.species == species && kind == Base
      ensures cls.speciesCount == old(cls.speciesCount) + 1
    {
      this.name := name;
      this.species := species;
      kind := Base;
      cls.speciesCount := cls.speciesCount + 1;
    }

    /** `Dog(name, breed)`: the base constructor with species "Dog", then the breed. */
    constructor Dog(cls: AnimalClass, name: string, breed: string)
      modifies cls
      ensures this.name == name && species == "Dog" && kind == DogKind(breed)
      ensures cls.speciesCount == old(cls.speciesCount) + 1
    {
      this.name := name;
      species := "Dog";
      kind := DogKind(breed);
      cls.speciesCount := cls.speciesCount + 1;
    }

    /** `Cat(name)`: the base constructor with species "Cat". */
    constructor Cat(cls: AnimalClass, name: string)
      modifies cls
      ensures this.name == name && species == "Cat" && kind == CatKind
      ensures cls.speciesCount == old(cls.speciesCount) + 1
    {
      this.name := name;
      species := "Cat";
      kind := CatKind;
      cls.speciesCount := cls.speciesCount + 1;
    }

    /** `make_sound`, dispatched on the class: the base class raises NotImplementedError, a
        dog barks and a cat meows, each after its name. */
    function MakeSound(): (r: Result<string, string>)
      ensures r.Err? <==> kind == Base
      ensures r.Err? ==> r.error == SubclassMustImplement
      ensures r.Ok? ==> |r.value| == |name| + 4 && r.value[..|name|] == name
    {
      match kind
      case Base => Err(SubclassMustImplement)
      case DogKind(_) => Ok(name + "：汪汪！")
      case CatKind => Ok(name + "：喵喵！")
    }

    /** The sound of a dog or a cat is its name followed by the class's own call. */
    lemma SoundSuffix()
      requires kind != Base
      ensures MakeSound().value[|name|..] == if kind.DogKind? then "：汪汪！" else "：喵喵！"
    {
    }

    /** `Dog.fetch(item)`. */
    function Fetch(item: string): (r: string)
      requires kind.DogKind?
      ensures |r| == |name| + 2 + |item| + 1
      ensures r[..|name|] == name && r[|name| + 2..|r| - 1] == item
    {
      name + "去捡" + item + "了"
    }
  }

  /** Build animals of the given kinds on a fresh class object, one per entry: afterwards
      `get_species_count()` is the number of animals built, whatever their classes. */
  method CountAnimals(kinds: seq<Kind>) returns (count: nat)
    ensures count == |kinds|
  {
    var cls := new AnimalClass();
    var i := 0;
    while i < |kinds|
      invariant 0 <= i <= |kinds|
      invariant cls.speciesCount == i
    {
      var a: Animal;
      if kinds[i].DogKind? {
        a := new Animal.Dog(cls, "", kinds[i].breed);
      } else if kinds[i].CatKind? {
        a := new Animal.Cat(cls, "");
      } else {
        a := new Animal(cls, "", "");
      }
      i := i + 1;
    }
    count := cls.GetSpeciesCount();
  }

  /** The demo: a dog "旺财" and a cat "咪咪" make their sounds, the dog fetches "球", and the
      counter reads 2. */
  method AnimalDemo() returns (sounds: seq<string>, fetched: string, count: nat)
    ensures sounds == ["旺财：汪汪！", "咪咪：喵喵！"]
    ensures fetched == "旺财去捡球了"
    ensures count == 2
  {
    var cls := new AnimalClass();
    var dog := new Animal.Dog(cls, "旺财", "金毛");
    var cat := new Animal.Cat(cls, "咪咪");
    sounds := [dog.MakeSound().value, cat.MakeSound().value];
    assert "旺财" + "：汪汪！" == "旺财：汪汪！" && "咪咪" + "：喵喵！" == "咪咪：喵喵！";
    fetched := dog.Fetch("球");
    count := cls.GetSpeciesCount();
  }

  /** The message of the ValueError raised by the `balance` setter. */
  const NegativeBalance: string := "余额不能为负数"

  /** `BankAccount` with the private attributes `_account_number` and `_balance`. */
  class BankAccount {
    const accountNumber: string
    var balance: int

    /** `BankAccount(account_number, balance=0)`: the initial balance is stored as given,
        without the setter's check. */
    constructor (accountNumber: string, balance: int := 0)
      ensures this.accountNumber == accountNumber && this.balance == balance
    {
      this.accountNumber := accountNumber;
      this.balance := balance;
    }

    /** The `balance` getter. */
    function Balance(): (b: int)
      reads this
      ensures b == balance
    {
      balance
    }

    /** The `balance` setter: a negative value raises ValueError and leaves the balance as it
        was; any other value is stored. */
    method SetBalance(value: int) returns (r: Result<(), string>)
      modifies this
      ensures value < 0 ==> r == Err(NegativeBalance) && balance == old(balance)
      ensures value >= 0 ==> r == Ok(()) && balance == value
    {
      if value < 0 {
        r := Err(NegativeBalance);
      } else {
        balance := value;
        r := Ok(());
      }
    }
  }

  /** Setting a balance and reading it back: the value set when it is not negative, the
      initial balance otherwise, and the setter fails exactly in the second case. */
  method SetThenGet(initial: int, value: int) returns (read: int, failed: bool)
    ensures failed <==> value < 0
    ensures read == if value < 0 then initial else value
  {
    var account := new BankAccount("", initial);
    var r := account.SetBalance(value);
    failed := r.Err?;
    read := account.Balance();
  }

  /** The demo: an account opened with the default balance 0 is set to 1000 and read back;
      setting -100 then fails with "余额不能为负数" and the balance stays 1000. */
  method AccountDemo() returns (shown: int, error: Option<string>, final: int)
    ensures shown == 1000
    ensures error == Some(NegativeBalance)
    ensures final == 1000
  {
    var account := new BankAccount("1234567890");
    var _ := account.SetBalance(1000);
    shown := account.Balance();
    var r := account.SetBalance(-100);
    error := if r.Err? then Some(r.error) else None;
    final := account.Balance();
  }
}
