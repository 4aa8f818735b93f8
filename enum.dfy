// The base of every enumeration: an (id, name) pair validated against the
// enumeration's static table of names.  A concrete enumeration is modelled by
// the table it declares, passed to the static members and kept by each object.

module Base {
  import opened Wrappers
  import opened PhpArrays
  import opened PhpStrings

  /** A PHP scalar that may be used as an enumeration id (an array key). */
  datatype Scalar = Int(i: int) | Str(s: string)

  /** Raised by `setId` (and so by the constructor and `create`) on an unknown id. */
  datatype EnumError = MissingElement(message: string)

  /** PHP's `(string)` cast of an id. */
  function AsString(id: Scalar): (s: string)
    ensures id.Str? ==> s == id.s
    ensures id.Int? ==> IntegerKey(s) == Some(id.i)
  {
    match id
    case Int(i) =>
      IntegerKeyOfDecimal(IntToDecimal(i), i);
      IntToDecimal(i)
    case Str(s) => s
  }

  /**
   * The integer key PHP uses when `id` indexes an array: an int stands for
   * itself and a canonical decimal string is normalised to its int; any other
   * string stays a string key, which an int-keyed table never holds.
   */
  function KeyOf(id: Scalar): (r: Option<int>)
    ensures r.Some? ==> IntToDecimal(r.value) == AsString(id)
  {
    match id
    case Int(i) => Some(i)
    case Str(s) =>
      match IntegerKey(s)
      case None => None
      case Some(k) =>
        IntegerKeyOfDecimal(s, k);
        Some(k)
  }

  /** `isset($names[$id]) ? $names[$id] : <missing>` on a table of names. */
  function Lookup(names: PhpArray<int, string>, id: Scalar): (r: Option<string>)
    ensures r.Some? <==> KeyOf(id).Some? && HasKey(names, KeyOf(id).value)
    ensures r.Some? ==> r == Get(names, KeyOf(id).value)
  {
    match KeyOf(id)
    case None => None
    case Some(k) => Get(names, k)
  }

  /** The message of the exception thrown for an unknown id. */
  function MissingMessage(id: Scalar): (message: string)
    ensures |message| > |AsString(id)| && message[|message| - |AsString(id)|..] == AsString(id)
  {
    "knows nothing about such id == " + AsString(id)
  }

  /**
   * Serialising an id and reading the string back names the same table entry:
   * the key is unchanged, so is the name, and only the id's type becomes string.
   */
  lemma SerializedIdNamesSameEntry(names: PhpArray<int, string>, id: Scalar)
    ensures KeyOf(Str(AsString(id))) == KeyOf(id)
    ensures Lookup(names, Str(AsString(id))) == Lookup(names, id)
  {
  }

  class Enum {
    /** The static `names` table of the concrete enumeration. */
    const names: PhpArray<int, string>
    var id: Scalar
    var name: string

    /** The object holds a known id and that id's name. */
    ghost predicate Valid()
      reads this
    {
      Lookup(names, id) == Some(name)
    }

    /** `new static($id)`: only reachable with a known id; `Create` reports the other case. */
    constructor (names: PhpArray<int, string>, id: Scalar)
      requires Lookup(names, id).Some?
      ensures this.names == names && this.id == id
      ensures Valid()
    {
      this.names := names;
      this.id := id;
      this.name := Lookup(names, id).value;
    }

    /** `create($id)`: a new enumeration object, or `MissingElementException`. */
    static method Create(names: PhpArray<int, string>, id: Scalar) returns (r: Result<Enum, EnumError>)
      ensures r.Ok? <==> Lookup(names, id).Some?
      ensures r.Ok? ==> fresh(r.value) && r.value.names == names && r.value.id == id && r.value.Valid()
      ensures r.Err? ==> r.error == MissingElement(MissingMessage(id))
    {
      if Lookup(names, id).Some? {
        var e := new Enum(names, id);
        r := Ok(e);
      } else {
        r := Err(MissingElement(MissingMessage(id)));
      }
    }

    /** `setId($id)`: a known id replaces id and name; an unknown one throws and changes nothing. */
    method SetId(id: Scalar) returns (r: Outcome<EnumError>)
      modifies this
      ensures Lookup(names, id).Some? ==> r == Pass && this.id == id && Some(name) == Lookup(names, id)
      ensures Lookup(names, id).None? ==>
        r == Fail(MissingElement(MissingMessage(id))) && this.id == old(this.id) && name == old(name)
      ensures old(Valid()) ==> Valid()
    {
      var found := Lookup(names, id);
      if found.Some? {
        this.id := id;
        name := found.value;
        r := Pass;
      } else {
        r := Fail(MissingElement(MissingMessage(id)));
      }
    }

    /** `getId()`: the id of a valid object is always a key of the table. */
    function GetId(): (r: Scalar)
      reads this
      requires Valid()
      ensures KeyOf(r).Some? && HasKey(names, KeyOf(r).value)
      ensures Lookup(names, r) == Some(name)
    {
      id
    }

    /** `toString()`: the table's name for the current id. */
    function ToString(): (r: string)
      reads this
      requires Valid()
      ensures Lookup(names, id) == Some(r)
      ensures Get(names, KeyOf(id).value) == Some(r)
    {
      name
    }

    /** `serialize()`: the id as a string, which resolves to the same entry. */
    function Serialize(): (s: string)
      reads this
      ensures KeyOf(Str(s)) == KeyOf(id)
      ensures Valid() ==> Lookup(names, Str(s)) == Some(name)
    {
      SerializedIdNamesSameEntry(names, id);
      AsString(id)
    }

    /** `unserialize($serialized)`: `setId` with the string as id. */
    method Unserialize(serialized: string) returns (r: Outcome<EnumError>)
      modifies this
      ensures Lookup(names, Str(serialized)).Some? ==>
        r == Pass && id == Str(serialized) && Some(name) == Lookup(names, Str(serialized))
      ensures Lookup(names, Str(serialized)).None? ==>
        r == Fail(MissingElement(MissingMessage(Str(serialized)))) && id == old(id) && name == old(name)
      ensures old(Valid()) ==> Valid()
    {
      r := SetId(Str(serialized));
    }

    /** `getList()`: one new object per key of the table, in the table's order. */
    static method GetList(names: PhpArray<int, string>) returns (list: seq<Enum>)
      ensures |list| == |names|
      ensures forall i :: 0 <= i < |list| ==>
        fresh(list[i]) && list[i].names == names && list[i].id == Int(names[i].key) &&
        list[i].name == names[i].value
    {
      var keys := Keys(names);
      list := [];
      for j := 0 to |keys|
        invariant |list| == j
        invariant forall i :: 0 <= i < j ==>
          fresh(list[i]) && list[i].names == names && list[i].id == Int(names[i].key) &&
          list[i].name == names[i].value
      {
        ValueAtKey(names, j);
        var created := Create(names, Int(keys[j]));
        list := list + [created.value];
      }
    }

    /** `getNameList()`: the table itself; an id names exactly the entry it keys. */
    static function GetNameList(names: PhpArray<int, string>): (r: PhpArray<int, string>)
      ensures Keys(r) == Keys(names)
      ensures forall k :: Lookup(r, Int(k)) == Get(names, k)
    {
      names
    }

    /** `getAnyId()`: the default "existing" id, 1. */
    static function GetAnyId(): (r: int)
      ensures r == 1
    {
      1
    }
  }

  /** The entry at position `j` is the one `Get` finds for its key, and so the one its int id names. */
  lemma ValueAtKey(names: PhpArray<int, string>, j: int)
    requires 0 <= j < |names|
    ensures Get(names, names[j].key) == Some(names[j].value)
    ensures Lookup(names, Int(names[j].key)) == Some(names[j].value)
  {
  }

  /**
   * `unserialize(serialize($e))` on another object of the same enumeration:
   * the restored object has the same key and name as `$e`, its id now a string.
   */
  method SerializeRoundTrip(names: PhpArray<int, string>, id: Scalar, other: Scalar)
    returns (restored: Scalar, name: string, r: Outcome<EnumError>)
    requires Lookup(names, id).Some? && Lookup(names, other).Some?
    ensures r == Pass
    ensures KeyOf(restored) == KeyOf(id) && restored == Str(AsString(id))
    ensures Some(name) == Lookup(names, id)
  {
    var original := new Enum(names, id);
    var serialized := original.Serialize();
    var target := new Enum(names, other);
    r := target.Unserialize(serialized);
    restored := target.GetId();
    name := target.ToString();
  }

  /** A string id that is not canonical decimal (here "01") is unknown even when its value is a key. */
  method NonCanonicalIdIsMissing(names: PhpArray<int, string>) returns (r: Result<Enum, EnumError>)
    requires HasKey(names, 1)
    ensures r == Err(MissingElement(MissingMessage(Str("01"))))
  {
    assert !IsCanonicalNat("01") && "01"[0] != '-';
    assert KeyOf(Str("01")) == None;
    r := Enum.Create(names, Str("01"));
  }
}
