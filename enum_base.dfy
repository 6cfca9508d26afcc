/** The enum base class (Utilities/EnumBase.php): an enum is a class whose
    integer constants name its values; an instance holds one of those
    values and its name, or nothing. The class's constants are given as
    the table of its declarations, in declaration order. */
module Enums {
  import opened Types
  import opened Php

  /** A name PHP accepts for a class constant starts with a letter or an
      underscore, never a digit, so it is never empty nor "0". */
  predicate IsIdentifier(n: string)
  {
    |n| > 0 && !IsDigit(n[0])
  }

  predicate WellFormed(cs: seq<(string, int)>)
  {
    (forall i, j :: 0 <= i < j < |cs| ==> cs[i].0 != cs[j].0)
    && (forall i :: 0 <= i < |cs| ==> IsIdentifier(cs[i].0))
  }

  /** The constants of a class, in declaration order: PHP refuses a class
      that declares a name twice. */
  type Constants = cs: seq<(string, int)> | WellFormed(cs) witness []

  /** A class that may be asked for an enum: its name, whether it extends
      the enum base class, and its constants. */
  datatype EnumClass = EnumClass(className: string, isEnum: bool, constants: Constants)

  /** `getConstList`: the constants by name, and the reverse map from each
      value to a name carrying it. */
  datatype ConstList = ConstList(byName: map<string, int>, byValue: map<int, string>)

  /** The array built by storing `pairs` one after the other: a later
      entry for a key replaces an earlier one. */
  function Assoc<K(==), V>(pairs: seq<(K, V)>): map<K, V>
    decreases |pairs|
  {
    if pairs == [] then map[]
    else
      var last := pairs[|pairs| - 1];
      Assoc(pairs[..|pairs| - 1])[last.0 := last.1]
  }

  /** The position of the entry that decides `key`: the last one storing
      it. */
  function LastIndex<K(==), V>(pairs: seq<(K, V)>, key: K): (k: nat)
    requires key in Assoc(pairs)
    ensures k < |pairs| && pairs[k] == (key, Assoc(pairs)[key])
    ensures forall j :: k < j < |pairs| ==> pairs[j].0 != key
    decreases |pairs|
  {
    var last := pairs[|pairs| - 1];
    if last.0 == key then |pairs| - 1 else LastIndex(pairs[..|pairs| - 1], key)
  }

  /** A key stored by no later entry holds the value of that entry. */
  lemma {:induction false} AssocLast<K, V>(pairs: seq<(K, V)>, k: nat)
    requires k < |pairs| && forall j :: k < j < |pairs| ==> pairs[j].0 != pairs[k].0
    ensures pairs[k].0 in Assoc(pairs) && Assoc(pairs)[pairs[k].0] == pairs[k].1
    decreases |pairs|
  {
    if k < |pairs| - 1 {
      AssocLast(pairs[..|pairs| - 1], k);
    }
  }

  /** Every stored key is in the array. */
  lemma {:induction false} AssocHas<K, V>(pairs: seq<(K, V)>, k: nat)
    requires k < |pairs|
    ensures pairs[k].0 in Assoc(pairs)
    decreases |pairs|
  {
    if k < |pairs| - 1 {
      AssocHas(pairs[..|pairs| - 1], k);
    }
  }

  /** Only stored keys are in the array. */
  lemma AssocKeys<K, V>(pairs: seq<(K, V)>)
    ensures forall key :: key in Assoc(pairs) ==> exists k :: 0 <= k < |pairs| && pairs[k].0 == key
  {
    forall key | key in Assoc(pairs)
      ensures exists k :: 0 <= k < |pairs| && pairs[k].0 == key
    {
      var k := LastIndex(pairs, key);
    }
  }

  /** Storing distinct keys gives an array of as many entries. */
  lemma {:induction false} AssocSize<K, V>(pairs: seq<(K, V)>)
    requires forall i, j :: 0 <= i < j < |pairs| ==> pairs[i].0 != pairs[j].0
    ensures |Assoc(pairs)| == |pairs|
    decreases |pairs|
  {
    if pairs != [] {
      var init := pairs[..|pairs| - 1];
      AssocSize(init);
      AssocKeys(init);
      assert pairs[|pairs| - 1].0 !in Assoc(init);
    }
  }

  /** The declarations with each value before its name. */
  function Swapped(cs: seq<(string, int)>): (r: seq<(int, string)>)
    ensures |r| == |cs| && forall k :: 0 <= k < |cs| ==> r[k] == (cs[k].1, cs[k].0)
  {
    seq(|cs|, k requires 0 <= k < |cs| => (cs[k].1, cs[k].0))
  }

  /** The constant table: the names as declared, and the reverse map built
      by storing each declaration's name under its value, in order. */
  function Consts(cs: Constants): ConstList
  {
    ConstList(Assoc(cs), Assoc(Swapped(cs)))
  }

  /** A name is in the table exactly when a constant is declared with it,
      and then it maps to that constant's value. */
  lemma ByName(cs: Constants, n: string)
    ensures n in Consts(cs).byName <==> exists k :: 0 <= k < |cs| && cs[k].0 == n
    ensures forall k :: 0 <= k < |cs| && cs[k].0 == n ==> Consts(cs).byName[n] == cs[k].1
  {
    forall k | 0 <= k < |cs| && cs[k].0 == n
      ensures n in Consts(cs).byName && Consts(cs).byName[n] == cs[k].1
    {
      AssocLast(cs, k);
    }
    if n in Consts(cs).byName {
      var k := LastIndex(cs, n);
    }
  }

  /** A value is in the reverse map exactly when some constant carries it,
      and then it maps to the last name declared with it. */
  lemma ByValue(cs: Constants, v: int)
    ensures v in Consts(cs).byValue <==> exists k :: 0 <= k < |cs| && cs[k].1 == v
    ensures forall k :: (0 <= k < |cs| && cs[k].1 == v && forall j :: k < j < |cs| ==> cs[j].1 != v)
                        ==> Consts(cs).byValue[v] == cs[k].0
  {
    var sw := Swapped(cs);
    forall k | 0 <= k < |cs| && cs[k].1 == v
      ensures v in Consts(cs).byValue
    {
      AssocHas(sw, k);
    }
    forall k | 0 <= k < |cs| && cs[k].1 == v && (forall j :: k < j < |cs| ==> cs[j].1 != v)
      ensures Consts(cs).byValue[v] == cs[k].0
    {
      AssocLast(sw, k);
    }
    if v in Consts(cs).byValue {
      var k := LastIndex(sw, v);
    }
  }

  /** The reverse map leads back: the name stored under a value is a
      declared constant whose value is that value. */
  lemma ReverseMap(cs: Constants, v: int)
    requires v in Consts(cs).byValue
    ensures Consts(cs).byValue[v] in Consts(cs).byName
    ensures Consts(cs).byName[Consts(cs).byValue[v]] == v
    ensures IsIdentifier(Consts(cs).byValue[v])
  {
    var k := LastIndex(Swapped(cs), v);
    AssocLast(cs, k);
  }

  const NotEnumText: string := "Cannot attempt to retrieve an enum from a class that doesn't extend EnumBase"

  class Enum {
    const cls: EnumClass
    var name: Option<string>
    var value: Option<int>
    var serializeAsName: bool

    /** The name and the value are set together, and the name is a
        constant of the class whose value is the value. */
    ghost predicate Valid()
      reads this
    {
      (name.None? <==> value.None?)
      && (name.Some? ==> name.value in Consts(cls.constants).byName
                         && Consts(cls.constants).byName[name.value] == value.value)
    }

    /** `getConstList`: walks the declarations and stores each name under
        its value; the reflection that lists them is not modelled, nor the
        per-class cache. */
    static method GetConstList(cls: EnumClass) returns (c: ConstList)
      ensures c == Consts(cls.constants)
    {
      var cs := cls.constants;
      var sw := Swapped(cs);
      var byValue: map<int, string> := map[];
      for k := 0 to |cs|
        invariant byValue == Assoc(sw[..k])
      {
        assert sw[..k + 1][..k] == sw[..k];
        byValue := byValue[cs[k].1 := cs[k].0];
      }
      assert sw[..|cs|] == sw;
      c := ConstList(Assoc(cs), byValue);
    }

    /** `validName`: holds exactly when a constant is declared with the
        name. */
    static function ValidName(cls: EnumClass, n: string): (r: bool)
      ensures r <==> exists k :: 0 <= k < |cls.constants| && cls.constants[k].0 == n
    {
      ByName(cls.constants, n);
      n in Consts(cls.constants).byName
    }

    /** `validValue`: holds exactly when some constant carries the value. */
    static function ValidValue(cls: EnumClass, v: int): (r: bool)
      ensures r <==> exists k :: 0 <= k < |cls.constants| && cls.constants[k].1 == v
    {
      ByValue(cls.constants, v);
      v in Consts(cls.constants).byValue
    }

    /** The constructor: a valid value is stored with the name the reverse
        map gives it; anything else leaves the instance blank. */
    constructor (cls: EnumClass, value: Option<int>, serializeAsName: bool)
      requires cls.isEnum
      ensures this.cls == cls && this.serializeAsName == serializeAsName && Valid()
      ensures value.Some? && ValidValue(cls, value.value) ==>
        this.value == value && name == Some(Consts(cls.constants).byValue[value.value])
      ensures !(value.Some? && ValidValue(cls, value.value)) ==> this.value == None && name == None
    {
      this.cls := cls;
      this.serializeAsName := serializeAsName;
      if value.Some? && ValidValue(cls, value.value) {
        var consts := GetConstList(cls);
        ReverseMap(cls.constants, value.value);
        this.name := Some(consts.byValue[value.value]);
        this.value := value;
      } else {
        this.name := None;
        this.value := None;
      }
    }

    /** `fromString`: a missing, empty or unknown name gives a blank
        instance that serializes as a name; a valid name is stored with its
        value. */
    static method FromString(cls: EnumClass, s: Option<string>, serializeAsName: bool) returns (e: Enum)
      requires cls.isEnum
      ensures fresh(e) && e.cls == cls && e.Valid()
      ensures IsEmpty(s) || !ValidName(cls, s.value) ==>
        e.name == None && e.value == None && e.serializeAsName
      ensures !(IsEmpty(s) || !ValidName(cls, s.value)) ==>
        e.name == s && e.value == Some(Consts(cls.constants).byName[s.value])
        && e.serializeAsName == serializeAsName
    {
      if IsEmpty(s) || !ValidName(cls, s.value) {
        e := new Enum(cls, None, true);
        return;
      }
      var consts := GetConstList(cls);
      e := new Enum(cls, None, serializeAsName);
      e.name := s;
      e.value := Some(consts.byName[s.value]);
    }

    function GetName(): Option<string>
      reads this
    {
      name
    }

    function GetValue(): Option<int>
      reads this
    {
      value
    }

    /** `is`: the instance holds exactly the value `v`. */
    function Is(v: int): (r: bool)
      reads this
      ensures r <==> value == Some(v)
    {
      if value.None? || value.value != v then false else true
    }

    /** `isIn`: the instance holds a value, and it is one of `values`. */
    method IsIn(values: seq<int>) returns (r: bool)
      ensures r <==> value.Some? && value.value in values
    {
      if value.None? {
        return false;
      }
      for k := 0 to |values|
        invariant value.value !in values[..k]
      {
        if value.value == values[k] {
          return true;
        }
      }
      assert values[..|values|] == values;
      return false;
    }

    /** `__toString`: the name when serializing as a name, else the value
        in decimal; the empty string for a blank instance. Either form
        reads back to the value it came from. */
    function ToString(): (r: string)
      reads this
      ensures Valid() && value.None? ==> r == ""
      ensures Valid() && serializeAsName && value.Some? ==>
        ValidName(cls, r) && Consts(cls.constants).byName[r] == value.value
      ensures !serializeAsName && value.Some? ==> ParseInt(r) == value.value
    {
      if serializeAsName then
        (if name.Some? then name.value else "")
      else if value.Some? then
        IntToStringRoundTrip(value.value);
        IntToString(value.value)
      else ""
    }

    /** `jsonSerialize`: the same string as `__toString`. */
    function JsonSerialize(): string
      reads this
    {
      ToString()
    }
  }

  /** What `tryGetEnum` is handed: nothing, an integer, or an enum
      instance. */
  datatype Candidate = NullCandidate | IntCandidate(i: int) | EnumCandidate(e: Enum)

  /** `tryGetEnum`: refuses a class that does not extend the enum base;
      returns an instance of the class itself unchanged; stores a valid
      integer in a new instance; gives a blank instance for anything
      else. */
  method TryGetEnum(candidate: Candidate, cls: EnumClass) returns (r: Result<Enum, Exception>)
    ensures r.Failure? <==> !cls.isEnum
    ensures r.Failure? ==> r.error == Exception(SplInvalidArgument, NotEnumText)
    ensures r.Success? && candidate.EnumCandidate? && candidate.e.cls == cls ==> r.value == candidate.e
    ensures r.Success? && candidate.IntCandidate? && Enum.ValidValue(cls, candidate.i) ==>
      fresh(r.value) && r.value.cls == cls && r.value.Valid() && r.value.serializeAsName
      && r.value.value == Some(candidate.i) && r.value.name == Some(Consts(cls.constants).byValue[candidate.i])
    ensures (r.Success? && !(candidate.EnumCandidate? && candidate.e.cls == cls)
             && !(candidate.IntCandidate? && Enum.ValidValue(cls, candidate.i))) ==>
      fresh(r.value) && r.value.cls == cls && r.value.Valid() && r.value.value == None && r.value.name == None
      && r.value.serializeAsName
  {
    if !cls.isEnum {
      return Failure(Exception(SplInvalidArgument, NotEnumText));
    }
    if candidate.NullCandidate? {
      var e := new Enum(cls, None, true);
      return Success(e);
    }
    if candidate.EnumCandidate? && candidate.e.cls == cls {
      return Success(candidate.e);
    }
    if !(candidate.IntCandidate? && Enum.ValidValue(cls, candidate.i)) {
      var e := new Enum(cls, None, true);
      return Success(e);
    }
    var e := new Enum(cls, Some(candidate.i), true);
    return Success(e);
  }
}
