/** The scenarios of the enum tests (Tests/Utilities/EnumBaseTest.php),
    with what each test asserts as the postcondition, and the round trips
    between an instance and its name or value. */
module EnumExamples {
  import opened Types
  import opened Php
  import opened Enums

  /** The test's four-valued enum. */
  function AnEnum(): EnumClass
  {
    EnumClass("AnEnum", true, [("FIRST_VALUE", 1), ("SECOND_VALUE", 2), ("THIRD_VALUE", 3), ("FOURTH_VALUE", 4)])
  }

  /** The test's one-valued enum. */
  function AnotherEnum(): EnumClass
  {
    EnumClass("AnotherEnum", true, [("FIRST_VALUE", 1)])
  }

  /** test_Instantiation: a valid value gives its name; 5 is no value of
      the enum; a valid name gives its value; the empty name gives a blank
      instance. */
  method Instantiation() returns (first: Enum, five: Enum, named: Enum, blank: Enum)
    ensures first.Is(1) && first.GetName() == Some("FIRST_VALUE") && first.GetValue() == Some(1)
    ensures !five.Is(5)
    ensures named.Is(1)
    ensures blank.GetName() == None
  {
    var cls := AnEnum();
    ByValue(cls.constants, 1);
    assert cls.constants[0].1 == 1;
    first := new Enum(cls, Some(1), true);
    five := new Enum(cls, Some(5), true);
    ByName(cls.constants, "FIRST_VALUE");
    assert cls.constants[0].0 == "FIRST_VALUE";
    named := Enum.FromString(cls, Some("FIRST_VALUE"), true);
    blank := Enum.FromString(cls, Some(""), true);
  }

  /** test_ConstList: four names in the first enum, one in the second. */
  method ConstList() returns (counts: seq<nat>)
    ensures counts == [4, 1]
  {
    var a := Enum.GetConstList(AnEnum());
    var b := Enum.GetConstList(AnotherEnum());
    AssocSize(AnEnum().constants);
    AssocSize(AnotherEnum().constants);
    counts := [|a.byName|, |b.byName|];
  }

  /** test_Serialization: serialized as its name, then as its value. */
  method Serialization() returns (asName: string, asValue: string)
    ensures asName == "FIRST_VALUE" && asValue == "1"
  {
    var cls := AnEnum();
    ByValue(cls.constants, 1);
    assert cls.constants[0].1 == 1;
    var e := new Enum(cls, Some(1), true);
    asName := e.JsonSerialize();
    var f := new Enum(cls, Some(1), false);
    asValue := f.JsonSerialize();
  }

  /** An instance built from a valid value has a name, and `fromString` of
      that name gives the same value back. */
  method NameRoundTrip(cls: EnumClass, v: int) returns (back: Enum)
    requires cls.isEnum && Enum.ValidValue(cls, v)
    ensures back.GetValue() == Some(v)
  {
    var e := new Enum(cls, Some(v), true);
    ReverseMap(cls.constants, v);
    back := Enum.FromString(cls, e.GetName(), true);
  }

  /** An instance serialized as its value, read back as an integer and
      handed to the constructor, holds the same value and name. */
  method ValueRoundTrip(cls: EnumClass, v: int) returns (e: Enum, back: Enum)
    requires cls.isEnum && Enum.ValidValue(cls, v)
    ensures back.GetValue() == e.GetValue() == Some(v) && back.GetName() == e.GetName()
  {
    e := new Enum(cls, Some(v), false);
    back := new Enum(cls, Some(ParseInt(e.ToString())), false);
  }
}
