/** DummyEnum from optional_types_test.go: the concrete EnumType the tests
    use, a Go int64 with six named constants value1 .. value6 (0 .. 5). */
module DummyEnums {
  import opened Codec

  newtype DummyEnum = x: int | -0x8000_0000_0000_0000 <= x < 0x8000_0000_0000_0000

  const value1: DummyEnum := 0
  const value2: DummyEnum := 1
  const value3: DummyEnum := 2
  const value4: DummyEnum := 3
  const value5: DummyEnum := 4
  const value6: DummyEnum := 5

  /** The six names, in the order of the constants. */
  const Names: seq<string> := ["value1", "value2", "value3", "value4", "value5", "value6"]

  /** The names of value1 .. value5; every other value, value6 and every
      unnamed int64 alike, falls to the default case and is "value6". */
  function String(s: DummyEnum): (r: string)
    ensures r == Names[if value1 <= s <= value5 then s as int else 5]
    ensures r in Names
  {
    if s == value1 then "value1"
    else if s == value2 then "value2"
    else if s == value3 then "value3"
    else if s == value4 then "value4"
    else if s == value5 then "value5"
    else "value6"
  }

  /** Accepts exactly the six names and rejects every other string with an
      error that names it. The receiver is a copy, so the constant the source
      assigns to it is lost: the result is only an error or nil. */
  function ValueFromStr(s: DummyEnum, str: string): (r: Option<Error>)
    ensures r.None? <==> str in Names
    ensures r.Some? ==> r.value == Error("input not part of the enum: " + str)
  {
    if str == "value1" || str == "value2" || str == "value3"
       || str == "value4" || str == "value5" || str == "value6"
    then None
    else Some(Error("input not part of the enum: " + str))
  }

  /** DummyEnum as the EnumType the container is instantiated with. */
  const Ops: EnumOps<DummyEnum> := EnumOps(String, ValueFromStr)

  /** ValueFromStr accepts a string exactly when it is the String() of some
      DummyEnum. */
  lemma ValueFromStrAcceptsExactlyStrings(s: DummyEnum, str: string)
    ensures ValueFromStr(s, str).None? <==> exists x: DummyEnum :: String(x) == str
  {
    if str in Names {
      var i :| 0 <= i < |Names| && Names[i] == str;
      assert String(i as DummyEnum) == str;
    }
  }

  /** ValueFromStr(String(x)) succeeds for every x, on every receiver. */
  lemma ValueFromStrOfString(s: DummyEnum, x: DummyEnum)
    ensures ValueFromStr(s, String(x)) == None
  {
  }

  /** String is one-to-one on the six named constants. */
  lemma StringInjectiveOnNamed(x: DummyEnum, y: DummyEnum)
    requires value1 <= x <= value6 && value1 <= y <= value6
    requires String(x) == String(y)
    ensures x == y
  {
  }

  /** ValueFromStr with the variant returned instead of assigned to a copy:
      each of the six names gives its constant, anything else an error. */
  function Parse(str: string): (r: Result<DummyEnum>)
    ensures r.Ok? <==> str in Names
    ensures r.Ok? ==> value1 <= r.value <= value6 && String(r.value) == str
    ensures r.Err? ==> r.error == Error("input not part of the enum: " + str)
  {
    if str == "value1" then Ok(value1)
    else if str == "value2" then Ok(value2)
    else if str == "value3" then Ok(value3)
    else if str == "value4" then Ok(value4)
    else if str == "value5" then Ok(value5)
    else if str == "value6" then Ok(value6)
    else Err(Error("input not part of the enum: " + str))
  }

  /** Parse inverts String on the six constants; every other int64 prints as
      "value6" and comes back as value6. */
  lemma ParseString(x: DummyEnum)
    ensures Parse(String(x)) == Ok(if value1 <= x <= value6 then x else value6)
  {
  }

  /** Parse accepts exactly what ValueFromStr accepts. */
  lemma ParseAgreesWithValueFromStr(s: DummyEnum, str: string)
    ensures Parse(str).Ok? <==> ValueFromStr(s, str).None?
  {
  }

  /** DummyEnum as the storing enum capability. */
  const StoringCodec: EnumCodec<DummyEnum> := EnumCodec(String, Parse)
}
