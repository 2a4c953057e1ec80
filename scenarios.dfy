/** The assertions of optional_types_test.go, stated as lemmas over the
    model, and the DummyEnum instances of the OptionalEnum JSON behaviour.
    The file round trips of TestJson and TestYaml are not part of this model. */
module OptionalTypesTest {
  import opened Codec
  import opened Optionals
  import opened OptionalEnums
  import opened DummyEnums

  /** TestOptionalString: the zero container is unset; Set("test") reads back;
      an IfSetThenDo that reports no change gives an equal container, one
      that reports "newTest" gives a different, present one. */
  lemma OptionalStringScenario(s: Optional<string>)
    requires s == NewOptional("")
    ensures !s.IsSet()
    ensures s.Set("test").Get() == ("test", true)
    ensures s.Set("test").IfSetThenDo((val: string) => (val, false)) == s.Set("test")
    ensures s.Set("test").IfSetThenDo((val: string) => ("newTest", true)) != s.Set("test")
    ensures s.Set("test").IfSetThenDo((val: string) => ("newTest", true)).Get() == ("newTest", true)
  {
  }

  /** TestOptionalEnum: the same steps with value3 and then value5. */
  lemma OptionalEnumScenario(s: OptionalEnum<DummyEnum>)
    requires s == NewOptionalEnum(value1)
    ensures !s.IsSet()
    ensures s.Set(value3).Get() == (value3, true)
    ensures s.Set(value3).IfSetThenDo((val: DummyEnum) => (val, false)) == s.Set(value3)
    ensures s.Set(value3).IfSetThenDo((val: DummyEnum) => (value5, true)) != s.Set(value3)
    ensures s.Set(value3).IfSetThenDo((val: DummyEnum) => (value5, true)).Get() == (value5, true)
  {
  }

  /** TestNewOptionalConditional: 10 with `i != 10` is unset, 10 with
      `i != 0` holds 10, "" with `s != ""` is unset, "xxx" holds "xxx". */
  lemma NewOptionalConditionalScenario()
    ensures !NewOptionalConditional(10, (i: int) => i != 10, 0).Get().1
    ensures NewOptionalConditional(10, (i: int) => i != 0, 0).Get() == (10, true)
    ensures !NewOptionalConditional("", (s: string) => s != "", "").Get().1
    ensures NewOptionalConditional("xxx", (s: string) => s != "", "").Get() == ("xxx", true)
  {
  }

  /** Decoding the JSON string "value5" into the zero OptionalEnum[DummyEnum]
      with the hook as written: ValueFromStr accepts it, so the container
      becomes present, but it holds value1, not value5. */
  lemma EnumJsonDropsParsedVariant(data: Bytes, strings: JsonCodec<string>)
    requires |data| > 0
    requires strings.unmarshalInto(data, "") == Outcome("value5", None)
    ensures NewOptionalEnum(value1).UnmarshalJSON(data, strings, Ops)
            == Outcome(NewOptionalEnumValue(value1), None)
    ensures NewOptionalEnum(value1).UnmarshalJSON(data, strings, Ops).state.Get() != (value5, true)
  {
  }

  /** As written, an absent OptionalEnum[DummyEnum] does not survive a JSON
      round trip: it marshals to `null`, the string decoder accepts `null` as
      a no-op and leaves "", and ValueFromStr rejects "". */
  lemma EnumJsonAbsentRoundTripFails(json: JsonCodec<DummyEnum>, strings: JsonCodec<string>)
    requires strings.unmarshalInto(Null, "") == Outcome("", None)
    ensures NewOptionalEnum(value1).MarshalJSON(json) == Ok(Null)
    ensures NewOptionalEnum(value1).UnmarshalJSON(Null, strings, Ops)
            == Outcome(NewOptionalEnum(value1), Some(Error("input not part of the enum: ")))
  {
    assert "" !in Names;
    assert "input not part of the enum: " + "" == "input not part of the enum: ";
  }

  /** The corrected hooks return the absent container for that `null`. */
  lemma EnumJsonAbsentRoundTripCorrected(target: OptionalEnum<DummyEnum>, strings: JsonCodec<string>)
    ensures target.UnmarshalJSONCorrected(NewOptionalEnum(value1).MarshalJSONAsString(strings, StoringCodec).value,
                                          strings, StoringCodec, value1)
            == Outcome(NewOptionalEnum(value1), None)
  {
  }

  /** An unknown name is rejected with an error naming it, and the
      container is left as it was. */
  lemma EnumJsonRejectsUnknownName(o: OptionalEnum<DummyEnum>, data: Bytes, strings: JsonCodec<string>)
    requires |data| > 0
    requires strings.unmarshalInto(data, "") == Outcome("purple", None)
    ensures o.UnmarshalJSON(data, strings, Ops)
            == Outcome(o, Some(Error("input not part of the enum: purple")))
  {
    assert "purple" !in Names;
    assert "input not part of the enum: " + "purple" == "input not part of the enum: purple";
  }

  /** With the string-based marshal hook and the storing decode hook, a
      named DummyEnum survives the JSON round trip. */
  lemma EnumJsonRoundTripDummy(x: DummyEnum, target: OptionalEnum<DummyEnum>, strings: JsonCodec<string>)
    requires value1 <= x <= value6
    requires JsonRoundTripsAt(strings, String(x), "")
    requires strings.marshal(String(x)).value != Null
    ensures target.UnmarshalJSONCorrected(NewOptionalEnumValue(x).MarshalJSONAsString(strings, StoringCodec).value,
                                          strings, StoringCodec, value1)
            == Outcome(NewOptionalEnumValue(x), None)
  {
  }
}
