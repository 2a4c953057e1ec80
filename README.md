# goptional in Dafny

A model of the presence-tracking container of the Go library goptional:
`Optional[C]`, a value with an `isSet` flag, and `OptionalEnum[C]`, the same
struct for enum-like types that provide `String()` and
`ValueFromStr(string) error`. It also models the JSON and YAML hooks that
`encoding/json` and `gopkg.in/yaml.v3` call on the container, and the
`DummyEnum` type and scenarios of the library's tests.

Layout:

- `codec.dfy` (module `Codec`) holds what the container talks to. Errors,
  bytes and the JSON literal `null` live here. So do a JSON codec for one Go
  type (`marshal`, and `unmarshalInto`, which decodes into an existing
  value) and the YAML node `(kind, tag, text, children)` with a YAML codec
  (`decode`, `render`). The enum capability comes in two forms: `EnumOps`,
  the interface as the source declares it, and `EnumCodec`, one whose parse
  returns the variant. The codecs are foreign code, so they are function
  values passed in. Every round-trip property names the codec behaviour it
  relies on as a hypothesis (`JsonRoundTripsAt`, `YamlRoundTripsAt`).
- `optional.dfy` (module `Optionals`) models `Optional[C]`.
  - The value-receiver methods are functions on the datatype `Optional<C>`.
  - Each pointer-receiver decode hook is a function on the datatype that
    returns the new struct and the returned error. The class `OptionalVar<C>`
    (the addressable `*Optional[C]`) also has a method that updates the
    fields in place. That method is proved equal to the function.
  - Go's zero value of `C` is the explicit parameter `zero`.
- `optional_enum.dfy` (module `OptionalEnums`) models `OptionalEnum[C]` the
  same way. It also proves that everything except its JSON decode hook
  behaves as on `Optional`.
- `dummy_enum.dfy` (module `DummyEnums`) models the tests' `DummyEnum`.
- `scenarios.dfy` (module `OptionalTypesTest`) states the tests' assertions
  as lemmas.

Where the code departs from what its method names and its other hooks
imply, the model follows the code:

- `IfSetThenDo` calls its function even on an absent container. Its name
  promises a check on the flag (optional_types.go:54-61).
- `MarshalJSON` writes `null` for an absent container (optional_types.go:90).
  `Optional.UnmarshalJSON` has no case for it and hands it to the decoder
  like any other payload (optional_types.go:71-84).
- `UnSet` and the YAML hook reset the value to zero (optional_types.go:47,
  96-98). Empty JSON input clears only the flag (optional_types.go:72-75).
- `OptionalEnum.UnmarshalJSON` decodes a string and passes it to
  `ValueFromStr`, but it never assigns the variant to `Value`
  (optional_types.go:172-183). Empty input does not clear its flag
  (optional_types.go:168-170).
- `OptionalEnum.MarshalJSON` uses the value's own JSON encoding
  (optional_types.go:188), not the string its decode hook expects.
- Containers are compared as Go structs. `require.Equal` compares both
  fields, the value and the flag, so the model uses datatype equality.
- After a failed JSON decode of an `Optional`, the value is whatever the
  decoder left in it, and the flag is unchanged (optional_types.go:77-80).

The corrected behaviour is modelled beside the as-written behaviour (see
"## Findings").

## Model

| member | source | states |
|---|---|---|
| `Optionals.NewOptionalValue` | optional_types.go:21-26 | the result reads back as `(v, true)` and is not zero |
| `Optionals.NewOptional` | optional_types.go:28-30 | the result reads back as `(zero, false)` and `IsZero()` holds |
| `Optionals.NewOptionalConditional` | optional_types.go:32-37 | equals `NewOptionalValue(v)` when the predicate accepts `v`, otherwise `NewOptional(zero)`; present exactly when the predicate holds |
| `Optionals.Optional.Set` | optional_types.go:39-44 | the result reads back as `(v, true)` whatever the receiver held |
| `Optionals.Optional.UnSet` | optional_types.go:46-48 | the result is the zero struct, identical to `NewOptional(zero)`, so the value is reset too |
| `Optionals.SetUnSetIgnoreReceiver` | optional_types.go:39-48 | `Set` and `UnSet` give the same result on any two receivers |
| `Optionals.GetPairsValueWithFlag` | optional_types.go:50-52 | `Get` returns the stored value with the flag `IsSet` reports; after `Set(v)` it is `(v, true)`, after `UnSet` `(zero, false)` |
| `Optionals.AccessorsAgree` | optional_types.go:63-69 | `IsSet` reports the flag and `IsZero` is its negation |
| `Optionals.Optional.IsZero` | optional_types.go:67-69 | `IsZero()` holds exactly when `IsSet()` does not |
| `Optionals.Optional.IfSetThenDo` | optional_types.go:54-61 | fn runs on the value whatever the flag; no change gives the receiver back, a change gives `(newValue, true)`; present afterwards iff present before or fn reported a change |
| `Optionals.IfSetThenDoRunsWhenUnset` | optional_types.go:54-61 | on an absent container a reported change yields `NewOptionalValue(newValue)`, which differs from what `IfSetThenDoCorrected` returns |
| `Optionals.Optional.IfSetThenDoCorrected` | optional_types.go:54-61 | an absent container comes back unchanged; a present one behaves as `IfSetThenDo` and stays present |
| `Optionals.Optional.MarshalJSON` | optional_types.go:86-92 | absent gives exactly `null`; present gives the codec's marshalling of the value, error included |
| `Optionals.Optional.UnmarshalJSON` | optional_types.go:71-84 | empty input clears only the flag, without error; other input, `null` included, is decoded into the stored value; an error leaves the flag unchanged; without error the result is present iff the input is non-empty |
| `Optionals.OptionalVar.UnmarshalJSON` | optional_types.go:71-84 | the in-place update leaves the fields and returns the error that `Optional.UnmarshalJSON` gives |
| `Optionals.Optional.UnmarshalJSONCorrected` | optional_types.go:71-84 | empty input and `null` give `NewOptional(zero)`; any other input is decoded into a fresh zero value; a decoder error is returned as it is, with the receiver untouched; success gives `NewOptionalValue` of the decoded value |
| `Optionals.JsonNullDecodesAsSet` | optional_types.go:71-92 | when the codec accepts `null` without error, the `null` an absent container marshals to decodes as a present container |
| `Optionals.EmptyJsonKeepsStaleValue` | optional_types.go:71-75 | empty input on a present container yields an absent container that still holds the old value |
| `Optionals.JsonRoundTripWhenSet` | optional_types.go:71-92 | a present value whose codec round-trips survives marshal and decode as written, also when it marshals to `null` |
| `Optionals.JsonRoundTrip` | optional_types.go:71-92 | with the corrected decoder every canonical container survives marshal and decode into any target: an absent one, and a present one whose value does not marshal to `null` |
| `Optionals.JsonCorrectedLosesNullValue` | optional_types.go:71-92 | a present value that marshals to `null` (nil map, slice or pointer) stays present through the hooks as written but comes back absent through the corrected decoder |
| `Optionals.JsonCorrectedKeepsCanonical` | optional_types.go:71-84 | the corrected decoder never leaves a stale value in an absent container |
| `Optionals.Optional.MarshalYAML` | optional_types.go:112-117 | never fails; hands nil exactly when absent and the value itself when present |
| `Optionals.Optional.UnmarshalYAML` | optional_types.go:94-110 | a null scalar gives `NewOptional(zero)`; an error comes back exactly when the node decoder fails, is that decoder's own error, and leaves the receiver untouched; success gives `NewOptionalValue` of the decoded value |
| `Optionals.OptionalVar.UnmarshalYAML` | optional_types.go:94-110 | the in-place update leaves the fields and returns the error that `Optional.UnmarshalYAML` gives |
| `Optionals.YamlRoundTrip` | optional_types.go:94-117 | every container that is absent, or present with a value whose node is not the null scalar, keeps its presence through marshal, rendering and a direct call of the decode hook on any target, without error; a canonical one comes back equal |
| `Optionals.YamlNullValueComesBackAbsent` | optional_types.go:94-117 | a present value rendered as the null scalar (nil pointer or interface) fails the codec round trip and comes back through the hooks as written as the absent zero container |
| `Optionals.ApplyKeepsCanonical` | optional_types.go:39-110 | one `Set`, `UnSet`, `IfSetThenDo` or YAML decode keeps an absent container at the zero value |
| `Optionals.ApplyAllKeepsCanonical` | optional_types.go:39-110 | any sequence of those calls keeps an absent container at the zero value |
| `Optionals.ConstructorsAreCanonical` | optional_types.go:21-37 | the three constructors yield containers that are present or hold the zero value |
| `OptionalEnums.NewOptionalEnumValue` | optional_types.go:124-129 | the result reads back as `(v, true)` and is not zero |
| `OptionalEnums.NewOptionalEnum` | optional_types.go:131-133 | the result reads back as `(zero, false)` and `IsZero()` holds |
| `OptionalEnums.OptionalEnum.Set` | optional_types.go:135-140 | the result reads back as `(v, true)` whatever the receiver held |
| `OptionalEnums.OptionalEnum.UnSet` | optional_types.go:142-144 | the result is `NewOptionalEnum(zero)`, so the value is reset too |
| `OptionalEnums.EnumGetPairsValueWithFlag` | optional_types.go:146-148 | `Get` returns the stored value with the flag, as `Optional.Get` does; after `Set(v)` it is `(v, true)`, after `UnSet` `(zero, false)` |
| `OptionalEnums.EnumAccessorsAgree` | optional_types.go:159-161 | `IsSet` reports the flag, as `Optional.IsSet` does, and `IsZero` is its negation |
| `OptionalEnums.OptionalEnum.IsZero` | optional_types.go:159-165 | `IsZero()` holds exactly when `IsSet()` does not |
| `OptionalEnums.OptionalEnum.IfSetThenDo` | optional_types.go:150-157 | as on `Optional`: fn runs whatever the flag, a change gives `(newValue, true)`, no change gives the receiver |
| `OptionalEnums.OptionalEnum.MarshalJSON` | optional_types.go:186-192 | absent gives exactly `null`; present gives the value's own JSON encoding |
| `OptionalEnums.OptionalEnum.UnmarshalJSON` | optional_types.go:167-184 | the stored value is never assigned; empty input changes nothing and returns no error; a string-decode or `ValueFromStr` error is returned with the receiver untouched; without error the flag is set iff it was set or the input is non-empty |
| `OptionalEnums.OptionalEnumVar.UnmarshalJSON` | optional_types.go:167-184 | the in-place update leaves the fields and returns the error that `OptionalEnum.UnmarshalJSON` gives |
| `OptionalEnums.OptionalEnum.MarshalJSONAsString` | optional_types.go:186-192 | absent gives `null`; present gives the JSON string of the value's `String()` |
| `OptionalEnums.OptionalEnum.UnmarshalJSONCorrected` | optional_types.go:167-184 | empty input and `null` give the absent zero container; the error returned is the string decoder's, or else the parse error naming the string, with the receiver untouched; success stores the variant the decoded string parses to |
| `OptionalEnums.OptionalEnum.MarshalYAML` | optional_types.go:212-217 | never fails; hands nil exactly when absent and the value when present |
| `OptionalEnums.OptionalEnum.UnmarshalYAML` | optional_types.go:194-210 | a null scalar gives `NewOptionalEnum(zero)`; an error comes back exactly when the node decoder fails, is that decoder's own error, and leaves the receiver untouched; success stores the decoded value, present |
| `OptionalEnums.OptionalEnumVar.UnmarshalYAML` | optional_types.go:194-210 | the in-place update leaves the fields and returns the error that `OptionalEnum.UnmarshalYAML` gives |
| `OptionalEnums.OptionalEnum.AsOptional` | optional_types.go:119-122 | the enum struct read as an `Optional` gives the same `Get()` |
| `OptionalEnums.EnumMirrorsOptional` | optional_types.go:119-217 | constructors, `Set`, `UnSet`, `IsSet`, `IsZero`, `IfSetThenDo`, both marshal hooks and the YAML decode hook agree with `Optional`'s |
| `OptionalEnums.EnumJsonNeverClears` | optional_types.go:167-184 | the enum JSON decode hook returns a present container unchanged, whatever the input |
| `OptionalEnums.EnumJsonKeepsOldValue` | optional_types.go:167-184 | an accepted string makes an absent zero container present with the zero value |
| `OptionalEnums.EnumJsonRoundTripFailsForNonString` | optional_types.go:167-192 | a present value whose own encoding is not a JSON string fails its round trip with the string decoder's error |
| `OptionalEnums.EnumJsonRoundTrip` | optional_types.go:167-192 | with the string marshal hook and the storing decode hook, every canonical container survives the JSON round trip, given a string codec that does not write a string as `null` |
| `OptionalEnums.EnumYamlRoundTrip` | optional_types.go:194-217 | every container that is absent, or present with a value whose node is not the null scalar, keeps its presence through the YAML round trip with a direct call of the decode hook on any target, without error; a canonical one comes back equal |
| `OptionalEnums.EnumYamlNullValueComesBackAbsent` | optional_types.go:194-217 | a present value rendered as the null scalar comes back as the absent zero container, as on `Optional` |
| `DummyEnums.String` | optional_types_test.go:57-72 | `value1`..`value5` give their names; every other int64 gives `"value6"` |
| `DummyEnums.ValueFromStr` | optional_types_test.go:74-92 | nil exactly for the six names; otherwise an error naming the string |
| `DummyEnums.ValueFromStrAcceptsExactlyStrings` | optional_types_test.go:57-92 | `ValueFromStr` accepts a string iff it is `String()` of some `DummyEnum` |
| `DummyEnums.ValueFromStrOfString` | optional_types_test.go:57-92 | `ValueFromStr(String(x))` succeeds for every `x` and every receiver |
| `DummyEnums.StringInjectiveOnNamed` | optional_types_test.go:57-72 | the six constants have six distinct names |
| `DummyEnums.Parse` | optional_types_test.go:74-92 | accepts exactly the six names and returns the constant whose `String()` is the input; errors name the input |
| `DummyEnums.ParseString` | optional_types_test.go:57-92 | `Parse(String(x))` is `x` for the six constants and `value6` for every other int64 |
| `DummyEnums.ParseAgreesWithValueFromStr` | optional_types_test.go:74-92 | `Parse` succeeds exactly when `ValueFromStr` does |
| `OptionalTypesTest.OptionalStringScenario` | optional_types_test.go:14-35 | zero container unset; `Set("test")` reads back; unchanged `IfSetThenDo` gives an equal container; `"newTest"` gives a different, present one |
| `OptionalTypesTest.OptionalEnumScenario` | optional_types_test.go:94-115 | the same steps with `value3` then `value5` |
| `OptionalTypesTest.NewOptionalConditionalScenario` | optional_types_test.go:201-215 | `(10, i != 10)` unset, `(10, i != 0)` holds 10, `("", s != "")` unset, `("xxx", s != "")` holds `"xxx"` |
| `OptionalTypesTest.EnumJsonDropsParsedVariant` | optional_types.go:167-184 | decoding `"value5"` into the zero `OptionalEnum[DummyEnum]` gives a present container holding `value1` |
| `OptionalTypesTest.EnumJsonAbsentRoundTripFails` | optional_types.go:167-192 | an absent `OptionalEnum[DummyEnum]` marshals to `null`; when the string decoder leaves `""` for it, the decode hook returns the error `input not part of the enum: ` and the container stays as it was |
| `OptionalTypesTest.EnumJsonAbsentRoundTripCorrected` | optional_types.go:167-192 | through the corrected hooks the same absent container comes back absent, without error |
| `OptionalTypesTest.EnumJsonRejectsUnknownName` | optional_types.go:167-184 | decoding `"purple"` returns the error `input not part of the enum: purple` and leaves the container as it was |
| `OptionalTypesTest.EnumJsonRoundTripDummy` | optional_types.go:167-192 | with the corrected hooks each of the six constants survives the JSON round trip, given a string codec that round-trips its name and does not write it as `null` |

## Left out

- The byte and node formats of `encoding/json` and `gopkg.in/yaml.v3` are foreign libraries. Their codecs are function values supplied by the caller. Go's rule that `null` decodes as a no-op is a hypothesis of `JsonNullDecodesAsSet`, not part of the model.
- The libraries find the hooks by reflection, and the `omitempty`/`omitzero` struct tags are theirs too. The container's part in them is `IsZero`, which is modelled. The YAML decode hooks are modelled as called directly on a node. yaml.v3's own dispatch may skip the hook for a `!!null` node and leave the target as it was; that dispatch is not part of this model, so "into any target" holds for the hook itself.
- `TestJson` and `TestYaml` write to and read from files under `temp/`. That I/O is not part of this model.
- `json_test.go` only marshals a record and prints it. It is not part of this model.
- `examples/main.go` is a demo program with a builder around `Set`/`Get` and printed output. It is not part of this model.
- Optionals.Optional.IfSetThenDo: fn is a pure Dafny function, so effects and panics of a Go closure are not captured. This includes the tests' `require` calls and a nil dereference on an absent `Optional[*T]`. That fn runs on an absent container shows only through its result, and only when it reports a change. With `changed=false`, `IfSetThenDo` and `IfSetThenDoCorrected` return the same container.
- OptionalEnums.OptionalEnum.IfSetThenDo: fn is pure in the same way, so the same effects are not captured.
- Optionals.JsonRoundTrip: holds only for present values that do not marshal to `null`. A nil map, slice or pointer marshals to `null` and comes back absent through the corrected decoder (`JsonCorrectedLosesNullValue`). Telling "absent" from "present and nil" would need a JSON encoding other than `null` for one of them.
- Optionals.YamlRoundTrip: holds only for present values whose node is not the null scalar. A nil pointer in `Optional[*T]` or a nil `Optional[any]` is written as `null`, and the branch at optional_types.go:95-99 decodes it as absent (`YamlNullValueComesBackAbsent`). The JSON hooks as written keep such a value present.
- OptionalEnums.EnumYamlRoundTrip: the same exclusion, for a present nil pointer-typed enum (`EnumYamlNullValueComesBackAbsent`).
- Aliasing is not modelled. When `C` is itself a pointer type, `ValueFromStr` could update a shared object. The model treats `C` as a value, as `DummyEnum` is.
- `(*OptionalEnum).IsSet` has a pointer receiver. It reads only, so it is a function on the datatype like the other accessors.
- `MarshalYAML` returns a Go `any`. The model returns `Emitted<C>` (nil or the value). The YAML encoder's turning of it into a node is `RenderYaml` with the codec's `render`.
- Go's zero value has no counterpart in Dafny. It is the parameter `zero`, and `var s Optional[string]` is `NewOptional("")`.
- Go's `int` in `TestNewOptionalConditional` is the unbounded `int` here. The constants 0 and 10 never approach its width.

## Findings

| source | as written | input that shows it | evidently intended | confidence | as-written member | corrected member |
|---|---|---|---|---|---|---|
| optional_types.go:54-61 | `IfSetThenDo` calls fn without checking `isSet`; a reported change makes an absent container present | `Optional[int]{}` with fn returning `(1, true)` gives `(1, set)` | an absent container comes back unchanged and fn does not run | medium, not executed | `Optionals.Optional.IfSetThenDo`, `Optionals.IfSetThenDoRunsWhenUnset` | `Optionals.Optional.IfSetThenDoCorrected` |
| optional_types.go:71-92 | `UnmarshalJSON` has no case for `null`, which `MarshalJSON` emits for an absent container; `encoding/json` accepts `null` as a no-op, and the flag is then set | the bytes `null` into `Optional[int]{}` give `(0, set)` | `null` decodes as absent, so an absent container round-trips; the price is that a present value marshalling to `null` (nil map, slice or pointer) comes back absent (`Optionals.JsonCorrectedLosesNullValue`); the corrected hook also decodes into a fresh zero value, so a JSON object no longer merges into a present non-nil map as line 77 does but replaces it | high, not executed | `Optionals.Optional.UnmarshalJSON`, `Optionals.JsonNullDecodesAsSet` | `Optionals.Optional.UnmarshalJSONCorrected` |
| optional_types.go:71-75 | empty input clears `isSet` but keeps the old value, unlike `UnSet` and the YAML hook | empty bytes into `NewOptionalValue(5)` give `(5, unset)` | the zero value, absent, as `UnSet` gives | medium, not executed | `Optionals.Optional.UnmarshalJSON`, `Optionals.EmptyJsonKeepsStaleValue` | `Optionals.Optional.UnmarshalJSONCorrected` |
| optional_types.go:167-184 | `UnmarshalJSON` only asks `ValueFromStr` whether the string is a name; the parsed variant is never stored | the JSON string `"value5"` into `OptionalEnum[DummyEnum]{}` gives `(value1, set)` | `(value5, set)` | high, not executed | `OptionalEnums.OptionalEnum.UnmarshalJSON`, `OptionalTypesTest.EnumJsonDropsParsedVariant` | `OptionalEnums.OptionalEnum.UnmarshalJSONCorrected` |
| optional_types.go:186-192 | `MarshalJSON` writes the value's own encoding, while the decode hook expects a JSON string | `NewOptionalEnumValue(value3)` of the int64 `DummyEnum` marshals to the number `2`, which the string decoder rejects | the JSON string of `String()`, `"value3"` | medium, not executed | `OptionalEnums.OptionalEnum.MarshalJSON`, `OptionalEnums.EnumJsonRoundTripFailsForNonString` | `OptionalEnums.OptionalEnum.MarshalJSONAsString` |
| optional_types.go:167-192 | an absent `OptionalEnum` marshals to `null`; the decode hook turns `null` into the string `""` and passes it to `ValueFromStr`, which rejects it for `DummyEnum` | `null` into `OptionalEnum[DummyEnum]{}` returns `input not part of the enum: ` | `null` decodes as absent without error | high, not executed | `OptionalEnums.OptionalEnum.UnmarshalJSON`, `OptionalTypesTest.EnumJsonAbsentRoundTripFails` | `OptionalEnums.OptionalEnum.UnmarshalJSONCorrected` |
