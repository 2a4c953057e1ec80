/** OptionalEnum[C EnumType] from optional_types.go: the same shape as
    Optional[C] for types that provide String() and ValueFromStr(string) error.
    Its accessors, its marshal hooks and its YAML decode hook behave exactly as
    Optional's (EnumMirrorsOptional); only the JSON decode hook differs. It
    decodes a JSON string and asks ValueFromStr whether that string names a
    variant, and it never stores the variant in the container. */
module OptionalEnums {
  import opened Codec
  import opened Optionals

  datatype OptionalEnum<C> = OptionalEnum(value: C, isSet: bool)
  {
    /** Set ignores the receiver: the result is present and holds v. */
    function Set(v: C): (r: OptionalEnum<C>)
      ensures r.Get() == (v, true)
      ensures !r.IsZero()
    {
      OptionalEnum(v, true)
    }

    /** UnSet returns the zero struct, so the value is reset as well. */
    function UnSet(zero: C): (r: OptionalEnum<C>)
      ensures r == NewOptionalEnum(zero)
      ensures r.Get() == (zero, false)
    {
      OptionalEnum(zero, false)
    }

    function Get(): (C, bool)
    {
      (value, isSet)
    }

    function IsSet(): bool
    {
      isSet
    }

    function IsZero(): (r: bool)
      ensures r <==> !IsSet()
      ensures r <==> !Get().1
    {
      isSet == false
    }

    /** Calls fn on the stored value without looking at the flag, as
        Optional.IfSetThenDo does. */
    function IfSetThenDo(fn: C -> (C, bool)): (r: OptionalEnum<C>)
      ensures !fn(value).1 ==> r == this
      ensures fn(value).1 ==> r.Get() == (fn(value).0, true)
      ensures r.IsSet() <==> IsSet() || fn(value).1
    {
      var res := fn(value);
      if res.1 then this.(value := res.0, isSet := true) else this
    }

    /** `null` when absent, otherwise json.Marshal of the value itself: the
        type's own JSON encoding, not its String(). */
    function MarshalJSON(codec: JsonCodec<C>): (r: Result<Bytes>)
      ensures !IsSet() ==> r == Ok(Null)
      ensures IsSet() ==> r == codec.marshal(Get().0)
    {
      var (v, present) := Get();
      if present then codec.marshal(v) else Ok(Null)
    }

    /** The hook `(*OptionalEnum).UnmarshalJSON`. Empty input changes nothing
        and is no error: the flag is not cleared. Otherwise the payload is
        decoded as a JSON string into a fresh variable and handed to
        ValueFromStr; either error is returned with the receiver untouched.
        Success sets the flag and nothing else: the stored value is never
        assigned. */
    function UnmarshalJSON(data: Bytes, strings: JsonCodec<string>, ops: EnumOps<C>): (r: Outcome<OptionalEnum<C>>)
      ensures r.state.value == value
      ensures |data| == 0 ==> r == Outcome(this, None)
      ensures r.err.Some? ==> r.state == this
      ensures r.err.None? ==> (r.state.isSet <==> isSet || |data| > 0)
      ensures |data| > 0 && strings.unmarshalInto(data, "").err.Some? ==>
                r.err == strings.unmarshalInto(data, "").err
      ensures |data| > 0 && strings.unmarshalInto(data, "").err.None? ==>
                r.err == ops.valueFromStr(value, strings.unmarshalInto(data, "").state)
    {
      if |data| == 0 then
        Outcome(this, None)
      else
        var s := strings.unmarshalInto(data, "");
        if s.err.Some? then
          Outcome(this, s.err)
        else
          var err := ops.valueFromStr(value, s.state);
          if err.Some? then Outcome(this, err)
          else Outcome(this.(isSet := true), None)
    }

    /** The marshal hook the JSON decode hook expects: a present value is
        written as the JSON string of its String(). */
    function MarshalJSONAsString(strings: JsonCodec<string>, enum: EnumCodec<C>): (r: Result<Bytes>)
      ensures !IsSet() ==> r == Ok(Null)
      ensures IsSet() ==> r == strings.marshal(enum.toString(value))
    {
      if isSet then strings.marshal(enum.toString(value)) else Ok(Null)
    }

    /** The JSON decode hook that stores what it parses: empty input and
        `null` give the absent zero container, a string naming a variant gives
        that variant, present; on any error the receiver is untouched. */
    function UnmarshalJSONCorrected(data: Bytes, strings: JsonCodec<string>, enum: EnumCodec<C>, zero: C)
      : (r: Outcome<OptionalEnum<C>>)
      ensures |data| == 0 || data == Null ==> r == Outcome(NewOptionalEnum(zero), None)
      ensures r.err.Some? ==> r.state == this
      ensures r.err.None? && |data| > 0 && data != Null ==>
                r.state.isSet && enum.parse(strings.unmarshalInto(data, "").state) == Ok(r.state.value)
      ensures r.err.Some? <==>
                && |data| > 0 && data != Null
                && (strings.unmarshalInto(data, "").err.Some? || enum.parse(strings.unmarshalInto(data, "").state).Err?)
      ensures r.err.Some? ==>
                r.err == (if strings.unmarshalInto(data, "").err.Some? then strings.unmarshalInto(data, "").err
                          else Some(enum.parse(strings.unmarshalInto(data, "").state).error))
    {
      if |data| == 0 || data == Null then
        Outcome(OptionalEnum(zero, false), None)
      else
        var s := strings.unmarshalInto(data, "");
        if s.err.Some? then
          Outcome(this, s.err)
        else
          var parsed := enum.parse(s.state);
          if parsed.Err? then Outcome(this, Some(parsed.error))
          else Outcome(OptionalEnum(parsed.value, true), None)
    }

    /** Nil when absent, the value itself when present; never fails. */
    function MarshalYAML(): (r: Result<Emitted<C>>)
      ensures r.Ok?
      ensures r.value.Nil? <==> !IsSet()
      ensures IsSet() ==> r.value == Emit(Get().0)
    {
      var (v, present) := Get();
      if present then Ok(Emit(v)) else Ok(Nil)
    }

    /** The hook `(*OptionalEnum).UnmarshalYAML`: a null scalar gives the zero
        value, absent; otherwise the node is decoded into a local with the
        type's own YAML decoding. An error leaves the receiver untouched,
        success stores the value and sets the flag. */
    function UnmarshalYAML(node: Node, codec: YamlCodec<C>, zero: C): (r: Outcome<OptionalEnum<C>>)
      ensures IsNullScalar(node) ==> r == Outcome(NewOptionalEnum(zero), None)
      ensures r.err.Some? ==> r.state == this
      ensures r.err.Some? <==> !IsNullScalar(node) && codec.decode(node).Err?
      ensures !IsNullScalar(node) && codec.decode(node).Err? ==> r.err == Some(codec.decode(node).error)
      ensures !IsNullScalar(node) && codec.decode(node).Ok? ==>
                r == Outcome(NewOptionalEnumValue(codec.decode(node).value), None)
    {
      if IsNullScalar(node) then
        Outcome(OptionalEnum(zero, false), None)
      else
        var actual := codec.decode(node);
        if actual.Err? then Outcome(this, Some(actual.error))
        else Outcome(OptionalEnum(actual.value, true), None)
    }

    /** The same struct seen as an Optional. */
    function AsOptional(): (r: Optional<C>)
      ensures r.Get() == Get()
    {
      Optional(value, isSet)
    }
  }

  function NewOptionalEnumValue<C>(v: C): (r: OptionalEnum<C>)
    ensures r.Get() == (v, true)
    ensures !r.IsZero()
  {
    OptionalEnum(v, true)
  }

  function NewOptionalEnum<C>(zero: C): (r: OptionalEnum<C>)
    ensures r.Get() == (zero, false)
    ensures r.IsZero()
  {
    OptionalEnum(zero, false)
  }

  /** Everything but the JSON decode hook behaves as it does on Optional. */
  lemma EnumMirrorsOptional<C>(e: OptionalEnum<C>, v: C, fn: C -> (C, bool), zero: C,
                               json: JsonCodec<C>, node: Node, yaml: YamlCodec<C>)
    ensures NewOptionalEnumValue(v).AsOptional() == NewOptionalValue(v)
    ensures NewOptionalEnum(zero).AsOptional() == NewOptional(zero)
    ensures e.Set(v).AsOptional() == e.AsOptional().Set(v)
    ensures e.UnSet(zero).AsOptional() == e.AsOptional().UnSet(zero)
    ensures e.IsSet() == e.AsOptional().IsSet() && e.IsZero() == e.AsOptional().IsZero()
    ensures e.IfSetThenDo(fn).AsOptional() == e.AsOptional().IfSetThenDo(fn)
    ensures e.MarshalJSON(json) == e.AsOptional().MarshalJSON(json)
    ensures e.MarshalYAML() == e.AsOptional().MarshalYAML()
    ensures e.UnmarshalYAML(node, yaml, zero).state.AsOptional()
            == e.AsOptional().UnmarshalYAML(node, yaml, zero).state
    ensures e.UnmarshalYAML(node, yaml, zero).err == e.AsOptional().UnmarshalYAML(node, yaml, zero).err
  {
  }

  /** Get returns the stored value together with the flag IsSet reports, as
      Optional's Get does. */
  lemma EnumGetPairsValueWithFlag<C>(e: OptionalEnum<C>, v: C, zero: C)
    ensures e.Get() == (e.value, e.IsSet())
    ensures e.Get() == e.AsOptional().Get()
    ensures e.Set(v).Get() == (v, true)
    ensures e.UnSet(zero).Get() == (zero, false)
  {
  }

  /** IsSet reports the flag, as Optional's IsSet does, and IsZero is its
      negation. */
  lemma EnumAccessorsAgree<C>(e: OptionalEnum<C>)
    ensures e.IsSet() == e.isSet
    ensures e.IsSet() == e.AsOptional().IsSet()
    ensures e.IsZero() == !e.IsSet()
  {
  }

  /** The enum JSON decode hook never un-sets a container: a present one
      stays present whatever the input. */
  lemma EnumJsonNeverClears<C>(e: OptionalEnum<C>, data: Bytes, strings: JsonCodec<string>, ops: EnumOps<C>)
    requires e.IsSet()
    ensures e.UnmarshalJSON(data, strings, ops).state == e
  {
  }

  /** As written, decoding a string that ValueFromStr accepts into an absent
      container makes it present with the value it had, whatever the string
      named. */
  lemma EnumJsonKeepsOldValue<C>(zero: C, data: Bytes, s: string, strings: JsonCodec<string>, ops: EnumOps<C>)
    requires |data| > 0
    requires strings.unmarshalInto(data, "") == Outcome(s, None)
    requires ops.valueFromStr(zero, s) == None
    ensures NewOptionalEnum(zero).UnmarshalJSON(data, strings, ops) == Outcome(NewOptionalEnumValue(zero), None)
  {
  }

  /** As written, a present value whose own JSON encoding is not a JSON
      string (a Go integer enum marshals as a number) does not survive a
      round trip: the decode hook returns the string decoder's error. */
  lemma EnumJsonRoundTripFailsForNonString<C>(v: C, zero: C, json: JsonCodec<C>, strings: JsonCodec<string>, ops: EnumOps<C>)
    requires json.marshal(v).Ok? && |json.marshal(v).value| > 0
    requires strings.unmarshalInto(json.marshal(v).value, "").err.Some?
    ensures NewOptionalEnum(zero).UnmarshalJSON(NewOptionalEnumValue(v).MarshalJSON(json).value, strings, ops)
            == Outcome(NewOptionalEnum(zero), strings.unmarshalInto(json.marshal(v).value, "").err)
  {
  }

  /** With the string-based marshal hook and the storing decode hook, every
      canonical container survives a JSON round trip, present or absent. */
  lemma EnumJsonRoundTrip<C>(o: OptionalEnum<C>, target: OptionalEnum<C>, strings: JsonCodec<string>,
                             enum: EnumCodec<C>, zero: C)
    requires o.AsOptional().Canonical(zero)
    requires o.IsSet() ==> JsonRoundTripsAt(strings, enum.toString(o.value), "")
    requires o.IsSet() ==> strings.marshal(enum.toString(o.value)).value != Null
    requires o.IsSet() ==> enum.parse(enum.toString(o.value)) == Ok(o.value)
    ensures o.MarshalJSONAsString(strings, enum).Ok?
    ensures target.UnmarshalJSONCorrected(o.MarshalJSONAsString(strings, enum).value, strings, enum, zero)
            == Outcome(o, None)
  {
  }

  /** Every container whose present value is not rendered as the null scalar
      keeps its presence across a YAML round trip through the hooks as
      written, whatever the target held before; a canonical one comes back
      equal. */
  lemma EnumYamlRoundTrip<C>(o: OptionalEnum<C>, target: OptionalEnum<C>, codec: YamlCodec<C>, zero: C)
    requires o.IsSet() ==> YamlRoundTripsAt(codec, o.value)
    ensures target.UnmarshalYAML(RenderYaml(o.MarshalYAML().value, codec), codec, zero).err == None
    ensures target.UnmarshalYAML(RenderYaml(o.MarshalYAML().value, codec), codec, zero).state.IsSet() == o.IsSet()
    ensures o.AsOptional().Canonical(zero) ==>
              target.UnmarshalYAML(RenderYaml(o.MarshalYAML().value, codec), codec, zero) == Outcome(o, None)
  {
  }

  /** As on Optional, a present value rendered as the null scalar comes back
      as the absent zero container. */
  lemma EnumYamlNullValueComesBackAbsent<C>(x: C, target: OptionalEnum<C>, codec: YamlCodec<C>, zero: C)
    requires codec.render(x) == NullNode
    ensures !YamlRoundTripsAt(codec, x)
    ensures target.UnmarshalYAML(RenderYaml(NewOptionalEnumValue(x).MarshalYAML().value, codec), codec, zero)
            == Outcome(NewOptionalEnum(zero), None)
  {
  }

  /** `*OptionalEnum[C]`: the addressable struct the decoders write into. */
  class OptionalEnumVar<C> {
    var value: C
    var isSet: bool

    function Current(): OptionalEnum<C>
      reads this
    {
      OptionalEnum(value, isSet)
    }

    constructor (o: OptionalEnum<C>)
      ensures Current() == o
    {
      value := o.value;
      isSet := o.isSet;
    }

    method UnmarshalJSON(data: Bytes, strings: JsonCodec<string>, ops: EnumOps<C>) returns (err: Option<Error>)
      modifies this
      ensures Outcome(Current(), err) == old(Current()).UnmarshalJSON(data, strings, ops)
    {
      if |data| == 0 {
        return None;
      }
      var s := strings.unmarshalInto(data, "");
      if s.err.Some? {
        return s.err;
      }
      err := ops.valueFromStr(value, s.state);
      if err.Some? {
        return err;
      }
      isSet := true;
      return None;
    }

    method UnmarshalYAML(node: Node, codec: YamlCodec<C>, zero: C) returns (err: Option<Error>)
      modifies this
      ensures Outcome(Current(), err) == old(Current()).UnmarshalYAML(node, codec, zero)
    {
      if node.kind == ScalarNode && node.tag == NullTag {
        value := zero;
        isSet := false;
        return None;
      }
      var actual := codec.decode(node);
      if actual.Err? {
        return Some(actual.error);
      }
      value := actual.value;
      isSet := true;
      return None;
    }
  }
}
