/** Optional[C] from optional_types.go: a value together with a flag that
    says whether it is present.

    Go's value-receiver methods work on a copy of the struct and return a new
    one, so they are functions on a datatype here. The decode hooks have
    pointer receivers and write into the struct in place: each is a function
    on the datatype that gives the new struct and the returned error, and a
    method of the class OptionalVar that performs the update on fields and is
    proved equal to that function.

    Go gives every type a zero value (`var zero C`, `Optional[C]{}`); Dafny
    has none, so the zero value of C is the parameter `zero` wherever the
    source relies on it. */
module Optionals {
  import opened Codec

  datatype Optional<C> = Optional(value: C, isSet: bool)
  {
    /** Set ignores the receiver: the result is present and holds v. */
    function Set(v: C): (r: Optional<C>)
      ensures r.Get() == (v, true)
      ensures !r.IsZero()
    {
      Optional(v, true)
    }

    /** UnSet returns the zero struct, so the value is reset as well. */
    function UnSet(zero: C): (r: Optional<C>)
      ensures r == NewOptional(zero)
      ensures r.Get() == (zero, false)
    {
      Optional(zero, false)
    }

    function Get(): (C, bool)
    {
      (value, isSet)
    }

    function IsSet(): bool
    {
      isSet
    }

    /** The hook the serializers' `omitzero` option consults. */
    function IsZero(): (r: bool)
      ensures r <==> !IsSet()
      ensures r <==> !Get().1
    {
      isSet == false
    }

    /** Calls fn on the stored value WITHOUT looking at the flag. When fn
        reports a change, the result holds the new value and is present,
        even if the receiver was not; otherwise the receiver comes back as it
        was. */
    function IfSetThenDo(fn: C -> (C, bool)): (r: Optional<C>)
      ensures !fn(value).1 ==> r == this
      ensures fn(value).1 ==> r.Get() == (fn(value).0, true)
      ensures r.IsSet() <==> IsSet() || fn(value).1
    {
      var res := fn(value);
      if res.1 then this.(value := res.0, isSet := true) else this
    }

    /** An absent container marshals to exactly `null`; a present one to
        whatever json.Marshal makes of its value, error included. */
    function MarshalJSON(codec: JsonCodec<C>): (r: Result<Bytes>)
      ensures !IsSet() ==> r == Ok(Null)
      ensures IsSet() ==> r == codec.marshal(Get().0)
    {
      var (v, present) := Get();
      if present then codec.marshal(v) else Ok(Null)
    }

    /** The hook `(*Optional).UnmarshalJSON`. Empty input clears the flag and
        nothing else. Any other input, `null` included, is decoded into the
        stored value in place; a decode error is returned with the flag as it
        was, and success sets the flag. */
    function UnmarshalJSON(data: Bytes, codec: JsonCodec<C>): (r: Outcome<Optional<C>>)
      ensures |data| == 0 ==> r.err.None? && r.state == this.(isSet := false)
      ensures |data| > 0 ==> r.state.value == codec.unmarshalInto(data, value).state
      ensures |data| > 0 ==> r.err == codec.unmarshalInto(data, value).err
      ensures r.err.Some? ==> r.state.isSet == isSet
      ensures r.err.None? ==> (r.state.isSet <==> |data| > 0)
    {
      if |data| == 0 then
        Outcome(this.(isSet := false), None)
      else
        var decoded := codec.unmarshalInto(data, value);
        if decoded.err.Some? then
          Outcome(this.(value := decoded.state), decoded.err)
        else
          Outcome(Optional(decoded.state, true), None)
    }

    /** The decode hook with the behaviour the marshal hook implies: empty
        input and `null` give the absent zero container, anything else is
        decoded into a fresh variable and stored only on success. */
    function UnmarshalJSONCorrected(data: Bytes, codec: JsonCodec<C>, zero: C): (r: Outcome<Optional<C>>)
      ensures |data| == 0 || data == Null ==> r == Outcome(NewOptional(zero), None)
      ensures r.err.Some? ==> r.state == this
      ensures r.err.None? && |data| > 0 && data != Null ==>
                r.state == NewOptionalValue(codec.unmarshalInto(data, zero).state)
      ensures r.err.Some? <==> |data| > 0 && data != Null && codec.unmarshalInto(data, zero).err.Some?
      ensures r.err.Some? ==> r.err == codec.unmarshalInto(data, zero).err
    {
      if |data| == 0 || data == Null then
        Outcome(Optional(zero, false), None)
      else
        var decoded := codec.unmarshalInto(data, zero);
        if decoded.err.Some? then Outcome(this, decoded.err)
        else Outcome(Optional(decoded.state, true), None)
    }

    /** An absent container hands nil to the YAML encoder, a present one its
        value; this hook never fails. */
    function MarshalYAML(): (r: Result<Emitted<C>>)
      ensures r.Ok?
      ensures r.value.Nil? <==> !IsSet()
      ensures IsSet() ==> r.value == Emit(Get().0)
    {
      var (v, present) := Get();
      if present then Ok(Emit(v)) else Ok(Nil)
    }

    /** The hook `(*Optional).UnmarshalYAML`. A null scalar gives the zero
        value, absent. Otherwise the node is decoded into a local: an error
        leaves the receiver entirely untouched, success stores the value and
        sets the flag. */
    function UnmarshalYAML(node: Node, codec: YamlCodec<C>, zero: C): (r: Outcome<Optional<C>>)
      ensures IsNullScalar(node) ==> r == Outcome(NewOptional(zero), None)
      ensures r.err.Some? ==> r.state == this
      ensures r.err.Some? <==> !IsNullScalar(node) && codec.decode(node).Err?
      ensures !IsNullScalar(node) && codec.decode(node).Err? ==> r.err == Some(codec.decode(node).error)
      ensures !IsNullScalar(node) && codec.decode(node).Ok? ==>
                r == Outcome(NewOptionalValue(codec.decode(node).value), None)
    {
      if IsNullScalar(node) then
        Outcome(Optional(zero, false), None)
      else
        var actual := codec.decode(node);
        if actual.Err? then Outcome(this, Some(actual.error))
        else Outcome(Optional(actual.value, true), None)
    }

    /** IfSetThenDo as its name promises: fn runs only on a present value. */
    function IfSetThenDoCorrected(fn: C -> (C, bool)): (r: Optional<C>)
      ensures !IsSet() ==> r == this
      ensures IsSet() ==> r == IfSetThenDo(fn) && r.IsSet()
    {
      if isSet then IfSetThenDo(fn) else this
    }

    /** The invariant that `NewOptional`, `UnSet` and the YAML hook maintain:
        an absent container holds the zero value. */
    ghost predicate Canonical(zero: C)
    {
      isSet || value == zero
    }
  }

  /** What MarshalYAML hands to the YAML encoder: nil, or the value itself. */
  datatype Emitted<C> = Nil | Emit(value: C)

  /** The node the YAML encoder builds from what MarshalYAML returned. */
  function RenderYaml<C>(e: Emitted<C>, codec: YamlCodec<C>): Node
  {
    match e
    case Nil => NullNode
    case Emit(v) => codec.render(v)
  }

  function NewOptionalValue<C>(v: C): (r: Optional<C>)
    ensures r.Get() == (v, true)
    ensures !r.IsZero()
  {
    Optional(v, true)
  }

  function NewOptional<C>(zero: C): (r: Optional<C>)
    ensures r.Get() == (zero, false)
    ensures r.IsZero()
  {
    Optional(zero, false)
  }

  /** Present with v exactly when cond accepts v, else the zero container. */
  function NewOptionalConditional<C>(v: C, cond: C -> bool, zero: C): (r: Optional<C>)
    ensures cond(v) ==> r == NewOptionalValue(v)
    ensures !cond(v) ==> r == NewOptional(zero)
    ensures r.IsSet() <==> cond(v)
  {
    if cond(v) then NewOptionalValue(v) else NewOptional(zero)
  }

  /** One call of the accessor API or of the YAML decode hook, applied to a
      container held in a variable. */
  datatype Op<!C> =
    | SetOp(v: C)
    | UnSetOp
    | IfSetThenDoOp(fn: C -> (C, bool))
    | UnmarshalYAMLOp(node: Node, codec: YamlCodec<C>)

  function Apply<C>(o: Optional<C>, op: Op<C>, zero: C): Optional<C>
  {
    match op
    case SetOp(v) => o.Set(v)
    case UnSetOp => o.UnSet(zero)
    case IfSetThenDoOp(fn) => o.IfSetThenDo(fn)
    case UnmarshalYAMLOp(node, codec) => o.UnmarshalYAML(node, codec, zero).state
  }

  function ApplyAll<C>(o: Optional<C>, ops: seq<Op<C>>, zero: C): Optional<C>
    decreases |ops|
  {
    if ops == [] then o else ApplyAll(Apply(o, ops[0], zero), ops[1..], zero)
  }

  /** Every single call keeps an absent container at the zero value. */
  lemma ApplyKeepsCanonical<C>(o: Optional<C>, op: Op<C>, zero: C)
    requires o.Canonical(zero)
    ensures Apply(o, op, zero).Canonical(zero)
  {
  }

  /** Any sequence of accessor calls and YAML decodes, started from a
      container built by NewOptional, NewOptionalValue or
      NewOptionalConditional, keeps an absent container at the zero value:
      an unset container never carries a stale value. */
  lemma {:induction false} ApplyAllKeepsCanonical<C>(o: Optional<C>, ops: seq<Op<C>>, zero: C)
    requires o.Canonical(zero)
    ensures ApplyAll(o, ops, zero).Canonical(zero)
    decreases |ops|
  {
    if ops != [] {
      ApplyKeepsCanonical(o, ops[0], zero);
      ApplyAllKeepsCanonical(Apply(o, ops[0], zero), ops[1..], zero);
    }
  }

  /** The three constructors all yield canonical containers. */
  lemma ConstructorsAreCanonical<C>(v: C, cond: C -> bool, zero: C)
    ensures NewOptional(zero).Canonical(zero)
    ensures NewOptionalValue(v).Canonical(zero)
    ensures NewOptionalConditional(v, cond, zero).Canonical(zero)
  {
  }

  /** The JSON hook as written does not keep the invariant: empty input on
      a present container clears the flag but keeps the old value. */
  lemma EmptyJsonKeepsStaleValue<C>(v: C, zero: C, codec: JsonCodec<C>)
    requires v != zero
    ensures NewOptionalValue(v).UnmarshalJSON([], codec) == Outcome(Optional(v, false), None)
    ensures !NewOptionalValue(v).UnmarshalJSON([], codec).state.Canonical(zero)
    ensures NewOptionalValue(v).UnmarshalJSON([], codec).state.IsZero()
  {
  }

  /** The corrected JSON hook keeps the invariant. */
  lemma JsonCorrectedKeepsCanonical<C>(o: Optional<C>, data: Bytes, codec: JsonCodec<C>, zero: C)
    requires o.Canonical(zero)
    ensures o.UnmarshalJSONCorrected(data, codec, zero).state.Canonical(zero)
  {
  }

  /** Set and UnSet ignore the receiver's prior state. */
  lemma SetUnSetIgnoreReceiver<C>(a: Optional<C>, b: Optional<C>, v: C, zero: C)
    ensures a.Set(v) == b.Set(v) == NewOptionalValue(v)
    ensures a.UnSet(zero) == b.UnSet(zero) == NewOptional(zero)
  {
  }

  /** Get returns the stored value together with the flag IsSet reports;
      after Set it returns what was set, after UnSet the zero value, unset. */
  lemma GetPairsValueWithFlag<C>(o: Optional<C>, v: C, zero: C)
    ensures o.Get() == (o.value, o.IsSet())
    ensures o.Set(v).Get() == (v, true)
    ensures o.UnSet(zero).Get() == (zero, false)
  {
  }

  /** IsSet reports the flag, and IsZero is its negation. */
  lemma AccessorsAgree<C>(o: Optional<C>)
    ensures o.IsSet() == o.isSet
    ensures o.IsZero() == !o.IsSet()
  {
  }

  /** IfSetThenDo runs fn on an absent container too, and a reported change
      makes it present. */
  lemma IfSetThenDoRunsWhenUnset<C>(zero: C, fn: C -> (C, bool))
    requires fn(zero).1
    ensures NewOptional(zero).IfSetThenDo(fn) == NewOptionalValue(fn(zero).0)
    ensures NewOptional(zero).IfSetThenDo(fn) != NewOptional(zero).IfSetThenDoCorrected(fn)
  {
  }

  /** JSON round trip of a present container through the hooks as written,
      decoding into a fresh zero container. */
  lemma JsonRoundTripWhenSet<C>(v: C, codec: JsonCodec<C>, zero: C)
    requires JsonRoundTripsAt(codec, v, zero)
    ensures NewOptionalValue(v).MarshalJSON(codec).Ok?
    ensures NewOptional(zero).UnmarshalJSON(NewOptionalValue(v).MarshalJSON(codec).value, codec)
            == Outcome(NewOptionalValue(v), None)
  {
  }

  /** With the hooks as written, an absent container does not survive a JSON
      round trip when the codec accepts `null` without error (encoding/json
      treats `null` as a no-op for value types): it comes back present. */
  lemma JsonNullDecodesAsSet<C>(codec: JsonCodec<C>, zero: C)
    requires codec.unmarshalInto(Null, zero) == Outcome(zero, None)
    ensures NewOptional(zero).MarshalJSON(codec) == Ok(Null)
    ensures NewOptional(zero).UnmarshalJSON(Null, codec) == Outcome(NewOptionalValue(zero), None)
    ensures NewOptional(zero).UnmarshalJSON(Null, codec).state.IsSet()
  {
  }

  /** With the corrected decode hook, every canonical container survives a
      JSON round trip, present or absent, whatever the target held before,
      provided a present value does not marshal to `null`. */
  lemma JsonRoundTrip<C>(o: Optional<C>, target: Optional<C>, codec: JsonCodec<C>, zero: C)
    requires o.Canonical(zero)
    requires o.IsSet() ==> JsonRoundTripsAt(codec, o.value, zero) && codec.marshal(o.value).value != Null
    ensures o.MarshalJSON(codec).Ok?
    ensures target.UnmarshalJSONCorrected(o.MarshalJSON(codec).value, codec, zero) == Outcome(o, None)
  {
  }

  /** The price of the corrected decode hook: a present value that marshals
      to `null` (a nil map, slice or pointer) comes back absent, where the
      hook as written keeps it present. */
  lemma JsonCorrectedLosesNullValue<C>(x: C, target: Optional<C>, codec: JsonCodec<C>, zero: C)
    requires codec.marshal(x) == Ok(Null)
    requires codec.unmarshalInto(Null, zero) == Outcome(x, None)
    ensures NewOptional(zero).UnmarshalJSON(NewOptionalValue(x).MarshalJSON(codec).value, codec)
            == Outcome(NewOptionalValue(x), None)
    ensures target.UnmarshalJSONCorrected(NewOptionalValue(x).MarshalJSON(codec).value, codec, zero)
            == Outcome(NewOptional(zero), None)
  {
  }

  /** Every container whose present value is not rendered as the null scalar
      keeps its presence across a YAML round trip through the hooks as
      written, whatever the target held before; a canonical one comes back
      equal. */
  lemma YamlRoundTrip<C>(o: Optional<C>, target: Optional<C>, codec: YamlCodec<C>, zero: C)
    requires o.IsSet() ==> YamlRoundTripsAt(codec, o.value)
    ensures target.UnmarshalYAML(RenderYaml(o.MarshalYAML().value, codec), codec, zero).err == None
    ensures target.UnmarshalYAML(RenderYaml(o.MarshalYAML().value, codec), codec, zero).state.IsSet() == o.IsSet()
    ensures o.Canonical(zero) ==>
              target.UnmarshalYAML(RenderYaml(o.MarshalYAML().value, codec), codec, zero) == Outcome(o, None)
  {
  }

  /** A present value the encoder renders as the null scalar (a nil pointer or
      interface) falls outside YamlRoundTrip: the decode hook takes it for an
      absent container, while the JSON hooks as written keep it present. */
  lemma YamlNullValueComesBackAbsent<C>(x: C, target: Optional<C>, codec: YamlCodec<C>, zero: C)
    requires codec.render(x) == NullNode
    ensures !YamlRoundTripsAt(codec, x)
    ensures target.UnmarshalYAML(RenderYaml(NewOptionalValue(x).MarshalYAML().value, codec), codec, zero)
            == Outcome(NewOptional(zero), None)
  {
  }

  /** `*Optional[C]`: the addressable struct the decoders write into. */
  class OptionalVar<C> {
    var value: C
    var isSet: bool

    function Current(): Optional<C>
      reads this
    {
      Optional(value, isSet)
    }

    constructor (o: Optional<C>)
      ensures Current() == o
    {
      value := o.value;
      isSet := o.isSet;
    }

    method UnmarshalJSON(data: Bytes, codec: JsonCodec<C>) returns (err: Option<Error>)
      modifies this
      ensures Outcome(Current(), err) == old(Current()).UnmarshalJSON(data, codec)
    {
      if |data| == 0 {
        isSet := false;
        return None;
      }
      var decoded := codec.unmarshalInto(data, value);
      value := decoded.state;
      if decoded.err.Some? {
        return decoded.err;
      }
      isSet := true;
      return None;
    }

    method UnmarshalYAML(node: Node, codec: YamlCodec<C>, zero: C) returns (err: Option<Error>)
      modifies this
      ensures Outcome(Current(), err) == old(Current()).UnmarshalYAML(node, codec, zero)
    {
      if node.kind == ScalarNode && node.tag == NullTag {
        value := zero;
        isSet := false;
        return None;
      }
      var actual := codec.decode(node);
      if actual.Err? {
        return Some(actual.error);
      }
      value := actual.value;
      isSet := true;
      return None;
    }
  }
}
