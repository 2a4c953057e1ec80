/** The collaborators of the container: Go error values, the byte buffers of
    the JSON codec, the node tree of the YAML codec and the enum capability.
    The codecs themselves (encoding/json and gopkg.in/yaml.v3) are foreign
    code; they enter the model only as function values supplied by the caller,
    and every property that depends on how they behave is stated under an
    explicit hypothesis about them. */
module Codec {

  newtype byte = x: int | 0 <= x < 0x100

  type Bytes = seq<byte>

  /** A non-nil Go `error`; only its message is observable. */
  datatype Error = Error(message: string)

  datatype Option<T> = None | Some(value: T)

  datatype Result<T> = Ok(value: T) | Err(error: Error)

  /** The effect of a Go call that writes through a pointer and returns an
      `error`: the value the pointer refers to afterwards, and the returned
      error (None standing for nil). */
  datatype Outcome<T> = Outcome(state: T, err: Option<Error>)

  /** The JSON literal `null`, the bytes 'n' 'u' 'l' 'l'. */
  const Null: Bytes := [0x6e, 0x75, 0x6c, 0x6c]

  /** json.Marshal and json.Unmarshal for one Go type T.
      `unmarshalInto(data, x)` is `json.Unmarshal(data, &p)` where p held x
      beforehand: the value p holds afterwards and the returned error. The
      decoder writes into the existing value and may have written part of it
      before it fails, so the state after an error is left to the codec. */
  datatype JsonCodec<!T> = JsonCodec(marshal: T -> Result<Bytes>, unmarshalInto: (Bytes, T) -> Outcome<T>)

  /** JSON round trip of one value x, decoding into a fresh variable holding
      `zero`: x marshals to a non-empty payload, and that payload decodes
      back to x without error. The payload may be `null` (a nil map, slice
      or pointer marshals to it). */
  ghost predicate JsonRoundTripsAt<T>(codec: JsonCodec<T>, x: T, zero: T)
  {
    && codec.marshal(x).Ok?
    && |codec.marshal(x).value| > 0
    && codec.unmarshalInto(codec.marshal(x).value, zero) == Outcome(x, None)
  }

  /** The node kinds of gopkg.in/yaml.v3. */
  datatype Kind = DocumentNode | SequenceNode | MappingNode | ScalarNode | AliasNode

  /** A YAML node: its kind, its resolved tag, its scalar text and its children. */
  datatype Node = Node(kind: Kind, tag: string, text: string, children: seq<Node>)

  const NullTag: string := "!!null"

  /** The node the YAML encoder produces for a nil value. */
  const NullNode: Node := Node(ScalarNode, NullTag, "null", [])

  /** The test the YAML decode hooks make before decoding. */
  predicate IsNullScalar(n: Node)
  {
    n.kind == ScalarNode && n.tag == NullTag
  }

  /** `node.Decode(&x)` into a fresh zero-valued x, and the node the YAML
      encoder builds for a value of type T. */
  datatype YamlCodec<!T> = YamlCodec(decode: Node -> Result<T>, render: T -> Node)

  /** YAML round trip of one value x: its node is not a null scalar and it
      decodes back to x. A value rendered as the null scalar (a nil pointer
      or interface) fails the first conjunct: the decode hooks never pass
      that node to the codec. */
  ghost predicate YamlRoundTripsAt<T>(codec: YamlCodec<T>, x: T)
  {
    !IsNullScalar(codec.render(x)) && codec.decode(codec.render(x)) == Ok(x)
  }

  /** The EnumType interface: `String() string` and `ValueFromStr(string) error`,
      both on a value receiver. For a value-typed C, ValueFromStr can only
      accept or reject a string; the variant it finds cannot reach the
      caller. */
  datatype EnumOps<!T> = EnumOps(toString: T -> string, valueFromStr: (T, string) -> Option<Error>)

  /** The enum capability a decoder needs in order to store what it parsed:
      the canonical string of a variant, and the variant a string names. */
  datatype EnumCodec<!T> = EnumCodec(toString: T -> string, parse: string -> Result<T>)
}
