/**
 Protobuf message descriptors as the schema compiler sees them, and the direct
 recursive reading of which JSON values are ProtoJSON for a message.
 */
module ProtoGraph {
  import opened Wrappers
  import opened JsonSchema
  import opened Reachability
  import opened WellKnownTypes

  datatype EnumValue = EnumValue(name: string, number: int, hidden: bool)

  /** Field kinds; the fixed and zig-zag encodings share the branch of their plain integer kind. */
  datatype Kind =
    | KBool
    | KString
    | KBytes
    | KInt32
    | KUint32
    | KInt64
    | KUint64
    | KFloat
    | KEnum(values: seq<EnumValue>)
    | KMessage(name: string)
    | KGroup

  /** A map field carries the kinds of the fields of its synthetic entry message. */
  datatype Shape = Singular | Repeated | MapOf(entry: seq<Kind>)

  /** `oneof` is the real (not synthetic) oneof that contains the field. */
  datatype Field = Field(
    jsonName: string,
    kind: Kind,
    shape: Shape,
    oneof: Option<string>,
    optionalKeyword: bool)

  datatype Message = Message(fields: seq<Field>, requiredOneofs: set<string>)

  type Graph = map<string, Message>

  predicate IsRequired(f: Field) {
    f.oneof.None? && f.shape.Singular? && !f.optionalKeyword
  }

  predicate DistinctJsonNames(fields: seq<Field>) {
    forall i, j | 0 <= i < j < |fields| :: fields[i].jsonName != fields[j].jsonName
  }

  function JsonNames(fields: seq<Field>): set<string> {
    set f | f in fields :: f.jsonName
  }

  predicate IsMapKey(k: Kind) {
    k.KString? || k.KBool? || k.KInt32? || k.KInt64? || k.KUint32? || k.KUint64?
  }

  predicate KindSupported(k: Kind) {
    !k.KGroup? && (k.KMessage? ==> !IsUnsupported(k.name))
  }

  predicate FieldSupported(f: Field) {
    match f.shape
    case MapOf(entry) => |entry| == 2 && IsMapKey(entry[0]) && KindSupported(entry[1])
    case _ => KindSupported(f.kind)
  }

  predicate MessageSupported(m: Message) {
    forall f | f in m.fields :: FieldSupported(f)
  }

  /** The kind of the values that a field holds: the entry's value for a map. */
  function ValueKind(f: Field): Kind {
    if f.shape.MapOf? then (if |f.shape.entry| == 2 then f.shape.entry[1] else KGroup) else f.kind
  }

  /** What protoc guarantees: distinct JSON names in a message and no dangling message types. */
  predicate WellFormed(g: Graph) {
    forall n | n in g ::
      && DistinctJsonNames(g[n].fields)
      && forall f | f in g[n].fields :: ValueKind(f).KMessage? && !IsGoogleName(ValueKind(f).name) ==> ValueKind(f).name in g
  }

  function Targets(m: Message): set<string> {
    set f | f in m.fields && ValueKind(f).KMessage? && !IsGoogleName(ValueKind(f).name) :: ValueKind(f).name
  }

  function Successors(g: Graph): map<string, set<string>> {
    map n | n in g :: Targets(g[n])
  }

  /** A required oneof with at least one member field. */
  predicate HasRequiredOneof(m: Message) {
    exists f | f in m.fields :: f.oneof.Some? && f.oneof.value in m.requiredOneofs
  }

  function VisibleNames(values: seq<EnumValue>): seq<string> {
    if values == [] then []
    else if values[0].hidden then VisibleNames(values[1..])
    else [values[0].name] + VisibleNames(values[1..])
  }

  /** A oneof member is selected by a value that is present and not null. */
  predicate IsSelected(name: string, v: Json) {
    v.JObject? && name in v.fields && !v.fields[name].JNull?
  }

  predicate HasMember(m: Message, oneof: string) {
    exists f | f in m.fields :: f.oneof == Some(oneof)
  }

  predicate MemberSelected(m: Message, oneof: string, v: Json) {
    exists f | f in m.fields :: f.oneof == Some(oneof) && IsSelected(f.jsonName, v)
  }

  /** At most one member of each oneof, and exactly one of a required oneof. */
  predicate OneofsRespected(m: Message, v: Json) {
    && (forall f, f' | f in m.fields && f' in m.fields && f.oneof.Some? && f.oneof == f'.oneof && f.jsonName != f'.jsonName ::
          !(IsSelected(f.jsonName, v) && IsSelected(f'.jsonName, v)))
    && (forall o | o in m.requiredOneofs && HasMember(m, o) :: MemberSelected(m, o, v))
  }

  predicate KeyConforms(k: Kind, key: string) {
    match k
    case KBool => key == "true" || key == "false"
    case KInt32 => PatternMatches(SignedInteger, key)
    case KInt64 => PatternMatches(SignedInteger, key)
    case KUint32 => PatternMatches(UnsignedInteger, key)
    case KUint64 => PatternMatches(UnsignedInteger, key)
    case _ => k.KString?
  }

  predicate FloatConforms(v: Json) {
    v.JNumber? || (v.JString? && v.s in ["NaN", "Infinity", "-Infinity"])
  }

  /** A wrapper type is its scalar, or null. */
  predicate WrappedConforms(t: Wrapped, v: Json) {
    match t
    case BoolW => v.JBool?
    case Int32W => HasType(TInteger, v)
    case UInt32W => HasType(TInteger, v)
    case FloatW => FloatConforms(v)
    case DoubleW => FloatConforms(v)
    case _ => v.JString?
  }

  /** The JSON form of each supported well-known type, as far as a schema tells values apart. */
  predicate WellKnownConforms(t: WellKnown, v: Json) {
    match t
    case EmptyType => v == JObject(map[])
    case TimestampType => v.JString?
    case DurationType => v.JString? && IsDuration(v.s)
    case FieldMaskType => v.JString?
    case StructType => v.JObject?
    case ListValueType => v.JArray?
    case ValueType => true
    case AnyType => v.JObject? && "@type" in v.fields && v.fields["@type"].JString?
    case WrapperType(wrapped) => v.JNull? || WrappedConforms(wrapped, v)
  }

  /**
   Whether null may stand for an absent optional field. In the strict reading it
   may not when the field is a singular message that has a required oneof.
   */
  predicate NullAllowed(g: Graph, strict: bool, f: Field) {
    strict && f.shape.Singular? && f.kind.KMessage? && !IsWellKnown(f.kind.name) && f.kind.name in g ==>
      !HasRequiredOneof(g[f.kind.name])
  }

  predicate KindConforms(g: Graph, strict: bool, k: Kind, v: Json)
    decreases v, 1
  {
    match k
    case KBool => v.JBool?
    case KString => v.JString?
    case KBytes => v.JString?
    case KInt32 => HasType(TInteger, v)
    case KUint32 => HasType(TInteger, v)
    case KInt64 => v.JString?
    case KUint64 => v.JString?
    case KFloat => FloatConforms(v)
    case KEnum(values) => v.JString? && (VisibleNames(values) != [] ==> v.s in VisibleNames(values))
    case KMessage(name) =>
      (match WellKnownOf(name)
       case Some(t) => WellKnownConforms(t, v)
       case None => MessageConforms(g, strict, name, v))
    case KGroup => false
  }

  /** The value of a field that is present. */
  predicate FieldConforms(g: Graph, strict: bool, f: Field, v: Json)
    decreases v, 2
  {
    || (!IsRequired(f) && v.JNull? && NullAllowed(g, strict, f))
    || match f.shape
       case Singular => KindConforms(g, strict, f.kind, v)
       case Repeated => v.JArray? && forall i | 0 <= i < |v.items| :: KindConforms(g, strict, f.kind, v.items[i])
       case MapOf(entry) =>
         && v.JObject?
         && |entry| == 2
         && forall k | k in v.fields :: KeyConforms(entry[0], k) && KindConforms(g, strict, entry[1], v.fields[k])
  }

  /**
   A JSON object is a `name` message: required fields are there, every key is a
   field of the message and holds a value of that field, oneofs are respected.
   */
  predicate MessageConforms(g: Graph, strict: bool, name: string, v: Json)
    decreases v, 0
  {
    && name in g
    && v.JObject?
    && (forall f | f in g[name].fields && IsRequired(f) :: f.jsonName in v.fields)
    && (forall k | k in v.fields :: k in JsonNames(g[name].fields))
    && (forall f | f in g[name].fields && f.jsonName in v.fields ::
          FieldConforms(g, strict, f, v.fields[f.jsonName]))
    && OneofsRespected(g[name], v)
  }
}
