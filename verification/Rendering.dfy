/**
 When a schema renders a message: a relation between the compiler's output and the
 message graph that leaves open whether a message is written in place or referred
 to, and the proof that every rendering means what the message means.
 */
module Rendering {
  import opened Wrappers
  import opened JsonSchema
  import opened ProtoGraph
  import opened Nullability
  import opened Oneofs
  import opened WellKnownTypes
  import opened Reachability

  const NOTHING: Schema := Not(EMPTY)

  function EnumSchema(values: seq<EnumValue>): Schema {
    EMPTY.(typ := Some(TString), enum := VisibleNames(values))
  }

  const FLOAT_NAMES: Schema := EMPTY.(typ := Some(TString), enum := ["NaN", "Infinity", "-Infinity"])

  function FloatSchema(nullable: bool): Schema {
    EMPTY.(anyOf := [OfType(TNumber), FLOAT_NAMES] + if nullable then [NULL_SCHEMA] else [])
  }

  const BASE64_SCHEMA: Schema := EMPTY.(typ := Some(TString), contentEncoding := "base64")

  /** What a wrapper type wraps. */
  function WrappedSchema(t: Wrapped): Schema {
    match t
    case BoolW => OfType(TBoolean)
    case StringW => OfType(TString)
    case BytesW => BASE64_SCHEMA
    case Int32W => OfType(TInteger)
    case UInt32W => OfType(TInteger)
    case Int64W => OfType(TString)
    case UInt64W => OfType(TString)
    case FloatW => FloatSchema(false)
    case DoubleW => FloatSchema(false)
  }

  function WellKnownSchema(t: WellKnown): Schema {
    match t
    case EmptyType => EMPTY.(typ := Some(TObject), additionalProperties := Some(NOTHING))
    case TimestampType => EMPTY.(typ := Some(TString), format := "date-time")
    case DurationType => EMPTY.(typ := Some(TString), pattern := Pattern.Duration)
    case FieldMaskType => OfType(TString)
    case StructType => EMPTY.(typ := Some(TObject), additionalProperties := Some(EMPTY))
    case ListValueType => EMPTY.(typ := Some(TArray), items := Some(EMPTY))
    case ValueType => EMPTY
    case AnyType =>
      EMPTY.(
        typ := Some(TObject),
        properties := map["@type" := OfType(TString)],
        required := ["@type"],
        additionalProperties := Some(EMPTY))
    case WrapperType(FloatW) => FloatSchema(true)
    case WrapperType(DoubleW) => FloatSchema(true)
    case WrapperType(wrapped) => NullableSchema(WrappedSchema(wrapped))
  }

  /** The kinds whose schema does not depend on the message graph. */
  predicate IsLeaf(k: Kind) {
    !k.KGroup? && (k.KMessage? ==> IsWellKnown(k.name))
  }

  function LeafSchema(k: Kind): Schema
    requires IsLeaf(k)
  {
    match k
    case KBool => OfType(TBoolean)
    case KString => OfType(TString)
    case KBytes => BASE64_SCHEMA
    case KInt32 => OfType(TInteger)
    case KUint32 => OfType(TInteger)
    case KInt64 => OfType(TString)
    case KUint64 => OfType(TString)
    case KFloat => FloatSchema(false)
    case KEnum(values) => EnumSchema(values)
    case KMessage(name) => WellKnownSchema(WellKnownOf(name).value)
  }

  function KeySchema(k: Kind): Option<Schema> {
    match k
    case KString => Some(OfType(TString))
    case KBool => Some(EMPTY.(typ := Some(TString), enum := ["true", "false"]))
    case KInt32 => Some(EMPTY.(typ := Some(TString), pattern := SignedInteger))
    case KInt64 => Some(EMPTY.(typ := Some(TString), pattern := SignedInteger))
    case KUint32 => Some(EMPTY.(typ := Some(TString), pattern := UnsignedInteger))
    case KUint64 => Some(EMPTY.(typ := Some(TString), pattern := UnsignedInteger))
    case _ => None
  }

  function RequiredNames(fields: seq<Field>): seq<string> {
    if fields == [] then []
    else
      var last := fields[|fields| - 1];
      RequiredNames(fields[..|fields| - 1]) + if IsRequired(last) then [last.jsonName] else []
  }

  function ObjectShell(m: Message, properties: map<string, Schema>, nullable: bool): Schema {
    EMPTY.(
      typ := if nullable then None else Some(TObject),
      types := if nullable then [TObject, TNull] else [],
      properties := properties,
      required := RequiredNames(m.fields),
      additionalProperties := Some(NOTHING),
      allOf := OneofConstraints(m))
  }

  function ListShell(items: Schema): Schema {
    EMPTY.(typ := Some(TArray), items := Some(items))
  }

  function MapShell(key: Schema, value: Schema): Schema {
    EMPTY.(typ := Some(TObject), propertyNames := Some(key), additionalProperties := Some(value))
  }

  function RefTo(root: string, name: string): Ref {
    if name == root then RootRef else DefRef(name)
  }

  predicate RendersKind(g: Graph, root: string, defs: set<string>, s: Schema, k: Kind, nullable: bool)
    decreases s, 1
  {
    if IsLeaf(k) then s == (if nullable then NullableSchema(LeafSchema(k)) else LeafSchema(k))
    else k.KMessage? && !IsGoogleName(k.name) && RendersMessage(g, root, defs, s, k.name, nullable)
  }

  predicate RendersByRef(root: string, defs: set<string>, s: Schema, name: string, nullable: bool) {
    var ref := OfRef(RefTo(root, name));
    (name == root || name in defs) && s == if nullable then OrNull(ref) else ref
  }

  predicate RendersMessage(g: Graph, root: string, defs: set<string>, s: Schema, name: string, nullable: bool)
    decreases s, 0, 1
  {
    RendersByRef(root, defs, s, name, nullable) || RendersInline(g, root, defs, s, name, nullable)
  }

  predicate RendersInline(g: Graph, root: string, defs: set<string>, s: Schema, name: string, nullable: bool)
    decreases s, 0, 0
  {
    && name in g
    && s == ObjectShell(g[name], s.properties, nullable)
    && s.properties.Keys == JsonNames(g[name].fields)
    && forall f | f in g[name].fields :: RendersField(g, root, defs, s.properties[f.jsonName], f)
  }

  predicate RendersField(g: Graph, root: string, defs: set<string>, s: Schema, f: Field)
    decreases s, 2
  {
    match f.shape
    case Singular => RendersKind(g, root, defs, s, f.kind, !IsRequired(f))
    case Repeated =>
      && s.items.Some?
      && s == NullableSchema(ListShell(s.items.value))
      && RendersKind(g, root, defs, s.items.value, f.kind, false)
    case MapOf(entry) =>
      && |entry| == 2
      && KeySchema(entry[0]).Some?
      && s.additionalProperties.Some?
      && s == NullableSchema(MapShell(KeySchema(entry[0]).value, s.additionalProperties.value))
      && RendersKind(g, root, defs, s.additionalProperties.value, entry[1], false)
  }

  /** A finished document: every definition is a whole object schema, none is left empty. */
  ghost predicate Compiled(g: Graph, root: string, doc: Document) {
    && WellFormed(g)
    && root !in doc.defs
    && RendersInline(g, root, doc.defs.Keys, doc.root, root, false)
    && forall n | n in doc.defs :: RendersInline(g, root, doc.defs.Keys, doc.defs[n], n, false)
  }

  // More definitions never spoil a rendering.

  lemma {:induction false} KindMonotone(g: Graph, root: string, defs: set<string>, more: set<string>, s: Schema, k: Kind, nullable: bool)
    requires defs <= more && RendersKind(g, root, defs, s, k, nullable)
    ensures RendersKind(g, root, more, s, k, nullable)
    decreases s, 1
  {
    if !IsLeaf(k) && RendersInline(g, root, defs, s, k.name, nullable) {
      InlineMonotone(g, root, defs, more, s, k.name, nullable);
    }
  }

  lemma {:induction false} InlineMonotone(g: Graph, root: string, defs: set<string>, more: set<string>, s: Schema,
                                          name: string, nullable: bool)
    requires defs <= more && RendersInline(g, root, defs, s, name, nullable)
    ensures RendersInline(g, root, more, s, name, nullable)
    decreases s, 0
  {
    forall f | f in g[name].fields
      ensures RendersField(g, root, more, s.properties[f.jsonName], f)
    {
      FieldMonotone(g, root, defs, more, s.properties[f.jsonName], f);
    }
  }

  lemma {:induction false} FieldMonotone(g: Graph, root: string, defs: set<string>, more: set<string>, s: Schema, f: Field)
    requires defs <= more && RendersField(g, root, defs, s, f)
    ensures RendersField(g, root, more, s, f)
    decreases s, 2
  {
    match f.shape
    case Singular => KindMonotone(g, root, defs, more, s, f.kind, !IsRequired(f));
    case Repeated => KindMonotone(g, root, defs, more, s.items.value, f.kind, false);
    case MapOf(entry) => KindMonotone(g, root, defs, more, s.additionalProperties.value, entry[1], false);
  }

  // nullableSchema turns a plain rendering into a nullable one.

  lemma NullableObject(m: Message, properties: map<string, Schema>)
    ensures NullableSchema(ObjectShell(m, properties, false)) == ObjectShell(m, properties, true)
  {
    DistinctExact([TObject, TNull]);
    assert [] + [TObject, TNull] == [TObject, TNull];
    DistinctFixed([TObject, TNull]);
  }

  lemma NullableRendering(g: Graph, root: string, defs: set<string>, s: Schema, k: Kind)
    requires RendersKind(g, root, defs, s, k, false)
    ensures RendersKind(g, root, defs, NullableSchema(s), k, true)
  {
    if !IsLeaf(k) && RendersInline(g, root, defs, s, k.name, false) {
      NullableObject(g[k.name], s.properties);
      var w := NullableSchema(s);
      assert w.properties == s.properties;
      assert RendersInline(g, root, defs, w, k.name, true);
    }
  }
}
