/**
 The examples that the compiler makes up, as values: which fields of a message an
 example shows, and when a message has one at all, on message graphs of any shape.
 */
module ExampleValues {
  import opened Wrappers
  import opened JsonSchema
  import opened ProtoGraph
  import opened WellKnownTypes

  const LIMIT := 5

  // The literal examples.

  /** The first value whose number is not zero. */
  function NonZero(values: seq<EnumValue>): Option<EnumValue> {
    if values == [] then None
    else if values[0].number != 0 then Some(values[0])
    else NonZero(values[1..])
  }

  function ChosenValue(values: seq<EnumValue>): EnumValue
    requires values != []
  {
    if NonZero(values).Some? then NonZero(values).value else values[0]
  }

  const STRUCT_EXAMPLE: Json :=
    JObject(map["kind" := JString("demo"), "nested" := JObject(map["ok" := JBool(true)])])

  function AnyExample(typeUrl: string, value: string): Json {
    JObject(map["@type" := JString(typeUrl), "value" := JString(value)])
  }

  function WrappedExamples(t: Wrapped): seq<Json> {
    match t
    case BoolW => [JBool(true)]
    case StringW => [JString("example")]
    case BytesW => [JString("aGVsbG8=")]
    case Int32W => [JNumber(1.0)]
    case UInt32W => [JNumber(1.0)]
    case Int64W => [JString("1")]
    case UInt64W => [JString("1")]
    case FloatW => [JNumber(1.25), JString("NaN")]
    case DoubleW => [JNumber(1.25), JString("NaN")]
  }

  function WellKnownExamples(t: WellKnown): seq<Json> {
    match t
    case EmptyType => [JObject(map[])]
    case TimestampType => [JString("2026-03-09T10:11:12Z")]
    case DurationType => [JString("3600s")]
    case FieldMaskType => [JString("fieldName,otherField")]
    case StructType => [STRUCT_EXAMPLE]
    case ListValueType => [JArray([JString("item"), JNumber(2.0), JBool(true)])]
    case ValueType => [JObject(map["kind" := JString("demo")])]
    case AnyType =>
      [AnyExample("type.googleapis.com/example.v1.Message", "replace-me"),
       AnyExample("type.googleapis.com/google.protobuf.Duration", "1s")]
    case WrapperType(wrapped) => WrappedExamples(wrapped)
  }

  function MapKeyExample(k: Kind): string {
    match k
    case KString => "key"
    case KBool => "true"
    case KInt32 => "1"
    case KInt64 => "1"
    case KUint32 => "1"
    case KUint64 => "1"
    case _ => ""
  }

  function ScalarExamples(k: Kind): seq<Json> {
    match k
    case KBool => [JBool(true)]
    case KString => [JString("example")]
    case KBytes => [JString("aGVsbG8=")]
    case KInt32 => [JNumber(-1.0)]
    case KUint32 => [JNumber(1.0)]
    case KInt64 => [JString("-1")]
    case KUint64 => [JString("1")]
    case KFloat => [JNumber(1.25), JString("NaN")]
    case KEnum(values) => if values == [] then [] else [JString(ChosenValue(values).name)]
    case _ => []
  }

  // Frames: `seen` counts the open frames of each message.

  /** Room for `LIMIT` open frames of every message. */
  function Room(g: Graph): multiset<string> {
    var names := multiset(g.Keys);
    names + names + names + names + names
  }

  lemma RoomHas(g: Graph, name: string)
    ensures Room(g)[name] == if name in g then LIMIT else 0
  {
  }

  /** A productive frame leaves less room. */
  lemma RoomShrinks<T>(room: multiset<T>, seen: multiset<T>, x: T)
    requires seen + multiset{x} <= room
    ensures room - (seen + multiset{x}) < room - seen
  {
    var less, more := room - (seen + multiset{x}), room - seen;
    forall y
      ensures less[y] <= more[y]
    {
      assert (seen + multiset{x})[y] <= room[y];
    }
    assert (seen + multiset{x})[x] == seen[x] + 1 <= room[x];
    assert less[x] < more[x];
  }

  /** Opening one more frame of a message that is below its limit. */
  lemma FrameFits(g: Graph, seen: multiset<string>, name: string)
    requires name in g && seen <= Room(g) && seen[name] < LIMIT
    ensures seen + multiset{name} <= Room(g)
    ensures Room(g) - (seen + multiset{name}) < Room(g) - seen
  {
    RoomHas(g, name);
    RoomShrinks(Room(g), seen, name);
  }

  /** The first member of its oneof, if it has one; inside another frame of its message, only a required field. */
  predicate IsShown(fields: seq<Field>, i: nat, recursive: bool)
    requires i < |fields|
  {
    && (fields[i].oneof.Some? ==> forall j | 0 <= j < i :: fields[j].oneof != fields[i].oneof)
    && (recursive ==> IsRequired(fields[i]))
  }

  function KindExamples(g: Graph, seen: multiset<string>, k: Kind): seq<Json>
    requires seen <= Room(g)
    decreases Room(g) - seen, 1
  {
    match k
    case KMessage(name) =>
      (match WellKnownOf(name)
       case Some(t) => WellKnownExamples(t)
       case None =>
         if name !in g then []
         else
           match MessageExample(g, seen, name)
           case Some(v) => [v]
           case None => [])
    case _ => ScalarExamples(k)
  }

  function FieldExample(g: Graph, seen: multiset<string>, f: Field): Option<Json>
    requires seen <= Room(g)
    decreases Room(g) - seen, 2
  {
    var values := KindExamples(g, seen, ValueKind(f));
    if values == [] || (f.shape.MapOf? && !HasMapKey(f.shape.entry)) then None
    else
      match f.shape
      case Singular => Some(values[0])
      case Repeated => Some(JArray([values[0]]))
      case MapOf(entry) => Some(JObject(map[MapKeyExample(entry[0]) := values[0]]))
  }

  predicate HasMapKey(entry: seq<Kind>) {
    |entry| == 2 && MapKeyExample(entry[0]) != ""
  }

  function MessageExample(g: Graph, seen: multiset<string>, name: string): Option<Json>
    requires name in g && seen <= Room(g)
    decreases Room(g) - seen, 0
  {
    if seen[name] >= LIMIT then None
    else
      FrameFits(g, seen, name);
      var properties := Properties(g, seen + multiset{name}, name in seen, g[name].fields, |g[name].fields|);
      if properties == map[] then None else Some(JObject(properties))
  }

  /** What the first `i` fields put into an example. */
  function Properties(g: Graph, seen: multiset<string>, recursive: bool, fields: seq<Field>, i: nat): map<string, Json>
    requires i <= |fields| && seen <= Room(g)
    decreases Room(g) - seen, 3, i
  {
    if i == 0 then map[]
    else
      var before := Properties(g, seen, recursive, fields, i - 1);
      var example := if IsShown(fields, i - 1, recursive) then FieldExample(g, seen, fields[i - 1]) else None;
      if example.Some? then before[fields[i - 1].jsonName := example.value] else before
  }

  /** A property of the example is a shown field that has an example, and holds it. */
  lemma {:induction false} PropertiesExact(g: Graph, seen: multiset<string>, recursive: bool, fields: seq<Field>, i: nat)
    requires i <= |fields| && seen <= Room(g) && DistinctJsonNames(fields)
    ensures var properties := Properties(g, seen, recursive, fields, i);
            && properties.Keys <= JsonNames(fields[..i])
            && forall j | 0 <= j < i ::
                 && (fields[j].jsonName in properties <==> IsShown(fields, j, recursive) && FieldExample(g, seen, fields[j]).Some?)
                 && (fields[j].jsonName in properties ==> Some(properties[fields[j].jsonName]) == FieldExample(g, seen, fields[j]))
  {
    if i > 0 {
      PropertiesExact(g, seen, recursive, fields, i - 1);
      assert fields[..i] == fields[..i - 1] + [fields[i - 1]];
      assert fields[i - 1].jsonName !in JsonNames(fields[..i - 1]);
    }
  }

  /** The example of a message: its shown fields that have examples, if there are any. */
  lemma MessageExampleExact(g: Graph, seen: multiset<string>, name: string)
    requires WellFormed(g) && name in g && seen <= Room(g)
    ensures var example := MessageExample(g, seen, name);
            && (example.Some? ==>
                  && seen[name] < LIMIT && seen + multiset{name} <= Room(g)
                  && example.value.JObject? && example.value.fields != map[]
                  && example.value.fields.Keys <= JsonNames(g[name].fields)
                  && forall j | 0 <= j < |g[name].fields| ::
                       var f := g[name].fields[j];
                       var inside := FieldExample(g, seen + multiset{name}, f);
                       && (f.jsonName in example.value.fields <==> IsShown(g[name].fields, j, name in seen) && inside.Some?)
                       && (f.jsonName in example.value.fields ==> Some(example.value.fields[f.jsonName]) == inside))
    ensures MessageExample(g, seen, name).None? && seen[name] < LIMIT ==>
              && seen + multiset{name} <= Room(g)
              && forall j | 0 <= j < |g[name].fields| && IsShown(g[name].fields, j, name in seen) ::
                   FieldExample(g, seen + multiset{name}, g[name].fields[j]).None?
  {
    if seen[name] < LIMIT {
      FrameFits(g, seen, name);
      var fields := g[name].fields;
      PropertiesExact(g, seen + multiset{name}, name in seen, fields, |fields|);
      assert fields[..|fields|] == fields;
    }
  }
}
