/**
 The JSON Schema compiler: a depth-first walk over a message graph that may be
 cyclic, with the messages being built, the ones already built and the
 definitions that references to open messages have asked for.
 */
module SchemaBuilder {
  import opened Wrappers
  import opened JsonSchema
  import opened ProtoGraph
  import opened Nullability
  import opened Oneofs
  import opened Rendering
  import opened Reachability
  import opened WellKnownTypes

  datatype SchemaError =
    | NilMessage
    | InvalidMapEntry
    | UnsupportedMapKey
    | UnsupportedWellKnownType(name: string)
    | UnsupportedFieldKind

  /** A field schema before nullableSchema is applied to it. */
  predicate RendersBase(g: Graph, root: string, defs: set<string>, s: Schema, f: Field) {
    match f.shape
    case Singular => RendersKind(g, root, defs, s, f.kind, false)
    case Repeated => s.items.Some? && s == ListShell(s.items.value) && RendersKind(g, root, defs, s.items.value, f.kind, false)
    case MapOf(entry) =>
      && |entry| == 2
      && KeySchema(entry[0]).Some?
      && s.additionalProperties.Some?
      && s == MapShell(KeySchema(entry[0]).value, s.additionalProperties.value)
      && RendersKind(g, root, defs, s.additionalProperties.value, entry[1], false)
  }

  lemma BaseToField(g: Graph, root: string, defs: set<string>, s: Schema, f: Field)
    requires RendersBase(g, root, defs, s, f)
    ensures RendersField(g, root, defs, if IsRequired(f) then s else NullableSchema(s), f)
  {
    if f.shape.Singular? && !IsRequired(f) {
      NullableRendering(g, root, defs, s, f.kind);
    }
  }

  /** Some message reachable from `name` has a field that no schema can render. */
  ghost predicate UnsupportedBelow(g: Graph, name: string) {
    exists m :: m in g && Reach(Successors(g), {name}, m) && !MessageSupported(g[m])
  }

  lemma UnsupportedHere(g: Graph, name: string, f: Field)
    requires name in g && f in g[name].fields && !FieldSupported(f)
    ensures UnsupportedBelow(g, name)
  {
    ReachRoot(Successors(g), {name}, name);
  }

  lemma UnsupportedChild(g: Graph, name: string, f: Field, child: string)
    requires name in g && f in g[name].fields && ValueKind(f) == KMessage(child) && !IsGoogleName(child)
    requires UnsupportedBelow(g, child)
    ensures UnsupportedBelow(g, name)
  {
    var m :| m in g && Reach(Successors(g), {child}, m) && !MessageSupported(g[m]);
    ReachRoot(Successors(g), {name}, name);
    assert child in Targets(g[name]);
    ReachStep(Successors(g), {name}, name, child);
    ReachTransitive(Successors(g), {name}, {child}, m);
  }

  /** Why a field has no schema: itself, or a message below it. */
  ghost predicate KindFails(g: Graph, k: Kind) {
    !KindSupported(k) || (k.KMessage? && !IsGoogleName(k.name) && UnsupportedBelow(g, k.name))
  }

  ghost predicate FieldFails(g: Graph, f: Field) {
    !FieldSupported(f) || KindFails(g, ValueKind(f))
  }

  lemma FieldFailureIsBelow(g: Graph, name: string, f: Field)
    requires name in g && f in g[name].fields && FieldFails(g, f)
    ensures UnsupportedBelow(g, name)
  {
    if FieldSupported(f) {
      UnsupportedChild(g, name, f, ValueKind(f).name);
    } else {
      UnsupportedHere(g, name, f);
    }
  }

  /** The message holds itself, directly or through others. */
  ghost predicate OnCycle(g: Graph, name: string) {
    exists m :: Reach(Successors(g), {name}, m) && Edge(Successors(g), m, name)
  }

  /** Every message of the set leads to `name`, as the open messages lead to the one being built. */
  ghost predicate AllLead(g: Graph, building: set<string>, name: string) {
    forall b | b in building :: Reach(Successors(g), {b}, name)
  }

  /** A message may be asked for: it exists, the open ones lead to it, and if it is open it is on a cycle. */
  ghost predicate MayAsk(g: Graph, building: set<string>, k: Kind) {
    k.KMessage? && !IsGoogleName(k.name) ==>
      k.name in g && AllLead(g, building, k.name) && (k.name in building ==> OnCycle(g, k.name))
  }

  lemma FieldMayAsk(g: Graph, building: set<string>, name: string, f: Field)
    requires WellFormed(g) && name in g && f in g[name].fields && AllLead(g, building, name)
    ensures MayAsk(g, building, ValueKind(f))
  {
    var k := ValueKind(f);
    if k.KMessage? && !IsGoogleName(k.name) {
      assert k.name in Targets(g[name]);
      assert Edge(Successors(g), name, k.name);
      forall b | b in building
        ensures Reach(Successors(g), {b}, k.name)
      {
        ReachStep(Successors(g), {b}, name, k.name);
      }
    }
  }

  lemma AllLeadHere(g: Graph, building: set<string>, name: string)
    requires AllLead(g, building, name)
    ensures AllLead(g, building + {name}, name)
  {
    ReachRoot(Successors(g), {name}, name);
  }

  /** Each finished schema is whole; each definition is an open placeholder or a finished schema. */
  ghost predicate Consistent(g: Graph, root: string, building: set<string>, built: map<string, Schema>, defs: map<string, Schema>) {
    && WellFormed(g) && root in g
    && building <= g.Keys
    && building !! built.Keys
    && root !in defs
    && (forall n | n in built :: RendersInline(g, root, defs.Keys, built[n], n, false))
    && (forall n | n in defs :: (n in building && defs[n] == EMPTY) || (n in built && defs[n] == built[n]))
    && (forall n | n in defs :: OnCycle(g, n))
  }

  lemma OpenFrame(g: Graph, root: string, building: set<string>, built: map<string, Schema>, defs: map<string, Schema>, name: string)
    requires Consistent(g, root, building, built, defs) && name in g && name !in built
    ensures Consistent(g, root, building + {name}, built, defs)
  {
  }

  lemma AddPlaceholder(g: Graph, root: string, building: set<string>, built: map<string, Schema>, defs: map<string, Schema>, name: string)
    requires Consistent(g, root, building, built, defs) && name in building && name != root && OnCycle(g, name)
    ensures name !in defs ==> Consistent(g, root, building, built, defs[name := EMPTY])
  {
    forall n | n in built
      ensures RendersInline(g, root, defs.Keys + {name}, built[n], n, false)
    {
      InlineMonotone(g, root, defs.Keys, defs.Keys + {name}, built[n], n, false);
    }
    assert defs[name := EMPTY].Keys == defs.Keys + {name};
  }

  lemma CloseFrame(g: Graph, root: string, building: set<string>, built: map<string, Schema>, defs: map<string, Schema>,
                   name: string, schema: Schema)
    requires Consistent(g, root, building, built, defs) && name in building
    requires RendersInline(g, root, defs.Keys, schema, name, false)
    ensures Consistent(g, root, building - {name}, built[name := schema], Filled(root, defs, name, schema))
  {
    assert Filled(root, defs, name, schema).Keys == defs.Keys;
  }

  /** A placeholder asked for while the message was open gets its contents in place. */
  function Filled(root: string, defs: map<string, Schema>, name: string, schema: Schema): map<string, Schema> {
    if name != root && name in defs then defs[name := schema] else defs
  }

  /** `begun` lists without repetition the messages that are open or finished. */
  ghost predicate BegunOnce(begun: seq<string>, building: set<string>, built: map<string, Schema>) {
    && (forall i, j | 0 <= i < j < |begun| :: begun[i] != begun[j])
    && (forall n :: n in begun <==> n in building || n in built)
  }

  /** The properties of a message after its first `i` fields. */
  ghost predicate PropertiesSoFar(g: Graph, root: string, defs: set<string>, fields: seq<Field>, i: nat, properties: map<string, Schema>)
    requires i <= |fields|
  {
    && (forall k | 0 <= k < i :: fields[k].jsonName in properties && RendersField(g, root, defs, properties[fields[k].jsonName], fields[k]))
    && properties.Keys == JsonNames(fields[..i])
  }

  lemma NamesStep(fields: seq<Field>, i: nat)
    requires i < |fields|
    ensures JsonNames(fields[..i + 1]) == JsonNames(fields[..i]) + {fields[i].jsonName}
    ensures RequiredNames(fields[..i + 1]) == RequiredNames(fields[..i]) + if IsRequired(fields[i]) then [fields[i].jsonName] else []
  {
    assert fields[..i + 1] == fields[..i] + [fields[i]];
    assert fields[..i + 1][..i] == fields[..i];
  }

  lemma MoreDefinitions(g: Graph, root: string, before: set<string>, after: set<string>, fields: seq<Field>, i: nat,
                        properties: map<string, Schema>)
    requires i <= |fields| && before <= after
    requires PropertiesSoFar(g, root, before, fields, i, properties)
    ensures PropertiesSoFar(g, root, after, fields, i, properties)
  {
    forall k | 0 <= k < i
      ensures RendersField(g, root, after, properties[fields[k].jsonName], fields[k])
    {
      FieldMonotone(g, root, before, after, properties[fields[k].jsonName], fields[k]);
    }
  }

  lemma AddProperty(g: Graph, root: string, defs: set<string>, fields: seq<Field>, i: nat, properties: map<string, Schema>, s: Schema)
    requires i < |fields| && DistinctJsonNames(fields)
    requires PropertiesSoFar(g, root, defs, fields, i, properties)
    requires RendersField(g, root, defs, s, fields[i])
    ensures PropertiesSoFar(g, root, defs, fields, i + 1, properties[fields[i].jsonName := s])
  {
    var more := properties[fields[i].jsonName := s];
    forall k | 0 <= k < i + 1
      ensures fields[k].jsonName in more && RendersField(g, root, defs, more[fields[k].jsonName], fields[k])
    {
      if k < i {
        assert fields[k].jsonName != fields[i].jsonName;
      }
    }
    assert more.Keys == JsonNames(fields[..i + 1]) by { NamesStep(fields, i); }
  }

  /** One more field: its schema is a property, and its name is required if the field is. */
  lemma FieldStep(g: Graph, root: string, before: set<string>, after: set<string>, fields: seq<Field>, i: nat,
                  properties: map<string, Schema>, s: Schema)
    requires i < |fields| && DistinctJsonNames(fields) && before <= after
    requires PropertiesSoFar(g, root, before, fields, i, properties)
    requires RendersField(g, root, after, s, fields[i])
    ensures PropertiesSoFar(g, root, after, fields, i + 1, properties[fields[i].jsonName := s])
    ensures RequiredNames(fields[..i + 1]) == RequiredNames(fields[..i]) + if IsRequired(fields[i]) then [fields[i].jsonName] else []
  {
    MoreDefinitions(g, root, before, after, fields, i, properties);
    AddProperty(g, root, after, fields, i, properties, s);
    NamesStep(fields, i);
  }

  lemma AllProperties(g: Graph, root: string, defs: set<string>, name: string, properties: map<string, Schema>)
    requires name in g && PropertiesSoFar(g, root, defs, g[name].fields, |g[name].fields|, properties)
    ensures RendersInline(g, root, defs, ObjectShell(g[name], properties, false), name, false)
  {
    var fields := g[name].fields;
    var s := ObjectShell(g[name], properties, false);
    forall f | f in fields
      ensures f.jsonName in properties && RendersField(g, root, defs, s.properties[f.jsonName], f)
    {
      var k :| 0 <= k < |fields| && fields[k] == f;
    }
    assert fields[..|fields|] == fields;
  }

  class Builder {
    const g: Graph
    const root: string
    var building: set<string>
    var built: map<string, Schema>
    var defs: map<string, Schema>
    /** The messages whose construction has begun, in order. */
    ghost var begun: seq<string>

    ghost predicate Valid()
      reads this
    {
      Consistent(g, root, building, built, defs) && BegunOnce(begun, building, built)
    }

    /** What a call keeps: finished schemas and asked-for definitions. */
    twostate predicate Grows()
      reads this
    {
      && old(defs.Keys) <= defs.Keys
      && old(built.Keys) <= built.Keys
      && forall n | n in old(built) :: built[n] == old(built)[n]
    }

    constructor (g: Graph, root: string)
      requires WellFormed(g) && root in g
      ensures Valid() && this.g == g && this.root == root
      ensures building == {} && built == map[] && defs == map[]
    {
      this.g := g;
      this.root := root;
      building := {};
      built := map[];
      defs := map[];
      begun := [];
    }

    method EnsureDefinition(name: string)
      requires Valid() && name in building && OnCycle(g, name)
      modifies this`defs
      ensures Valid() && Grows()
      ensures name != root ==> name in defs
    {
      if name == root {
        return;
      }
      if name in defs {
        return;
      }
      AddPlaceholder(g, root, building, built, defs, name);
      defs := defs[name := EMPTY];
    }

    method FillDefinition(name: string, schema: Schema)
      modifies this`defs
      ensures defs == Filled(root, old(defs), name, schema)
    {
      if name == root {
        return;
      }
      if name !in defs {
        return;
      }
      defs := defs[name := schema];
    }

    method GenerateMessageSchema(name: string) returns (result: Result<Schema, SchemaError>)
      requires Valid() && name in g && AllLead(g, building, name) && (name in building ==> OnCycle(g, name))
      modifies this
      ensures building == old(building) && Grows()
      ensures result.Ok? ==> Valid() && RendersMessage(g, root, defs.Keys, result.value, name, false)
      ensures result.Ok? && old(name !in building && name !in built) ==> RendersInline(g, root, defs.Keys, result.value, name, false)
      ensures result.Err? ==> UnsupportedBelow(g, name)
      decreases g.Keys - building, 1
    {
      if name == root && name in building {
        return Ok(OfRef(RootRef));
      }
      if name in building {
        EnsureDefinition(name);
        return Ok(OfRef(DefRef(name)));
      }
      if name in built {
        if name != root && name in defs {
          return Ok(OfRef(DefRef(name)));
        }
        return Ok(built[name]);
      }
      result := BuildNew(name);
    }

    /** A message that is neither open nor finished: a frame around the building of its schema. */
    method BuildNew(name: string) returns (result: Result<Schema, SchemaError>)
      requires Valid() && name in g && AllLead(g, building, name) && name !in building && name !in built
      modifies this
      ensures building == old(building) && Grows()
      ensures result.Ok? ==> Valid() && RendersInline(g, root, defs.Keys, result.value, name, false)
      ensures result.Err? ==> UnsupportedBelow(g, name)
      decreases g.Keys - building, 0
    {
      AllLeadHere(g, building, name);
      Begin(name);
      result := BuildMessage(name);
      if result.Err? {
        building := building - {name};
        return;
      }
      Finish(name, result.value);
    }

    method Begin(name: string)
      requires Valid() && name in g && name !in building && name !in built
      modifies this`building, this`begun
      ensures Valid() && building == old(building) + {name}
    {
      OpenFrame(g, root, building, built, defs, name);
      building := building + {name};
      begun := begun + [name];
    }

    method Finish(name: string, schema: Schema)
      requires Valid() && name in building && RendersInline(g, root, defs.Keys, schema, name, false)
      modifies this`building, this`built, this`defs
      ensures Valid() && building == old(building) - {name} && built == old(built)[name := schema] && defs.Keys == old(defs.Keys)
    {
      CloseFrame(g, root, building, built, defs, name, schema);
      built := built[name := schema];
      FillDefinition(name, schema);
      building := building - {name};
    }

    /** The fields of an open message, up to the object schema that closes it. */
    method BuildMessage(name: string) returns (result: Result<Schema, SchemaError>)
      requires Valid() && name in building && AllLead(g, building, name)
      modifies this
      ensures building == old(building) && Grows()
      ensures result.Ok? ==> Valid() && RendersInline(g, root, defs.Keys, result.value, name, false)
      ensures result.Err? ==> UnsupportedBelow(g, name)
      decreases g.Keys - building, 6
    {
      var collected := BuildProperties(name);
      if collected.Err? {
        return Err(collected.error);
      }
      var (properties, required) := collected.value;
      AllProperties(g, root, defs.Keys, name, properties);
      var constraints := GenerateOneofConstraints(g[name]);
      var shell := EMPTY.(
        typ := Some(TObject),
        properties := properties,
        required := required,
        additionalProperties := Some(NOTHING),
        allOf := constraints);
      assert shell == ObjectShell(g[name], properties, false);
      return Ok(shell);
    }

    /** The loop over the fields: their schemas, and the names of those that are required. */
    method BuildProperties(name: string) returns (result: Result<(map<string, Schema>, seq<string>), SchemaError>)
      requires Valid() && name in building && AllLead(g, building, name)
      modifies this
      ensures building == old(building) && Grows()
      ensures result.Ok? ==>
                && Valid() && PropertiesSoFar(g, root, defs.Keys, g[name].fields, |g[name].fields|, result.value.0)
                && result.value.1 == RequiredNames(g[name].fields)
      ensures result.Err? ==> UnsupportedBelow(g, name)
      decreases g.Keys - building, 5
    {
      var properties: map<string, Schema> := map[];
      var required: seq<string> := [];
      var fields := g[name].fields;
      for i := 0 to |fields|
        invariant Valid() && building == old(building) && Grows()
        invariant required == RequiredNames(fields[..i])
        invariant PropertiesSoFar(g, root, defs.Keys, fields, i, properties)
      {
        ghost var before := defs.Keys;
        var property := GenerateProperty(name, fields[i]);
        if property.Err? {
          return Err(property.error);
        }
        FieldStep(g, root, before, defs.Keys, fields, i, properties, property.value);
        properties := properties[fields[i].jsonName := property.value];
        if IsRequired(fields[i]) {
          required := required + [fields[i].jsonName];
        }
      }
      assert fields[..|fields|] == fields;
      return Ok((properties, required));
    }

    /** The schema of a field as a property of its message: nullable unless required. */
    method GenerateProperty(ghost name: string, f: Field) returns (result: Result<Schema, SchemaError>)
      requires Valid() && name in building && AllLead(g, building, name) && f in g[name].fields
      modifies this
      ensures building == old(building) && Grows()
      ensures result.Ok? ==> Valid() && RendersField(g, root, defs.Keys, result.value, f)
      ensures result.Err? ==> UnsupportedBelow(g, name)
      decreases g.Keys - building, 4
    {
      FieldMayAsk(g, building, name, f);
      result := GenerateFieldSchema(f);
      if result.Err? {
        FieldFailureIsBelow(g, name, f);
        return;
      }
      BaseToField(g, root, defs.Keys, result.value, f);
      if !IsRequired(f) {
        var widened := Nullable(Some(result.value));
        result := Ok(widened);
      }
    }

    method GenerateFieldSchema(f: Field) returns (result: Result<Schema, SchemaError>)
      requires Valid()
      requires MayAsk(g, building, ValueKind(f))
      modifies this
      ensures building == old(building) && Grows()
      ensures result.Ok? ==> Valid() && RendersBase(g, root, defs.Keys, result.value, f)
      ensures result.Err? ==> FieldFails(g, f)
      decreases g.Keys - building, 3
    {
      if f.shape.MapOf? {
        result := GenerateMapFieldSchema(f);
        return;
      }
      result := GenerateSingularSchema(f.kind);
      if result.Ok? && f.shape.Repeated? {
        result := Ok(EMPTY.(typ := Some(TArray), items := Some(result.value)));
      }
    }

    method GenerateMapFieldSchema(f: Field) returns (result: Result<Schema, SchemaError>)
      requires Valid() && f.shape.MapOf?
      requires MayAsk(g, building, ValueKind(f))
      modifies this
      ensures building == old(building) && Grows()
      ensures result.Ok? ==> Valid() && RendersBase(g, root, defs.Keys, result.value, f)
      ensures result.Err? ==> FieldFails(g, f)
      decreases g.Keys - building, 2, 1
    {
      var entry := f.shape.entry;
      if |entry| != 2 {
        return Err(InvalidMapEntry);
      }
      var key := KeySchema(entry[0]);
      if key.None? {
        return Err(UnsupportedMapKey);
      }
      var value := GenerateSingularSchema(entry[1]);
      if value.Err? {
        return value;
      }
      return Ok(EMPTY.(typ := Some(TObject), additionalProperties := Some(value.value), propertyNames := key));
    }

    method GenerateSingularSchema(k: Kind) returns (result: Result<Schema, SchemaError>)
      requires Valid()
      requires MayAsk(g, building, k)
      modifies this
      ensures building == old(building) && Grows()
      ensures result.Ok? ==> Valid() && RendersKind(g, root, defs.Keys, result.value, k, false)
      ensures result.Err? ==> KindFails(g, k)
      decreases g.Keys - building, 2, 0
    {
      match k
      case KGroup => result := Err(UnsupportedFieldKind);
      case KMessage(name) =>
        if IsWellKnown(name) {
          return Ok(WellKnownSchema(WellKnownOf(name).value));
        }
        if IsGoogleName(name) {
          return Err(UnsupportedWellKnownType(name));
        }
        result := GenerateMessageSchema(name);
      case _ => result := Ok(LeafSchema(k));
    }
  }
}
