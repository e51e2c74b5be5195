/** The meaning of a compiled document is the direct reading of the message graph. */
module SchemaMeaning {
  import opened Wrappers
  import opened JsonSchema
  import opened ProtoGraph
  import opened Nullability
  import opened Oneofs
  import opened Rendering
  import opened WellKnownTypes
  import opened Reachability

  lemma TypeMeaning(doc: Document, hops: nat, t: JsonType, v: Json)
    ensures Accepts(doc, hops, OfType(t), v) <==> HasType(t, v)
  {
  }

  /** A schema made of type, enum, pattern and annotation keywords looks at the value alone. */
  lemma ScalarMeaning(doc: Document, hops: nat, s: Schema, v: Json)
    requires s == EMPTY.(typ := s.typ, enum := s.enum, pattern := s.pattern, format := s.format, contentEncoding := s.contentEncoding)
    ensures Accepts(doc, hops, s, v) <==> LeafAccepts(s, v)
  {
  }

  lemma NullableTypeMeaning(doc: Document, hops: nat, s: Schema, v: Json)
    requires s.typ.Some? && s == EMPTY.(typ := s.typ, contentEncoding := s.contentEncoding)
    ensures Accepts(doc, hops, NullableSchema(s), v) <==> v.JNull? || HasType(s.typ.value, v)
  {
    NullableMeaning(doc, hops, s, v);
    ScalarMeaning(doc, hops, s, v);
    ScalarMeaning(doc, hops, Remainder(s), v);
  }

  lemma FloatNames(doc: Document, hops: nat, v: Json)
    ensures Accepts(doc, hops, FLOAT_NAMES, v) <==> v.JString? && v.s in ["NaN", "Infinity", "-Infinity"]
  {
    ScalarMeaning(doc, hops, FLOAT_NAMES, v);
  }

  lemma OnlyAnyOf(doc: Document, hops: nat, s: Schema, v: Json)
    requires s == EMPTY.(anyOf := s.anyOf)
    ensures Accepts(doc, hops, s, v) <==> AnyOfAccepts(doc, hops, s, v)
  {
  }

  lemma FloatMeaning(doc: Document, hops: nat, nullable: bool, v: Json)
    ensures Accepts(doc, hops, FloatSchema(nullable), v) <==> FloatConforms(v) || (nullable && v.JNull?)
  {
    var s := FloatSchema(nullable);
    OnlyAnyOf(doc, hops, s, v);
    TypeMeaning(doc, hops, TNumber, v);
    NullTypeAccepts(doc, hops, v);
    FloatNames(doc, hops, v);
    assert s.anyOf[0] == OfType(TNumber) && s.anyOf[1] == FLOAT_NAMES;
    assert nullable ==> s.anyOf[2] == NULL_SCHEMA;
  }

  lemma ContainerMeaning(doc: Document, hops: nat, s: Schema, v: Json)
    requires s == EMPTY.(typ := s.typ, types := s.types, items := s.items, properties := s.properties, required := s.required,
                         additionalProperties := s.additionalProperties, propertyNames := s.propertyNames)
    ensures Accepts(doc, hops, s, v) <==> TypeAccepts(s, v) && ItemsAccept(doc, hops, s, v) && ObjectAccepts(doc, hops, s, v)
  {
  }

  lemma NothingAccepts(doc: Document, hops: nat, v: Json)
    ensures !Accepts(doc, hops, NOTHING, v)
  {
    EmptyAccepts(doc, hops, v);
  }

  lemma PropertyFacts(doc: Document, v: Json)
    requires v.JObject?
    ensures forall k | k in v.fields ::
              && Accepts(doc, MaxHops(doc), EMPTY, v.fields[k]) && !Accepts(doc, MaxHops(doc), NOTHING, v.fields[k])
              && (Accepts(doc, MaxHops(doc), OfType(TString), v.fields[k]) <==> v.fields[k].JString?)
  {
    forall k | k in v.fields
      ensures Accepts(doc, MaxHops(doc), EMPTY, v.fields[k]) && !Accepts(doc, MaxHops(doc), NOTHING, v.fields[k])
      ensures Accepts(doc, MaxHops(doc), OfType(TString), v.fields[k]) <==> v.fields[k].JString?
    {
      EmptyAccepts(doc, MaxHops(doc), v.fields[k]);
      NothingAccepts(doc, MaxHops(doc), v.fields[k]);
      TypeMeaning(doc, MaxHops(doc), TString, v.fields[k]);
    }
  }

  lemma ItemFacts(doc: Document, v: Json)
    requires v.JArray?
    ensures forall i | 0 <= i < |v.items| :: Accepts(doc, MaxHops(doc), EMPTY, v.items[i])
  {
    forall i | 0 <= i < |v.items| {
      EmptyAccepts(doc, MaxHops(doc), v.items[i]);
    }
  }

  lemma WellKnownContainerMeaning(doc: Document, hops: nat, t: WellKnown, v: Json)
    requires t.EmptyType? || t.StructType? || t.ListValueType? || t.AnyType?
    ensures Accepts(doc, hops, WellKnownSchema(t), v) <==> WellKnownConforms(t, v)
  {
    ContainerMeaning(doc, hops, WellKnownSchema(t), v);
    if v.JObject? {
      PropertyFacts(doc, v);
    } else if v.JArray? {
      ItemFacts(doc, v);
    }
  }

  lemma WrapperMeaning(doc: Document, hops: nat, t: Wrapped, v: Json)
    ensures Accepts(doc, hops, WellKnownSchema(WrapperType(t)), v) <==> v.JNull? || WrappedConforms(t, v)
  {
    if t.FloatW? || t.DoubleW? {
      FloatMeaning(doc, hops, true, v);
    } else {
      NullableTypeMeaning(doc, hops, WrappedSchema(t), v);
    }
  }

  lemma WellKnownMeaning(doc: Document, hops: nat, t: WellKnown, v: Json)
    ensures Accepts(doc, hops, WellKnownSchema(t), v) <==> WellKnownConforms(t, v)
  {
    match t
    case EmptyType => WellKnownContainerMeaning(doc, hops, t, v);
    case StructType => WellKnownContainerMeaning(doc, hops, t, v);
    case ListValueType => WellKnownContainerMeaning(doc, hops, t, v);
    case AnyType => WellKnownContainerMeaning(doc, hops, t, v);
    case ValueType => EmptyAccepts(doc, hops, v);
    case WrapperType(wrapped) => WrapperMeaning(doc, hops, wrapped, v);
    case _ => ScalarMeaning(doc, hops, WellKnownSchema(t), v);
  }

  lemma LeafMeaning(g: Graph, strict: bool, doc: Document, hops: nat, k: Kind, v: Json)
    requires IsLeaf(k)
    ensures Accepts(doc, hops, LeafSchema(k), v) <==> KindConforms(g, strict, k, v)
  {
    if k.KMessage? {
      WellKnownMeaning(doc, hops, WellKnownOf(k.name).value, v);
    } else if k.KFloat? {
      FloatMeaning(doc, hops, false, v);
    } else {
      ScalarMeaning(doc, hops, LeafSchema(k), v);
    }
  }

  /** No keyword but the type, the enum and anyOf can turn null away. */
  predicate OnlyTypesMindNull(s: Schema) {
    && s.ref.NoRef? && s.allOf == [] && s.oneOf == [] && s.negated.None?
    && (s.typ.Some? || s.types != [] ==> s.anyOf == [])
    && (s.typ.Some? ==> s.types == [])
  }

  lemma WidenedTypeShape(s: Schema)
    requires s.typ.Some? && s == EMPTY.(typ := s.typ, contentEncoding := s.contentEncoding)
    ensures OnlyTypesMindNull(NullableSchema(s)) && NullableSchema(s).anyOf == []
  {
  }

  lemma WellKnownShape(t: WellKnown)
    ensures OnlyTypesMindNull(WellKnownSchema(t))
    ensures WellKnownSchema(t).anyOf == [] || WellKnownSchema(t) == FloatSchema(true)
  {
    if t.WrapperType? && !t.wrapped.FloatW? && !t.wrapped.DoubleW? {
      WidenedTypeShape(WrappedSchema(t.wrapped));
    }
  }

  lemma LeafShape(k: Kind)
    requires IsLeaf(k)
    ensures OnlyTypesMindNull(LeafSchema(k))
    ensures HasNullBranch(LeafSchema(k)) ==> LeafSchema(k) == FloatSchema(true)
  {
    if k.KMessage? {
      WellKnownShape(WellKnownOf(k.name).value);
    }
  }

  lemma RemainderAcceptsNull(doc: Document, hops: nat, s: Schema)
    requires OnlyTypesMindNull(s) && !HasNullBranch(s)
    ensures Accepts(doc, hops, Remainder(s), JNull)
  {
    AcceptsParts(doc, hops, Remainder(s), JNull);
    EmptyAccepts(doc, hops, JNull);
  }

  lemma NullableLeafMeaning(g: Graph, strict: bool, doc: Document, hops: nat, k: Kind, v: Json)
    requires IsLeaf(k)
    ensures Accepts(doc, hops, NullableSchema(LeafSchema(k)), v) <==> v.JNull? || KindConforms(g, strict, k, v)
  {
    LeafShape(k);
    if HasNullBranch(LeafSchema(k)) {
      FloatMeaning(doc, hops, true, JNull);
    } else {
      RemainderAcceptsNull(doc, hops, LeafSchema(k));
    }
    NullableMeaning(doc, hops, LeafSchema(k), v);
    LeafMeaning(g, strict, doc, hops, k, v);
  }

  // Shells: what the object, list and map frames say about a value.

  lemma {:induction false} RequiredNamesExact(fields: seq<Field>)
    ensures forall n :: n in RequiredNames(fields) <==> exists f | f in fields :: IsRequired(f) && f.jsonName == n
  {
    if fields != [] {
      var front, last := fields[..|fields| - 1], fields[|fields| - 1];
      RequiredNamesExact(front);
      assert fields == front + [last];
      assert forall f :: f in fields <==> f in front || f == last;
    }
  }

  /** Known keys hold accepted values and there are no other keys. */
  predicate PropertiesAccept(doc: Document, properties: map<string, Schema>, v: Json)
    requires v.JObject?
  {
    forall k | k in v.fields :: k in properties && Accepts(doc, MaxHops(doc), properties[k], v.fields[k])
  }

  lemma ClosedObjectMeaning(doc: Document, hops: nat, s: Schema, v: Json)
    requires v.JObject? && s.additionalProperties == Some(NOTHING) && s.propertyNames.None?
    ensures ObjectAccepts(doc, hops, s, v) <==>
              (forall k | k in s.required :: k in v.fields) && PropertiesAccept(doc, s.properties, v)
  {
    forall k | k in v.fields
      ensures !Accepts(doc, MaxHops(doc), NOTHING, v.fields[k])
    {
      NothingAccepts(doc, MaxHops(doc), v.fields[k]);
    }
  }

  lemma ShellParts(doc: Document, hops: nat, m: Message, properties: map<string, Schema>, nullable: bool, v: Json)
    ensures var s := ObjectShell(m, properties, nullable);
            Accepts(doc, hops, s, v) <==>
              && TypeAccepts(s, v)
              && ObjectAccepts(doc, hops, s, v)
              && forall i | 0 <= i < |OneofConstraints(m)| :: Accepts(doc, hops, OneofConstraints(m)[i], v)
  {
    var s := ObjectShell(m, properties, nullable);
    assert Accepts(doc, hops, s, v) <==>
             TypeAccepts(s, v) && ObjectAccepts(doc, hops, s, v) && AllOfAccepts(doc, hops, s, v);
    assert s.allOf == OneofConstraints(m);
  }

  lemma ShellType(m: Message, properties: map<string, Schema>, nullable: bool, v: Json)
    ensures TypeAccepts(ObjectShell(m, properties, nullable), v) <==> v.JObject? || (nullable && v.JNull?)
  {
    var s := ObjectShell(m, properties, nullable);
    if nullable {
      assert s.types[0] == TObject && s.types[1] == TNull;
    }
  }

  lemma ObjectShellMeaning(doc: Document, hops: nat, m: Message, properties: map<string, Schema>, nullable: bool, v: Json)
    requires DistinctJsonNames(m.fields)
    ensures Accepts(doc, hops, ObjectShell(m, properties, nullable), v) <==>
              || (nullable && v.JNull? && !HasRequiredOneof(m))
              || (&& v.JObject?
                  && (forall f | f in m.fields && IsRequired(f) :: f.jsonName in v.fields)
                  && PropertiesAccept(doc, properties, v)
                  && OneofsRespected(m, v))
  {
    ShellParts(doc, hops, m, properties, nullable, v);
    ShellType(m, properties, nullable, v);
    if v.JObject? {
      OneofConstraintsMeaning(doc, hops, m, v);
      ClosedObjectMeaning(doc, hops, ObjectShell(m, properties, nullable), v);
      RequiredNamesExact(m.fields);
    } else if v.JNull? {
      NullPassesOneofs(doc, hops, m, v);
    }
  }

  lemma ListShellMeaning(doc: Document, hops: nat, items: Schema, v: Json)
    ensures Accepts(doc, hops, NullableSchema(ListShell(items)), v) <==>
              v.JNull? || (v.JArray? && forall i | 0 <= i < |v.items| :: Accepts(doc, MaxHops(doc), items, v.items[i]))
  {
    var s := ListShell(items);
    NullableMeaning(doc, hops, s, v);
    ContainerMeaning(doc, hops, s, v);
    ContainerMeaning(doc, hops, Remainder(s), v);
  }

  lemma MapShellMeaning(doc: Document, hops: nat, key: Schema, value: Schema, v: Json)
    ensures Accepts(doc, hops, NullableSchema(MapShell(key, value)), v) <==>
              || v.JNull?
              || (v.JObject? && forall k | k in v.fields ::
                    LeafAccepts(key, JString(k)) && Accepts(doc, MaxHops(doc), value, v.fields[k]))
  {
    var s := MapShell(key, value);
    NullableMeaning(doc, hops, s, v);
    ContainerMeaning(doc, hops, s, v);
    ContainerMeaning(doc, hops, Remainder(s), v);
  }

  lemma KeyMeaning(k: Kind, key: string)
    requires KeySchema(k).Some?
    ensures LeafAccepts(KeySchema(k).value, JString(key)) <==> KeyConforms(k, key)
  {
  }

  // Renderings mean what they render.

  /** The message that a nullable field writes in place may refuse null. */
  predicate NullRefused(g: Graph, k: Kind) {
    k.KMessage? && !IsWellKnown(k.name) && k.name in g && HasRequiredOneof(g[k.name])
  }

  /** What a reference to a message leads to. */
  function Target(root: string, doc: Document, name: string): Schema
    requires name == root || name in doc.defs
  {
    if name == root then doc.root else doc.defs[name]
  }

  /**
   Somewhere in `v` null stands for an optional message at a place where the document
   writes that message out and the message has a required oneof: the one case in which
   the document refuses what the message allows.
   */
  predicate KindRefuses(g: Graph, root: string, doc: Document, s: Schema, k: Kind, nullable: bool, v: Json)
    decreases v, 1
  {
    k.KMessage? && !IsLeaf(k) && k.name in g &&
    if RendersByRef(root, doc.defs.Keys, s, k.name, nullable) then
      MessageRefuses(g, root, doc, Target(root, doc, k.name), k.name, v)
    else
      (nullable && v.JNull? && HasRequiredOneof(g[k.name])) || MessageRefuses(g, root, doc, s, k.name, v)
  }

  predicate MessageRefuses(g: Graph, root: string, doc: Document, s: Schema, name: string, v: Json)
    requires name in g
    decreases v, 0
  {
    v.JObject? && exists f | f in g[name].fields ::
      && f.jsonName in v.fields && f.jsonName in s.properties
      && FieldRefuses(g, root, doc, s.properties[f.jsonName], f, v.fields[f.jsonName])
  }

  predicate FieldRefuses(g: Graph, root: string, doc: Document, s: Schema, f: Field, v: Json)
    decreases v, 2
  {
    match f.shape
    case Singular => KindRefuses(g, root, doc, s, f.kind, !IsRequired(f), v)
    case Repeated =>
      v.JArray? && s.items.Some? &&
      exists i | 0 <= i < |v.items| :: KindRefuses(g, root, doc, s.items.value, f.kind, false, v.items[i])
    case MapOf(entry) =>
      v.JObject? && |entry| == 2 && s.additionalProperties.Some? &&
      exists k | k in v.fields :: KindRefuses(g, root, doc, s.additionalProperties.value, entry[1], false, v.fields[k])
  }

  lemma LeafKindMeaning(g: Graph, root: string, doc: Document, hops: nat, s: Schema, k: Kind, nullable: bool, v: Json)
    requires RendersKind(g, root, doc.defs.Keys, s, k, nullable) && IsLeaf(k)
    ensures Accepts(doc, hops, s, v) <==> (nullable && v.JNull?) || KindConforms(g, false, k, v)
  {
    LeafMeaning(g, false, doc, hops, k, v);
    NullableLeafMeaning(g, false, doc, hops, k, v);
  }

  lemma MessageKind(g: Graph, root: string, defs: set<string>, s: Schema, k: Kind, nullable: bool)
    requires RendersKind(g, root, defs, s, k, nullable) && !IsLeaf(k)
    ensures k.KMessage? && !IsWellKnown(k.name)
    ensures RendersByRef(root, defs, s, k.name, nullable) || RendersInline(g, root, defs, s, k.name, nullable)
  {
  }

  /** A rendering accepts exactly what its kind allows, except the nulls that it refuses. */
  lemma {:induction false} KindMeaning(g: Graph, root: string, doc: Document, hops: nat, s: Schema, k: Kind, nullable: bool, v: Json)
    requires Compiled(g, root, doc) && hops > 0
    requires RendersKind(g, root, doc.defs.Keys, s, k, nullable)
    ensures Accepts(doc, hops, s, v) <==>
              ((nullable && v.JNull?) || KindConforms(g, false, k, v)) && !KindRefuses(g, root, doc, s, k, nullable, v)
    decreases v, 1
  {
    if IsLeaf(k) {
      LeafKindMeaning(g, root, doc, hops, s, k, nullable, v);
    } else {
      MessageKind(g, root, doc.defs.Keys, s, k, nullable);
      MessageKindConforms(g, false, k, v);
      if RendersByRef(root, doc.defs.Keys, s, k.name, nullable) {
        NullableReferenceMeaning(g, root, doc, hops, s, k.name, nullable, v);
        RefusedByRef(g, root, doc, s, k, nullable, v);
      } else {
        InlineMeaning(g, root, doc, hops, s, k.name, nullable, v);
        RefusedInPlace(g, root, doc, s, k, nullable, v);
      }
    }
  }

  lemma MessageKindConforms(g: Graph, strict: bool, k: Kind, v: Json)
    requires k.KMessage? && !IsWellKnown(k.name)
    ensures KindConforms(g, strict, k, v) <==> MessageConforms(g, strict, k.name, v)
  {
  }

  lemma RefusedByRef(g: Graph, root: string, doc: Document, s: Schema, k: Kind, nullable: bool, v: Json)
    requires k.KMessage? && !IsLeaf(k) && k.name in g && RendersByRef(root, doc.defs.Keys, s, k.name, nullable)
    ensures KindRefuses(g, root, doc, s, k, nullable, v) <==> MessageRefuses(g, root, doc, Target(root, doc, k.name), k.name, v)
  {
  }

  lemma RefusedInPlace(g: Graph, root: string, doc: Document, s: Schema, k: Kind, nullable: bool, v: Json)
    requires k.KMessage? && !IsLeaf(k) && k.name in g && !RendersByRef(root, doc.defs.Keys, s, k.name, nullable)
    ensures KindRefuses(g, root, doc, s, k, nullable, v) <==>
              (nullable && v.JNull? && HasRequiredOneof(g[k.name])) || MessageRefuses(g, root, doc, s, k.name, v)
  {
  }

  lemma RefMeaning(doc: Document, hops: nat, ref: Ref, v: Json)
    requires !ref.NoRef?
    ensures Accepts(doc, hops, OfRef(ref), v) <==> RefAccepts(doc, hops, OfRef(ref), v)
  {
  }

  lemma FollowRef(root: string, doc: Document, hops: nat, name: string, v: Json)
    requires hops > 0 && (name == root || name in doc.defs)
    ensures RefAccepts(doc, hops, OfRef(RefTo(root, name)), v) <==> Accepts(doc, hops - 1, Target(root, doc, name), v)
  {
  }

  lemma TargetRendered(g: Graph, root: string, doc: Document, name: string)
    requires Compiled(g, root, doc) && (name == root || name in doc.defs)
    ensures name in g && RendersInline(g, root, doc.defs.Keys, Target(root, doc, name), name, false)
  {
  }

  lemma {:induction false} NullableReferenceMeaning(g: Graph, root: string, doc: Document, hops: nat, s: Schema, name: string,
                                                    nullable: bool, v: Json)
    requires Compiled(g, root, doc) && hops > 0 && RendersByRef(root, doc.defs.Keys, s, name, nullable)
    ensures name in g
    ensures Accepts(doc, hops, s, v) <==>
              (nullable && v.JNull?)
              || (MessageConforms(g, false, name, v) && !MessageRefuses(g, root, doc, Target(root, doc, name), name, v))
    decreases v, 0, 2
  {
    ReferenceMeaning(g, root, doc, hops, name, v);
    OrNullMeaning(doc, hops, OfRef(RefTo(root, name)), v);
  }

  /** A reference, to the root or to a definition, stands for the message it names. */
  lemma {:induction false} ReferenceMeaning(g: Graph, root: string, doc: Document, hops: nat, name: string, v: Json)
    requires Compiled(g, root, doc) && hops > 0
    requires name == root || name in doc.defs
    ensures name in g
    ensures Accepts(doc, hops, OfRef(RefTo(root, name)), v) <==>
              MessageConforms(g, false, name, v) && !MessageRefuses(g, root, doc, Target(root, doc, name), name, v)
    decreases v, 0, 1
  {
    RefMeaning(doc, hops, RefTo(root, name), v);
    FollowRef(root, doc, hops, name, v);
    TargetRendered(g, root, doc, name);
    InlineMeaning(g, root, doc, hops - 1, Target(root, doc, name), name, false, v);
  }

  /** What the properties of an object schema accept, in terms of the fields. */
  lemma PropertiesMeaning(g: Graph, root: string, doc: Document, s: Schema, name: string, v: Json)
    requires name in g && s.properties.Keys == JsonNames(g[name].fields) && DistinctJsonNames(g[name].fields) && v.JObject?
    requires forall f | f in g[name].fields && f.jsonName in v.fields ::
               Accepts(doc, MaxHops(doc), s.properties[f.jsonName], v.fields[f.jsonName]) <==>
                 FieldConforms(g, false, f, v.fields[f.jsonName])
                 && !FieldRefuses(g, root, doc, s.properties[f.jsonName], f, v.fields[f.jsonName])
    ensures PropertiesAccept(doc, s.properties, v) <==>
              && (forall k | k in v.fields :: k in JsonNames(g[name].fields))
              && (forall f | f in g[name].fields && f.jsonName in v.fields :: FieldConforms(g, false, f, v.fields[f.jsonName]))
              && !MessageRefuses(g, root, doc, s, name, v)
  {
    if (forall k | k in v.fields :: k in JsonNames(g[name].fields))
       && (forall f | f in g[name].fields && f.jsonName in v.fields :: FieldConforms(g, false, f, v.fields[f.jsonName]))
       && !MessageRefuses(g, root, doc, s, name, v) {
      forall k | k in v.fields
        ensures k in s.properties && Accepts(doc, MaxHops(doc), s.properties[k], v.fields[k])
      {
        var f :| f in g[name].fields && f.jsonName == k;
      }
    }
  }

  /** An object schema written out accepts exactly the objects of its message, except for refused nulls. */
  lemma {:induction false} InlineMeaning(g: Graph, root: string, doc: Document, hops: nat, s: Schema, name: string, nullable: bool, v: Json)
    requires Compiled(g, root, doc)
    requires RendersInline(g, root, doc.defs.Keys, s, name, nullable)
    ensures Accepts(doc, hops, s, v) <==>
              || (nullable && v.JNull? && !HasRequiredOneof(g[name]))
              || (MessageConforms(g, false, name, v) && !MessageRefuses(g, root, doc, s, name, v))
    decreases v, 0, 0
  {
    ObjectShellMeaning(doc, hops, g[name], s.properties, nullable, v);
    if v.JObject? {
      forall f | f in g[name].fields && f.jsonName in v.fields
        ensures Accepts(doc, MaxHops(doc), s.properties[f.jsonName], v.fields[f.jsonName]) <==>
                  FieldConforms(g, false, f, v.fields[f.jsonName])
                  && !FieldRefuses(g, root, doc, s.properties[f.jsonName], f, v.fields[f.jsonName])
      {
        FieldMeaning(g, root, doc, s.properties[f.jsonName], f, v.fields[f.jsonName]);
      }
      PropertiesMeaning(g, root, doc, s, name, v);
    }
  }

  lemma {:induction false} FieldMeaning(g: Graph, root: string, doc: Document, s: Schema, f: Field, v: Json)
    requires Compiled(g, root, doc)
    requires RendersField(g, root, doc.defs.Keys, s, f)
    ensures Accepts(doc, MaxHops(doc), s, v) <==> FieldConforms(g, false, f, v) && !FieldRefuses(g, root, doc, s, f, v)
    decreases v, 2
  {
    match f.shape
    case Singular => KindMeaning(g, root, doc, MaxHops(doc), s, f.kind, !IsRequired(f), v);
    case Repeated => ListMeaning(g, root, doc, s, f, v);
    case MapOf(_) => MapMeaning(g, root, doc, s, f, v);
  }

  lemma {:induction false} ListMeaning(g: Graph, root: string, doc: Document, s: Schema, f: Field, v: Json)
    requires Compiled(g, root, doc) && f.shape.Repeated? && RendersField(g, root, doc.defs.Keys, s, f)
    ensures Accepts(doc, MaxHops(doc), s, v) <==> FieldConforms(g, false, f, v) && !FieldRefuses(g, root, doc, s, f, v)
    decreases v, 1, 1
  {
    ListShellMeaning(doc, MaxHops(doc), s.items.value, v);
    if v.JArray? {
      forall i | 0 <= i < |v.items|
        ensures Accepts(doc, MaxHops(doc), s.items.value, v.items[i]) <==>
                  KindConforms(g, false, f.kind, v.items[i])
                  && !KindRefuses(g, root, doc, s.items.value, f.kind, false, v.items[i])
      {
        KindMeaning(g, root, doc, MaxHops(doc), s.items.value, f.kind, false, v.items[i]);
      }
    }
  }

  lemma {:induction false} MapMeaning(g: Graph, root: string, doc: Document, s: Schema, f: Field, v: Json)
    requires Compiled(g, root, doc) && f.shape.MapOf? && RendersField(g, root, doc.defs.Keys, s, f)
    ensures Accepts(doc, MaxHops(doc), s, v) <==> FieldConforms(g, false, f, v) && !FieldRefuses(g, root, doc, s, f, v)
    decreases v, 1, 1
  {
    var entry := f.shape.entry;
    var key, value := KeySchema(entry[0]).value, s.additionalProperties.value;
    MapShellMeaning(doc, MaxHops(doc), key, value, v);
    if v.JObject? {
      forall k | k in v.fields
        ensures LeafAccepts(key, JString(k)) <==> KeyConforms(entry[0], k)
        ensures Accepts(doc, MaxHops(doc), value, v.fields[k]) <==>
                  KindConforms(g, false, entry[1], v.fields[k])
                  && !KindRefuses(g, root, doc, value, entry[1], false, v.fields[k])
      {
        KeyMeaning(entry[0], k);
        KindMeaning(g, root, doc, MaxHops(doc), value, entry[1], false, v.fields[k]);
      }
    }
  }

  /**
   For every graph and every value: the document validates the value exactly when it is
   a message and holds no null that the document refuses.
   */
  lemma DocumentMeaning(g: Graph, root: string, doc: Document, v: Json)
    requires Compiled(g, root, doc)
    ensures Validates(doc, v) <==> MessageConforms(g, false, root, v) && !MessageRefuses(g, root, doc, doc.root, root, v)
  {
    InlineMeaning(g, root, doc, MaxHops(doc), doc.root, root, false, v);
  }

  // A reading of null that no document refuses.

  lemma {:induction false} StrictKind(g: Graph, root: string, doc: Document, s: Schema, k: Kind, nullable: bool, v: Json)
    requires Compiled(g, root, doc) && RendersKind(g, root, doc.defs.Keys, s, k, nullable)
    requires KindConforms(g, true, k, v)
    ensures KindConforms(g, false, k, v) && !KindRefuses(g, root, doc, s, k, nullable, v)
    decreases v, 1
  {
    if !IsLeaf(k) {
      MessageKind(g, root, doc.defs.Keys, s, k, nullable);
      if RendersByRef(root, doc.defs.Keys, s, k.name, nullable) {
        StrictMessage(g, root, doc, Target(root, doc, k.name), k.name, false, v);
      } else {
        StrictMessage(g, root, doc, s, k.name, nullable, v);
      }
    }
  }

  lemma {:induction false} StrictMessage(g: Graph, root: string, doc: Document, s: Schema, name: string, nullable: bool, v: Json)
    requires Compiled(g, root, doc) && RendersInline(g, root, doc.defs.Keys, s, name, nullable)
    requires MessageConforms(g, true, name, v)
    ensures MessageConforms(g, false, name, v) && !MessageRefuses(g, root, doc, s, name, v)
    decreases v, 0
  {
    forall f | f in g[name].fields && f.jsonName in v.fields
      ensures FieldConforms(g, false, f, v.fields[f.jsonName])
      ensures !FieldRefuses(g, root, doc, s.properties[f.jsonName], f, v.fields[f.jsonName])
    {
      StrictField(g, root, doc, s.properties[f.jsonName], f, v.fields[f.jsonName]);
    }
  }

  lemma {:induction false} StrictField(g: Graph, root: string, doc: Document, s: Schema, f: Field, v: Json)
    requires Compiled(g, root, doc) && RendersField(g, root, doc.defs.Keys, s, f) && FieldConforms(g, true, f, v)
    ensures FieldConforms(g, false, f, v) && !FieldRefuses(g, root, doc, s, f, v)
    decreases v, 2
  {
    match f.shape
    case Singular =>
      if !IsRequired(f) && v.JNull? && NullAllowed(g, true, f) {
        NullNotRefused(g, root, doc, s, f);
      } else {
        StrictKind(g, root, doc, s, f.kind, !IsRequired(f), v);
      }
    case Repeated =>
      if v.JArray? {
        forall i | 0 <= i < |v.items|
          ensures KindConforms(g, false, f.kind, v.items[i])
          ensures !KindRefuses(g, root, doc, s.items.value, f.kind, false, v.items[i])
        {
          StrictKind(g, root, doc, s.items.value, f.kind, false, v.items[i]);
        }
      }
    case MapOf(entry) =>
      if v.JObject? {
        forall k | k in v.fields
          ensures KindConforms(g, false, entry[1], v.fields[k])
          ensures !KindRefuses(g, root, doc, s.additionalProperties.value, entry[1], false, v.fields[k])
        {
          StrictKind(g, root, doc, s.additionalProperties.value, entry[1], false, v.fields[k]);
        }
      }
  }

  lemma NullNotRefused(g: Graph, root: string, doc: Document, s: Schema, f: Field)
    requires RendersField(g, root, doc.defs.Keys, s, f) && f.shape.Singular? && NullAllowed(g, true, f)
    ensures !KindRefuses(g, root, doc, s, f.kind, !IsRequired(f), JNull)
  {
    if !IsLeaf(f.kind) {
      MessageKind(g, root, doc.defs.Keys, s, f.kind, !IsRequired(f));
    }
  }

  /**
   Bounds that need no document: what it validates is a message, and every message
   that does not lean on null for a oneof-constrained field is validated.
   */
  lemma DocumentBounds(g: Graph, root: string, doc: Document, v: Json)
    requires Compiled(g, root, doc)
    ensures Validates(doc, v) ==> MessageConforms(g, false, root, v)
    ensures MessageConforms(g, true, root, v) ==> Validates(doc, v)
  {
    DocumentMeaning(g, root, doc, v);
    if MessageConforms(g, true, root, v) {
      StrictMessage(g, root, doc, doc.root, root, false, v);
    }
  }

  // Graphs on which no document refuses anything.

  /** No optional singular field of these messages holds a message that has a required oneof. */
  predicate OptionalsTakeNull(g: Graph, names: set<string>) {
    forall n | n in names && n in g :: forall f | f in g[n].fields :: !IsRequired(f) ==> NullAllowed(g, true, f)
  }

  predicate KindWithin(names: set<string>, k: Kind) {
    k.KMessage? && !IsWellKnown(k.name) ==> k.name in names
  }

  /** These messages hold no message other than themselves. */
  predicate HoldOnly(g: Graph, names: set<string>) {
    forall n | n in names && n in g :: forall f | f in g[n].fields :: KindWithin(names, ValueKind(f))
  }

  lemma {:induction false} ReadingsAgreeOnKind(g: Graph, names: set<string>, k: Kind, v: Json)
    requires OptionalsTakeNull(g, names) && HoldOnly(g, names) && KindWithin(names, k)
    ensures KindConforms(g, true, k, v) <==> KindConforms(g, false, k, v)
    decreases v, 1
  {
    if k.KMessage? && !IsWellKnown(k.name) {
      ReadingsAgree(g, names, k.name, v);
    }
  }

  lemma {:induction false} ReadingsAgreeOnField(g: Graph, names: set<string>, f: Field, v: Json)
    requires OptionalsTakeNull(g, names) && HoldOnly(g, names) && KindWithin(names, ValueKind(f))
    requires !IsRequired(f) ==> NullAllowed(g, true, f)
    ensures FieldConforms(g, true, f, v) <==> FieldConforms(g, false, f, v)
    decreases v, 2
  {
    match f.shape
    case Singular => ReadingsAgreeOnKind(g, names, f.kind, v);
    case Repeated =>
      if v.JArray? {
        forall i | 0 <= i < |v.items| {
          ReadingsAgreeOnKind(g, names, f.kind, v.items[i]);
        }
      }
    case MapOf(entry) =>
      if v.JObject? && |entry| == 2 {
        forall k | k in v.fields {
          ReadingsAgreeOnKind(g, names, entry[1], v.fields[k]);
        }
      }
  }

  lemma {:induction false} ReadingsAgree(g: Graph, names: set<string>, name: string, v: Json)
    requires OptionalsTakeNull(g, names) && HoldOnly(g, names) && name in names
    ensures MessageConforms(g, true, name, v) <==> MessageConforms(g, false, name, v)
    decreases v, 0
  {
    if name in g && v.JObject? {
      forall f | f in g[name].fields && f.jsonName in v.fields {
        ReadingsAgreeOnField(g, names, f, v.fields[f.jsonName]);
      }
    }
  }

  /** When every optional field that `root` leads to may take null, the document validates exactly the messages. */
  lemma DocumentExact(g: Graph, names: set<string>, root: string, doc: Document, v: Json)
    requires Compiled(g, root, doc) && root in names && HoldOnly(g, names) && OptionalsTakeNull(g, names)
    ensures Validates(doc, v) <==> MessageConforms(g, false, root, v)
  {
    DocumentBounds(g, root, doc, v);
    ReadingsAgree(g, names, root, v);
  }
}
