/** GenerateMessageSchema as a whole: when it succeeds and what it then returns. */
module SchemaCompiler {
  import opened Wrappers
  import opened JsonSchema
  import opened ProtoGraph
  import opened Nullability
  import opened Oneofs
  import opened Rendering
  import opened Reachability
  import opened SchemaMeaning
  import opened SchemaBuilder
  import opened WellKnownTypes

  method GenerateMessageSchema(g: Graph, message: Option<string>) returns (result: Result<Document, SchemaError>)
    requires WellFormed(g) && (message.Some? ==> message.value in g)
    ensures message.None? ==> result == Err(NilMessage)
    ensures message.Some? ==> (result.Ok? <==> !UnsupportedBelow(g, message.value))
    ensures result.Ok? ==> Compiled(g, message.value, result.value)
    ensures result.Ok? ==> forall n | n in result.value.defs :: OnCycle(g, n)
  {
    if message.None? {
      return Err(NilMessage);
    }
    var root := message.value;
    var builder := new Builder(g, root);
    var schema := builder.GenerateMessageSchema(root);
    if schema.Err? {
      return Err(schema.error);
    }
    var doc := Document(schema.value, builder.defs);
    CompiledIsSupported(g, root, doc);
    return Ok(doc);
  }

  // Success means that everything reachable can be rendered.

  ghost predicate Rendered(g: Graph, root: string, defs: set<string>, name: string) {
    exists s, nullable :: RendersInline(g, root, defs, s, name, nullable)
  }

  lemma FieldIsRendered(g: Graph, root: string, doc: Document, s: Schema, f: Field)
    requires Compiled(g, root, doc) && RendersField(g, root, doc.defs.Keys, s, f)
    ensures FieldSupported(f)
    ensures ValueKind(f).KMessage? && !IsGoogleName(ValueKind(f).name) ==>
              Rendered(g, root, doc.defs.Keys, ValueKind(f).name)
  {
    var (part, nullable) :=
      match f.shape
      case Singular => (s, !IsRequired(f))
      case Repeated => (s.items.value, false)
      case MapOf(_) => (s.additionalProperties.value, false);
    var k := ValueKind(f);
    assert RendersKind(g, root, doc.defs.Keys, part, k, nullable);
    if k.KMessage? {
      if !IsGoogleName(k.name) {
        if RendersByRef(root, doc.defs.Keys, part, k.name, nullable) {
          var target := if k.name == root then doc.root else doc.defs[k.name];
          assert RendersInline(g, root, doc.defs.Keys, target, k.name, false);
        } else {
          assert RendersMessage(g, root, doc.defs.Keys, part, k.name, nullable);
          assert RendersInline(g, root, doc.defs.Keys, part, k.name, nullable);
        }
      }
    }
  }

  lemma RenderedIsSupported(g: Graph, root: string, doc: Document, name: string)
    requires Compiled(g, root, doc) && Rendered(g, root, doc.defs.Keys, name)
    ensures name in g && MessageSupported(g[name])
    ensures forall b | b in Targets(g[name]) :: Rendered(g, root, doc.defs.Keys, b)
  {
    var s, nullable :| RendersInline(g, root, doc.defs.Keys, s, name, nullable);
    forall f | f in g[name].fields
      ensures FieldSupported(f)
      ensures ValueKind(f).KMessage? && !IsGoogleName(ValueKind(f).name) ==>
                Rendered(g, root, doc.defs.Keys, ValueKind(f).name)
    {
      FieldIsRendered(g, root, doc, s.properties[f.jsonName], f);
    }
  }

  lemma CompiledIsSupported(g: Graph, root: string, doc: Document)
    requires Compiled(g, root, doc)
    ensures !UnsupportedBelow(g, root)
  {
    var all := set n | n in g && Rendered(g, root, doc.defs.Keys, n);
    assert root in all;
    forall a, b | a in all && Edge(Successors(g), a, b)
      ensures b in all
    {
      RenderedIsSupported(g, root, doc, a);
      RenderedIsSupported(g, root, doc, b);
    }
    forall m | m in g && Reach(Successors(g), {root}, m)
      ensures MessageSupported(g[m])
    {
      ReachInClosed(Successors(g), {root}, all, m);
      RenderedIsSupported(g, root, doc, m);
    }
  }

  // Every reference in a finished document has a target.

  lemma {:induction false} ConstraintsHaveNoRefs(m: Message, names: set<string>)
    ensures forall i | 0 <= i < |OneofConstraints(m)| :: RefsWithin(OneofConstraints(m)[i], names)
  {
    forall i | 0 <= i < |OneofConstraints(m)|
      ensures RefsWithin(OneofConstraints(m)[i], names)
    {
      var order := GroupOrder(m.fields);
      GroupHasNoRefs(Members(m.fields, order[i]), order[i] in m.requiredOneofs, names);
    }
  }

  lemma SelectedHasNoRefs(name: string, names: set<string>)
    ensures RefsWithin(SelectedSchema(name), names)
  {
    assert RefsWithin(OfType(TNull), names);
    assert RefsWithin(SelectedSchema(name).negated.value, names);
  }

  lemma NoneBranchHasNoRefs(members: seq<string>, names: set<string>)
    ensures RefsWithin(NoneBranch(members), names)
  {
    var any := AnyOf(SelectedSchemas(members));
    forall i | 0 <= i < |any.anyOf|
      ensures RefsWithin(any.anyOf[i], names)
    {
      SelectedHasNoRefs(members[i], names);
    }
    assert RefsWithin(any, names);
  }

  lemma OnlyBranchHasNoRefs(members: seq<string>, i: nat, names: set<string>)
    requires i < |members|
    ensures RefsWithin(OnlyBranch(members, i), names)
  {
    SelectedHasNoRefs(members[i], names);
    NoneBranchHasNoRefs(Others(members, i), names);
    var s := OnlyBranch(members, i);
    assert forall j | 0 <= j < |s.allOf| :: RefsWithin(s.allOf[j], names);
  }

  lemma GroupHasNoRefs(members: seq<string>, required: bool, names: set<string>)
    ensures RefsWithin(GroupConstraint(members, required), names)
  {
    var branches := Branches(members, required);
    forall b: nat | b < |branches|
      ensures RefsWithin(branches[b], names)
    {
      BranchHasNoRefs(members, required, b, names);
    }
    OneOfRefs(branches, names);
  }

  lemma NoneBranchOfHasNoRefs(s: Schema, members: seq<string>, names: set<string>)
    requires s == NoneBranch(members)
    ensures RefsWithin(s, names)
  {
    NoneBranchHasNoRefs(members, names);
  }

  lemma OnlyBranchOfHasNoRefs(s: Schema, members: seq<string>, i: nat, names: set<string>)
    requires i < |members| && s == OnlyBranch(members, i)
    ensures RefsWithin(s, names)
  {
    OnlyBranchHasNoRefs(members, i, names);
  }

  lemma BranchHasNoRefs(members: seq<string>, required: bool, b: nat, names: set<string>)
    requires b < |Branches(members, required)|
    ensures RefsWithin(Branches(members, required)[b], names)
  {
    BranchAt(members, required, b);
    var branch := Branches(members, required)[b];
    if required {
      OnlyBranchOfHasNoRefs(branch, members, b, names);
    } else if b > 0 {
      OnlyBranchOfHasNoRefs(branch, members, b - 1, names);
    } else {
      NoneBranchOfHasNoRefs(branch, members, names);
    }
  }

  lemma OneOfRefs(branches: seq<Schema>, names: set<string>)
    requires forall b | 0 <= b < |branches| :: RefsWithin(branches[b], names)
    ensures RefsWithin(EMPTY.(oneOf := branches), names)
  {
  }

  /** A schema without subschemas and without a definition reference. */
  predicate IsFlat(s: Schema) {
    && !s.ref.DefRef?
    && s.items.None? && s.properties == map[] && s.additionalProperties.None? && s.propertyNames.None?
    && s.allOf == [] && s.anyOf == [] && s.oneOf == [] && s.negated.None?
  }

  lemma FlatHasNoRefs(s: Schema, names: set<string>)
    requires IsFlat(s)
    ensures RefsWithin(s, names)
  {
  }

  lemma FloatHasNoRefs(nullable: bool, names: set<string>)
    ensures RefsWithin(FloatSchema(nullable), names)
  {
    var s := FloatSchema(nullable);
    forall i | 0 <= i < |s.anyOf|
      ensures RefsWithin(s.anyOf[i], names)
    {
      FlatHasNoRefs(s.anyOf[i], names);
    }
  }

  predicate IsContainer(t: WellKnown) {
    t.EmptyType? || t.StructType? || t.ListValueType? || t.AnyType?
  }

  lemma ContainerHasNoRefs(t: WellKnown, names: set<string>)
    requires IsContainer(t)
    ensures RefsWithin(WellKnownSchema(t), names)
  {
    FlatHasNoRefs(EMPTY, names);
    FlatHasNoRefs(OfType(TString), names);
    assert RefsWithin(NOTHING, names);
    var s := WellKnownSchema(t);
    assert s.allOf == [] && s.anyOf == [] && s.oneOf == [];
  }

  lemma WidenedTypeIsFlat(s: Schema)
    requires IsFlat(s) && s.typ.Some? && s.enum == []
    ensures IsFlat(NullableSchema(s))
  {
  }

  lemma WellKnownHasNoRefs(t: WellKnown, names: set<string>)
    ensures RefsWithin(WellKnownSchema(t), names)
  {
    if IsContainer(t) {
      ContainerHasNoRefs(t, names);
    } else if t.WrapperType? && (t.wrapped.FloatW? || t.wrapped.DoubleW?) {
      FloatHasNoRefs(true, names);
    } else {
      if t.WrapperType? {
        WidenedTypeIsFlat(WrappedSchema(t.wrapped));
      }
      FlatHasNoRefs(WellKnownSchema(t), names);
    }
  }

  lemma LeafHasNoRefs(k: Kind, names: set<string>)
    requires IsLeaf(k)
    ensures RefsWithin(LeafSchema(k), names)
  {
    if k.KMessage? {
      WellKnownHasNoRefs(WellKnownOf(k.name).value, names);
    } else if k.KFloat? {
      FloatHasNoRefs(false, names);
    } else {
      FlatHasNoRefs(LeafSchema(k), names);
    }
  }

  /** `t` differs from `s` in its types and perhaps in a null branch. */
  predicate IsWidened(s: Schema, t: Schema) {
    && t == s.(typ := t.typ, types := t.types, anyOf := t.anyOf)
    && (t.anyOf == s.anyOf || t.anyOf == s.anyOf + [NULL_SCHEMA])
  }

  lemma WidenedSameRefs(s: Schema, t: Schema, names: set<string>)
    requires RefsWithin(s, names) && IsWidened(s, t)
    ensures RefsWithin(t, names)
  {
    FlatHasNoRefs(NULL_SCHEMA, names);
    assert t.items == s.items && t.properties == s.properties && t.additionalProperties == s.additionalProperties;
    assert t.propertyNames == s.propertyNames && t.allOf == s.allOf && t.oneOf == s.oneOf && t.negated == s.negated;
    assert forall i | 0 <= i < |t.anyOf| :: i < |s.anyOf| ==> t.anyOf[i] == s.anyOf[i];
    assert forall i | |s.anyOf| <= i < |t.anyOf| :: t.anyOf[i] == NULL_SCHEMA;
  }

  lemma OrNullRefs(s: Schema, names: set<string>)
    requires RefsWithin(s, names)
    ensures RefsWithin(OrNull(s), names)
  {
    FlatHasNoRefs(NULL_SCHEMA, names);
    var w := OrNull(s);
    assert w.anyOf[0] == s && w.anyOf[1] == NULL_SCHEMA;
  }

  lemma NullableShape(s: Schema)
    ensures NullableSchema(s) == OrNull(s) || IsWidened(s, NullableSchema(s))
  {
  }

  lemma NullableKeepsRefs(s: Schema, names: set<string>)
    requires RefsWithin(s, names)
    ensures RefsWithin(NullableSchema(s), names)
  {
    NullableShape(s);
    if NullableSchema(s) == OrNull(s) {
      OrNullRefs(s, names);
    } else {
      WidenedSameRefs(s, NullableSchema(s), names);
    }
  }

  lemma {:induction false} KindRefs(g: Graph, root: string, names: set<string>, s: Schema, k: Kind, nullable: bool)
    requires RendersKind(g, root, names, s, k, nullable)
    ensures RefsWithin(s, names)
    decreases s, 1
  {
    if IsLeaf(k) {
      LeafHasNoRefs(k, names);
      NullableKeepsRefs(LeafSchema(k), names);
    } else if RendersByRef(root, names, s, k.name, nullable) {
      var ref := OfRef(RefTo(root, k.name));
      assert RefsWithin(ref, names);
      NullableKeepsRefs(ref, names);
    } else {
      InlineRefs(g, root, names, s, k.name, nullable);
    }
  }

  lemma {:induction false} InlineRefs(g: Graph, root: string, names: set<string>, s: Schema, name: string, nullable: bool)
    requires RendersInline(g, root, names, s, name, nullable)
    ensures RefsWithin(s, names)
    decreases s, 0
  {
    ConstraintsHaveNoRefs(g[name], names);
    assert RefsWithin(NOTHING.negated.value, names) && RefsWithin(NOTHING, names);
    forall k | k in s.properties
      ensures RefsWithin(s.properties[k], names)
    {
      var f :| f in g[name].fields && f.jsonName == k;
      FieldRefs(g, root, names, s.properties[k], f);
    }
  }

  lemma {:induction false} FieldRefs(g: Graph, root: string, names: set<string>, s: Schema, f: Field)
    requires RendersField(g, root, names, s, f)
    ensures RefsWithin(s, names)
    decreases s, 2
  {
    match f.shape
    case Singular => KindRefs(g, root, names, s, f.kind, !IsRequired(f));
    case Repeated =>
      KindRefs(g, root, names, s.items.value, f.kind, false);
      ListRefs(s.items.value, names);
    case MapOf(entry) =>
      KindRefs(g, root, names, s.additionalProperties.value, entry[1], false);
      MapFieldRefs(g, root, names, s, f);
  }

  lemma MapFieldRefs(g: Graph, root: string, names: set<string>, s: Schema, f: Field)
    requires RendersField(g, root, names, s, f) && f.shape.MapOf?
    requires s.additionalProperties.Some? && RefsWithin(s.additionalProperties.value, names)
    ensures RefsWithin(s, names)
  {
    var key := KeySchema(f.shape.entry[0]).value;
    assert RefsWithin(key, names) by { FlatHasNoRefs(key, names); }
    MapRefs(key, s.additionalProperties.value, names);
  }

  lemma ListRefs(items: Schema, names: set<string>)
    requires RefsWithin(items, names)
    ensures RefsWithin(NullableSchema(ListShell(items)), names)
  {
    assert RefsWithin(ListShell(items), names);
    NullableKeepsRefs(ListShell(items), names);
  }

  lemma MapRefs(key: Schema, value: Schema, names: set<string>)
    requires RefsWithin(key, names) && RefsWithin(value, names)
    ensures RefsWithin(NullableSchema(MapShell(key, value)), names)
  {
    assert RefsWithin(MapShell(key, value), names);
    NullableKeepsRefs(MapShell(key, value), names);
  }

  /** No reference dangles and no placeholder is left. */
  lemma ReferencesResolve(g: Graph, root: string, doc: Document)
    requires Compiled(g, root, doc)
    ensures RefsWithin(doc.root, doc.defs.Keys)
    ensures forall n | n in doc.defs :: doc.defs[n] != EMPTY && RefsWithin(doc.defs[n], doc.defs.Keys)
  {
    InlineRefs(g, root, doc.defs.Keys, doc.root, root, false);
    forall n | n in doc.defs
      ensures RefsWithin(doc.defs[n], doc.defs.Keys)
    {
      InlineRefs(g, root, doc.defs.Keys, doc.defs[n], n, false);
    }
  }

  /**
   Writing a message in place, or referring to it, accepts the same values, except
   for a null that one of the two renderings refuses.
   */
  lemma RenderingChoiceIsFree(g: Graph, root: string, doc: Document, s: Schema, t: Schema, k: Kind, nullable: bool, v: Json)
    requires Compiled(g, root, doc)
    requires RendersKind(g, root, doc.defs.Keys, s, k, nullable) && RendersKind(g, root, doc.defs.Keys, t, k, nullable)
    ensures (Accepts(doc, MaxHops(doc), s, v) <==> Accepts(doc, MaxHops(doc), t, v)) <==>
              || !((nullable && v.JNull?) || KindConforms(g, false, k, v))
              || (KindRefuses(g, root, doc, s, k, nullable, v) <==> KindRefuses(g, root, doc, t, k, nullable, v))
  {
    KindMeaning(g, root, doc, MaxHops(doc), s, k, nullable, v);
    KindMeaning(g, root, doc, MaxHops(doc), t, k, nullable, v);
  }

  lemma TypedOnce(g: Graph, root: string, defs: set<string>, s: Schema, k: Kind)
    requires RendersKind(g, root, defs, s, k, false)
    ensures s.typ.Some? ==> s.types == []
  {
    if IsLeaf(k) {
      if k.KMessage? {
        WellKnownTypedOnce(WellKnownOf(k.name).value);
      } else {
        assert LeafSchema(k).types == [];
      }
    } else if RendersInline(g, root, defs, s, k.name, false) {
      assert ObjectShell(g[k.name], s.properties, false).types == [];
    }
  }

  lemma WellKnownTypedOnce(t: WellKnown)
    ensures WellKnownSchema(t).typ.Some? ==> WellKnownSchema(t).types == []
  {
    WellKnownShape(t);
  }

  /** The widened schema of a value takes null, unless the value is written in place and has a required oneof. */
  lemma WidenedTakesNull(g: Graph, root: string, doc: Document, s: Schema, k: Kind)
    requires Compiled(g, root, doc) && RendersKind(g, root, doc.defs.Keys, s, k, false)
    ensures Accepts(doc, MaxHops(doc), NullableSchema(s), JNull) <==>
              !(NullRefused(g, k) && !RendersByRef(root, doc.defs.Keys, s, k.name, false))
  {
    NullableRendering(g, root, doc.defs.Keys, s, k);
    var w := NullableSchema(s);
    KindMeaning(g, root, doc, MaxHops(doc), w, k, true, JNull);
    if !IsLeaf(k) {
      MessageKind(g, root, doc.defs.Keys, s, k, false);
      if RendersByRef(root, doc.defs.Keys, s, k.name, false) {
        NullableReferenceMeaning(g, root, doc, MaxHops(doc), w, k.name, true, JNull);
      } else {
        NullableObject(g[k.name], s.properties);
        InlineMeaning(g, root, doc, MaxHops(doc), w, k.name, true, JNull);
      }
    }
  }

  /**
   Widening the schema of a value adds null to what it accepts, and nothing else, exactly
   when the value is not a message written in place that has a required oneof.
   */
  lemma NullableExact(g: Graph, root: string, doc: Document, s: Schema, k: Kind)
    requires Compiled(g, root, doc) && RendersKind(g, root, doc.defs.Keys, s, k, false)
    ensures (forall v: Json :: Accepts(doc, MaxHops(doc), NullableSchema(s), v) <==> v.JNull? || Accepts(doc, MaxHops(doc), s, v))
            <==> !(NullRefused(g, k) && !RendersByRef(root, doc.defs.Keys, s, k.name, false))
  {
    WidenedTakesNull(g, root, doc, s, k);
    TypedOnce(g, root, doc.defs.Keys, s, k);
    forall v: Json | !v.JNull?
      ensures Accepts(doc, MaxHops(doc), NullableSchema(s), v) <==> Accepts(doc, MaxHops(doc), s, v)
    {
      NullableMeaning(doc, MaxHops(doc), s, v);
    }
  }

  // Required oneofs: null stops standing for an absent optional message.

  const CHOICE := Message([Field("x", KString, Singular, Some("pick"), false)], {"pick"})
  const HOLDER := Message([Field("c", KMessage("Choice"), Singular, None, true)], {})
  const CHOICE_GRAPH: Graph := map["Holder" := HOLDER, "Choice" := CHOICE]

  function ChoiceDocument(): Document {
    var choice := ObjectShell(CHOICE, map["x" := NullableSchema(OfType(TString))], true);
    Document(ObjectShell(HOLDER, map["c" := choice], false), map[])
  }

  lemma ChoiceIsOrdinary()
    ensures !IsGoogleName("Choice") && !IsWellKnown("Choice")
  {
    assert |"Choice"| < |GOOGLE_PREFIX|;
  }

  lemma ChoiceDocumentCompiled()
    ensures Compiled(CHOICE_GRAPH, "Holder", ChoiceDocument())
  {
    var doc := ChoiceDocument();
    var choice := doc.root.properties["c"];
    var names := doc.defs.Keys;
    assert RendersField(CHOICE_GRAPH, "Holder", names, choice.properties["x"], CHOICE.fields[0]);
    assert choice.properties.Keys == JsonNames(CHOICE.fields);
    assert RendersInline(CHOICE_GRAPH, "Holder", names, choice, "Choice", true);
    ChoiceIsOrdinary();
    assert RendersField(CHOICE_GRAPH, "Holder", names, choice, HOLDER.fields[0]);
    assert doc.root.properties.Keys == JsonNames(HOLDER.fields);
    assert RendersInline(CHOICE_GRAPH, "Holder", names, doc.root, "Holder", false);
  }

  lemma ChoiceGraphHasNoCycle(name: string)
    ensures !OnCycle(CHOICE_GRAPH, name)
  {
    ChoiceIsOrdinary();
    var succ := Successors(CHOICE_GRAPH);
    assert CHOICE.fields[0] in CHOICE.fields && HOLDER.fields[0] in HOLDER.fields;
    assert Targets(HOLDER) == {"Choice"} && Targets(CHOICE) == {};
    if Reach(succ, {"Choice"}, "Holder") {
      ReachInClosed(succ, {"Choice"}, {"Choice"}, "Holder");
    }
  }

  /** A document for the graph that defines only messages on cycles has no choice left. */
  lemma ChoiceDocumentOnly(doc: Document)
    requires Compiled(CHOICE_GRAPH, "Holder", doc) && forall n | n in doc.defs :: OnCycle(CHOICE_GRAPH, n)
    ensures doc == ChoiceDocument()
  {
    forall n
      ensures n !in doc.defs
    {
      ChoiceGraphHasNoCycle(n);
    }
    assert doc.defs == map[];
    ChoiceIsOrdinary();
    var names := doc.defs.Keys;
    assert HOLDER.fields[0] in HOLDER.fields && CHOICE.fields[0] in CHOICE.fields;
    var choice := doc.root.properties["c"];
    assert RendersField(CHOICE_GRAPH, "Holder", names, choice, HOLDER.fields[0]);
    assert "Choice"[0] != "Holder"[0];
    MessageKind(CHOICE_GRAPH, "Holder", names, choice, KMessage("Choice"), true);
    assert !RendersByRef("Holder", names, choice, "Choice", true);
    assert RendersInline(CHOICE_GRAPH, "Holder", names, choice, "Choice", true);
    assert RendersField(CHOICE_GRAPH, "Holder", names, choice.properties["x"], CHOICE.fields[0]);
    assert JsonNames(CHOICE.fields) == {"x"} && JsonNames(HOLDER.fields) == {"c"};
    assert IsLeaf(KString) && !IsRequired(CHOICE.fields[0]);
    assert RendersKind(CHOICE_GRAPH, "Holder", names, choice.properties["x"], KString, true);
    assert choice.properties["x"] == NullableSchema(OfType(TString));
    assert choice.properties == map["x" := NullableSchema(OfType(TString))];
    assert doc.root.properties == map["c" := choice];
  }

  /** What the compiler returns for it. */
  method CompileChoice() returns (result: Result<Document, SchemaError>)
    ensures result == Ok(ChoiceDocument())
  {
    ChoiceIsOrdinary();
    result := GenerateMessageSchema(CHOICE_GRAPH, Some("Holder"));
    ChoiceDocumentCompiled();
    CompiledIsSupported(CHOICE_GRAPH, "Holder", ChoiceDocument());
    ChoiceDocumentOnly(result.value);
  }

  /** `{"c": null}` leaves the optional message out, yet the schema refuses it. */
  lemma RequiredOneofRefusesNull()
    ensures MessageConforms(CHOICE_GRAPH, false, "Holder", JObject(map["c" := JNull]))
    ensures !Validates(ChoiceDocument(), JObject(map["c" := JNull]))
  {
    NullIsAMessage();
    NullIsRefused();
  }

  lemma NullIsAMessage()
    ensures MessageConforms(CHOICE_GRAPH, false, "Holder", JObject(map["c" := JNull]))
  {
    assert FieldConforms(CHOICE_GRAPH, false, HOLDER.fields[0], JNull);
    assert "c" in JsonNames(HOLDER.fields) by { assert HOLDER.fields[0] in HOLDER.fields; }
  }

  lemma NullIsRefused()
    ensures !Validates(ChoiceDocument(), JObject(map["c" := JNull]))
  {
    var doc, v := ChoiceDocument(), JObject(map["c" := JNull]);
    ChoiceDocumentCompiled();
    var choice := doc.root.properties["c"];
    assert HasRequiredOneof(CHOICE) by { assert CHOICE.fields[0] in CHOICE.fields; }
    ObjectShellMeaning(doc, MaxHops(doc), CHOICE, choice.properties, true, JNull);
    ObjectShellMeaning(doc, MaxHops(doc), HOLDER, doc.root.properties, false, v);
    assert v.fields["c"] == JNull;
  }
}
