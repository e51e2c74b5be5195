/**
 Which fields a document requires, read off the descriptors: those in no oneof that are neither
 lists nor maps and do not carry the `optional` keyword, of whatever kind.
 */
module RequiredFields {
  import opened Wrappers
  import opened JsonSchema
  import opened ProtoGraph
  import opened Rendering
  import opened SchemaMeaning
  import opened WellKnownTypes
  import SchemaRefusals

  /** `places` are the indices, in order, of exactly the fields that must be there. */
  predicate PicksRequired(fields: seq<Field>, places: seq<nat>) {
    && (forall j | 0 <= j < |places| :: places[j] < |fields|)
    && (forall j, k | 0 <= j < k < |places| :: places[j] < places[k])
    && (forall i: nat | i < |fields| ::
          i in places <==> fields[i].oneof.None? && !fields[i].shape.Repeated? && !fields[i].shape.MapOf? && !fields[i].optionalKeyword)
  }

  predicate NamesAt(fields: seq<Field>, places: seq<nat>, names: seq<string>) {
    |names| == |places| && forall j | 0 <= j < |places| :: places[j] < |fields| && names[j] == fields[places[j]].jsonName
  }

  lemma PicksOneMore(fields: seq<Field>, last: Field, before: seq<nat>, places: seq<nat>)
    requires PicksRequired(fields, before)
    requires places == before + if last.oneof.None? && last.shape.Singular? && !last.optionalKeyword then [|fields|] else []
    ensures PicksRequired(fields + [last], places)
  {
    var more := fields + [last];
    forall i: nat | i < |more|
      ensures i in places <==> more[i].oneof.None? && !more[i].shape.Repeated? && !more[i].shape.MapOf? && !more[i].optionalKeyword
    {
      if i < |fields| {
        assert more[i] == fields[i];
        assert i in places <==> i in before;
      } else {
        assert i !in before;
      }
    }
  }

  lemma NamesOneMore(fields: seq<Field>, last: Field, before: seq<nat>, names: seq<string>)
    requires NamesAt(fields, before, names)
    ensures NamesAt(fields + [last], before, names)
    ensures NamesAt(fields + [last], before + [|fields|], names + [last.jsonName])
  {
  }

  lemma {:induction false} RequiredPlaces(fields: seq<Field>) returns (places: seq<nat>)
    ensures PicksRequired(fields, places) && NamesAt(fields, places, RequiredNames(fields))
  {
    places := [];
    if fields != [] {
      var n := |fields| - 1;
      var front, last := fields[..n], fields[n];
      var before := RequiredPlaces(front);
      places := before + if IsRequired(last) then [n] else [];
      PicksOneMore(front, last, before, places);
      NamesOneMore(front, last, before, RequiredNames(front));
      assert fields == front + [last];
    }
  }

  /** The `required` keyword lists exactly these fields, by JSON name, in the order of their declaration. */
  lemma RequiredKeyword(g: Graph, root: string, defs: set<string>, s: Schema, name: string, nullable: bool) returns (places: seq<nat>)
    requires RendersInline(g, root, defs, s, name, nullable)
    ensures PicksRequired(g[name].fields, places) && NamesAt(g[name].fields, places, s.required)
  {
    places := RequiredPlaces(g[name].fields);
  }

  function Without(v: Json, f: Field): Json
    requires v.JObject?
  {
    JObject(v.fields - {f.jsonName})
  }

  lemma StillRespected(m: Message, v: Json, f: Field)
    requires DistinctJsonNames(m.fields) && f in m.fields && v.JObject? && OneofsRespected(m, v)
    requires f.oneof.Some? ==> f.oneof.value !in m.requiredOneofs
    ensures OneofsRespected(m, Without(v, f))
  {
    var w := Without(v, f);
    forall o | o in m.requiredOneofs && HasMember(m, o)
      ensures MemberSelected(m, o, w)
    {
      var a :| a in m.fields && a.oneof == Some(o) && IsSelected(a.jsonName, v);
      if a.jsonName == f.jsonName {
        SchemaRefusals.SameField(m, a, f);
      }
      assert IsSelected(a.jsonName, w);
    }
    forall a, b | a in m.fields && b in m.fields && a.oneof.Some? && a.oneof == b.oneof && a.jsonName != b.jsonName
      ensures !(IsSelected(a.jsonName, w) && IsSelected(b.jsonName, w))
    {
      assert IsSelected(a.jsonName, w) ==> IsSelected(a.jsonName, v);
      assert IsSelected(b.jsonName, w) ==> IsSelected(b.jsonName, v);
    }
  }

  lemma WithoutConforms(g: Graph, name: string, v: Json, f: Field)
    requires WellFormed(g) && MessageConforms(g, false, name, v) && f in g[name].fields
    requires f.oneof.Some? ==> f.oneof.value !in g[name].requiredOneofs
    requires f.oneof.Some? || !f.shape.Singular? || f.optionalKeyword
    ensures MessageConforms(g, false, name, Without(v, f))
  {
    var m, w := g[name], Without(v, f);
    StillRespected(m, v, f);
    forall a | a in m.fields && IsRequired(a)
      ensures a.jsonName in w.fields
    {
      if a.jsonName == f.jsonName {
        SchemaRefusals.SameField(m, a, f);
      }
    }
    forall k | k in w.fields
      ensures k in JsonNames(m.fields)
    {
      assert k in v.fields;
    }
  }

  lemma WithoutRefusesNoMore(g: Graph, root: string, doc: Document, s: Schema, name: string, v: Json, f: Field)
    requires name in g && v.JObject? && !MessageRefuses(g, root, doc, s, name, v)
    ensures !MessageRefuses(g, root, doc, s, name, Without(v, f))
  {
  }

  /**
   An object schema, wherever it is written: without a value for a field that is outside required
   oneofs, an object that it accepts stays accepted if and only if the field is in some oneof, a
   list, a map, or marked optional.
   */
  lemma LeftOutIff(g: Graph, root: string, doc: Document, hops: nat, s: Schema, name: string, nullable: bool, v: Json, f: Field)
    requires Compiled(g, root, doc) && RendersInline(g, root, doc.defs.Keys, s, name, nullable)
    requires v.JObject? && Accepts(doc, hops, s, v) && f in g[name].fields
    requires f.oneof.Some? ==> f.oneof.value !in g[name].requiredOneofs
    ensures Accepts(doc, hops, s, Without(v, f)) <==>
              f.oneof.Some? || f.shape.Repeated? || f.shape.MapOf? || f.optionalKeyword
  {
    var w := Without(v, f);
    InlineMeaning(g, root, doc, hops, s, name, nullable, v);
    InlineMeaning(g, root, doc, hops, s, name, nullable, w);
    if f.oneof.Some? || !f.shape.Singular? || f.optionalKeyword {
      WithoutConforms(g, name, v, f);
      WithoutRefusesNoMore(g, root, doc, s, name, v, f);
    } else {
      assert IsRequired(f) && f.jsonName !in w.fields;
    }
  }

  /** Null for such a field is accepted only where null is a value of the field's type. */
  predicate NullIsAValue(k: Kind) {
    k.KMessage? && (WellKnownOf(k.name) == Some(ValueType) || (WellKnownOf(k.name).Some? && WellKnownOf(k.name).value.WrapperType?))
  }

  /** A required field is there, and it is null only if null is a value of its type. */
  lemma RequiredIsThere(g: Graph, root: string, doc: Document, hops: nat, s: Schema, name: string, nullable: bool, v: Json, f: Field)
    requires Compiled(g, root, doc) && RendersInline(g, root, doc.defs.Keys, s, name, nullable)
    requires v.JObject? && Accepts(doc, hops, s, v) && f in g[name].fields
    requires f.oneof.None? && !f.shape.Repeated? && !f.shape.MapOf? && !f.optionalKeyword
    ensures f.jsonName in v.fields && (v.fields[f.jsonName].JNull? ==> NullIsAValue(f.kind))
  {
    InlineMeaning(g, root, doc, hops, s, name, nullable, v);
    assert IsRequired(f);
    assert FieldConforms(g, false, f, v.fields[f.jsonName]);
    if v.fields[f.jsonName].JNull? {
      assert KindConforms(g, false, f.kind, JNull);
    }
  }

  /** The document itself: an object of which the document approves loses that approval with the field exactly so. */
  lemma DocumentRequires(g: Graph, root: string, doc: Document, v: Json, f: Field)
    requires Compiled(g, root, doc) && Validates(doc, v) && f in g[root].fields
    ensures v.JObject?
    ensures f.oneof.None? || f.oneof.value !in g[root].requiredOneofs ==>
              (Validates(doc, Without(v, f)) <==> f.oneof.Some? || f.shape.Repeated? || f.shape.MapOf? || f.optionalKeyword)
  {
    DocumentMeaning(g, root, doc, v);
    if f.oneof.None? || f.oneof.value !in g[root].requiredOneofs {
      LeftOutIff(g, root, doc, MaxHops(doc), doc.root, root, false, v, f);
    }
  }
}
