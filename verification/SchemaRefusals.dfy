/** Where in a document a null is refused that its message allows: the exact condition for document and message to agree. */
module SchemaRefusals {
  import opened Wrappers
  import opened JsonSchema
  import opened ProtoGraph
  import opened Rendering
  import opened SchemaMeaning
  import opened WellKnownTypes

  /** Some value is such a message. */
  ghost predicate Possible(g: Graph, name: string) {
    exists v :: MessageConforms(g, false, name, v)
  }

  /** In some message null stands for the field. */
  ghost predicate MayBeNull(g: Graph, name: string, f: Field) {
    exists v :: MessageConforms(g, false, name, v) && f.jsonName in v.fields && v.fields[f.jsonName].JNull?
  }

  /** The schema of the field's values within the schema of the field. */
  function ValueSchema(s: Schema, f: Field): Option<Schema> {
    match f.shape
    case Singular => Some(s)
    case Repeated => s.items
    case MapOf(_) => s.additionalProperties
  }

  predicate ValueNullable(f: Field) {
    f.shape.Singular? && !IsRequired(f)
  }

  /** Where a rendering of a message is written out. */
  function WrittenAt(root: string, doc: Document, s: Schema, name: string, nullable: bool): Schema {
    if RendersByRef(root, doc.defs.Keys, s, name, nullable) then Target(root, doc, name) else s
  }

  /** The last field of the way is optional, and a message with a required oneof is written in place for it. */
  ghost predicate RefusesNull(g: Graph, root: string, doc: Document, s: Schema, name: string, f: Field) {
    && ValueNullable(f) && NullRefused(g, f.kind) && MayBeNull(g, name, f)
    && !RendersByRef(root, doc.defs.Keys, s, f.kind.name, true)
  }

  /** A way along fields of possible messages, through what the document writes for them, to such a place. */
  ghost predicate LeadsToRefusal(g: Graph, root: string, doc: Document, s: Schema, name: string, way: seq<Field>)
    decreases |way|, 0
  {
    && way != [] && name in g && way[0] in g[name].fields && way[0].jsonName in s.properties
    && if |way| == 1 then RefusesNull(g, root, doc, s.properties[way[0].jsonName], name, way[0])
       else Possible(g, name) && GoesOn(g, root, doc, s.properties[way[0].jsonName], way[0], way[1..])
  }

  ghost predicate GoesOn(g: Graph, root: string, doc: Document, s: Schema, f: Field, way: seq<Field>)
    decreases |way|, 1
  {
    var k := ValueKind(f);
    && k.KMessage? && !IsLeaf(k) && ValueSchema(s, f).Some?
    && LeadsToRefusal(g, root, doc, WrittenAt(root, doc, ValueSchema(s, f).value, k.name, ValueNullable(f)), k.name, way)
  }

  // Such a way ends in a refusal.

  predicate SharesOneof(m: Message, f: Field, key: string) {
    f.oneof.Some? && exists other | other in m.fields :: other.jsonName == key && other.oneof == f.oneof
  }

  /** The message with the field set, and without the other members of its oneof. */
  function WithField(m: Message, v: Json, f: Field, x: Json): Json
    requires v.JObject?
  {
    JObject((map k | k in v.fields && !SharesOneof(m, f, k) :: v.fields[k])[f.jsonName := x])
  }

  lemma SameField(m: Message, f: Field, other: Field)
    requires DistinctJsonNames(m.fields) && f in m.fields && other in m.fields && f.jsonName == other.jsonName
    ensures f == other
  {
    var i :| 0 <= i < |m.fields| && m.fields[i] == f;
    var j :| 0 <= j < |m.fields| && m.fields[j] == other;
  }

  lemma OneofsStillRespected(m: Message, v: Json, f: Field, x: Json)
    requires DistinctJsonNames(m.fields) && f in m.fields && v.JObject? && !x.JNull? && OneofsRespected(m, v)
    ensures OneofsRespected(m, WithField(m, v, f, x))
  {
    var w := WithField(m, v, f, x);
    forall a, b | a in m.fields && b in m.fields && a.oneof.Some? && a.oneof == b.oneof && a.jsonName != b.jsonName
      ensures !(IsSelected(a.jsonName, w) && IsSelected(b.jsonName, w))
    {
      if IsSelected(a.jsonName, w) && IsSelected(b.jsonName, w) {
        StillSelected(m, v, f, x, a);
        StillSelected(m, v, f, x, b);
      }
    }
    forall o | o in m.requiredOneofs && HasMember(m, o)
      ensures MemberSelected(m, o, w)
    {
      if f.oneof == Some(o) {
        assert IsSelected(f.jsonName, w);
      } else {
        var a :| a in m.fields && a.oneof == Some(o) && IsSelected(a.jsonName, v);
        NotTouched(m, v, f, x, a);
      }
    }
  }

  /** What is selected afterwards is the field, or was selected before and shares no oneof with it. */
  lemma StillSelected(m: Message, v: Json, f: Field, x: Json, a: Field)
    requires DistinctJsonNames(m.fields) && f in m.fields && a in m.fields && v.JObject? && IsSelected(a.jsonName, WithField(m, v, f, x))
    ensures a == f || (IsSelected(a.jsonName, v) && (f.oneof.Some? ==> a.oneof != f.oneof))
  {
    if a.jsonName == f.jsonName {
      SameField(m, a, f);
    } else {
      assert !SharesOneof(m, f, a.jsonName);
    }
  }

  lemma NotTouched(m: Message, v: Json, f: Field, x: Json, a: Field)
    requires DistinctJsonNames(m.fields) && f in m.fields && a in m.fields && v.JObject? && IsSelected(a.jsonName, v)
    requires a.oneof != f.oneof
    ensures IsSelected(a.jsonName, WithField(m, v, f, x))
  {
    if a.jsonName == f.jsonName {
      SameField(m, a, f);
    }
    forall other | other in m.fields && other.jsonName == a.jsonName
      ensures other == a
    {
      SameField(m, a, other);
    }
  }

  /** A field of a possible message can hold whatever a field of its kind can hold, null apart. */
  lemma CanHold(g: Graph, name: string, v: Json, f: Field, x: Json)
    requires WellFormed(g) && MessageConforms(g, false, name, v) && f in g[name].fields
    requires FieldConforms(g, false, f, x) && !x.JNull?
    ensures MessageConforms(g, false, name, WithField(g[name], v, f, x))
  {
    var m, w := g[name], WithField(g[name], v, f, x);
    OneofsStillRespected(m, v, f, x);
    forall a | a in m.fields && IsRequired(a)
      ensures a.jsonName in w.fields
    {
      if SharesOneof(m, f, a.jsonName) {
        var other :| other in m.fields && other.jsonName == a.jsonName && other.oneof == f.oneof;
        SameField(m, a, other);
      }
    }
    forall a | a in m.fields && a.jsonName in w.fields
      ensures FieldConforms(g, false, a, w.fields[a.jsonName])
    {
      if a.jsonName == f.jsonName {
        SameField(m, a, f);
      }
    }
  }

  function SomeKey(k: Kind): string {
    match k
    case KString => "0"
    case KBool => "true"
    case _ => "0"
  }

  lemma SomeKeyConforms(k: Kind)
    requires KeySchema(k).Some?
    ensures KeyConforms(k, SomeKey(k))
  {
  }

  /** The field with one value in it. */
  function Holding(f: Field, x: Json): Json {
    match f.shape
    case Singular => x
    case Repeated => JArray([x])
    case MapOf(entry) => JObject(map[(if |entry| == 2 then SomeKey(entry[0]) else "") := x])
  }

  lemma HoldingRefused(g: Graph, root: string, doc: Document, s: Schema, f: Field, x: Json)
    requires Compiled(g, root, doc) && RendersField(g, root, doc.defs.Keys, s, f)
    requires var k := ValueKind(f);
             && k.KMessage? && !IsLeaf(k) && ValueSchema(s, f).Some? && MessageConforms(g, false, k.name, x)
             && MessageRefuses(g, root, doc, WrittenAt(root, doc, ValueSchema(s, f).value, k.name, ValueNullable(f)), k.name, x)
    ensures FieldConforms(g, false, f, Holding(f, x)) && FieldRefuses(g, root, doc, s, f, Holding(f, x)) && !Holding(f, x).JNull?
  {
    var k := ValueKind(f);
    assert KindConforms(g, false, k, x) && KindRefuses(g, root, doc, ValueSchema(s, f).value, k, ValueNullable(f), x);
    match f.shape {
      case Singular =>
      case Repeated => assert Holding(f, x).items[0] == x;
      case MapOf(entry) =>
        SomeKeyConforms(entry[0]);
        assert SomeKey(entry[0]) in Holding(f, x).fields;
    }
  }

  lemma {:induction false} RefusalAtEnd(g: Graph, root: string, doc: Document, s: Schema, name: string, nullable: bool, way: seq<Field>)
    returns (v: Json)
    requires Compiled(g, root, doc) && RendersInline(g, root, doc.defs.Keys, s, name, nullable)
    requires LeadsToRefusal(g, root, doc, s, name, way)
    ensures MessageConforms(g, false, name, v) && MessageRefuses(g, root, doc, s, name, v)
    decreases |way|
  {
    var f := way[0];
    var t := s.properties[f.jsonName];
    if |way| == 1 {
      v := NullRefusedHere(g, root, doc, s, name, f);
    } else {
      var k := ValueKind(f);
      var next := NextRendered(g, root, doc, t, f);
      var x := RefusalAtEnd(g, root, doc, WrittenAt(root, doc, ValueSchema(t, f).value, k.name, ValueNullable(f)), k.name, next, way[1..]);
      HoldingRefused(g, root, doc, t, f, x);
      v := HeldHere(g, root, doc, s, name, f, Holding(f, x));
    }
  }

  lemma NullRefusedHere(g: Graph, root: string, doc: Document, s: Schema, name: string, f: Field) returns (v: Json)
    requires name in g && f in g[name].fields && f.jsonName in s.properties
    requires RefusesNull(g, root, doc, s.properties[f.jsonName], name, f)
    ensures MessageConforms(g, false, name, v) && MessageRefuses(g, root, doc, s, name, v)
  {
    v :| MessageConforms(g, false, name, v) && f.jsonName in v.fields && v.fields[f.jsonName].JNull?;
    assert FieldRefuses(g, root, doc, s.properties[f.jsonName], f, JNull);
  }

  lemma HeldHere(g: Graph, root: string, doc: Document, s: Schema, name: string, f: Field, y: Json) returns (v: Json)
    requires WellFormed(g) && name in g && Possible(g, name) && f in g[name].fields && f.jsonName in s.properties
    requires FieldConforms(g, false, f, y) && FieldRefuses(g, root, doc, s.properties[f.jsonName], f, y) && !y.JNull?
    ensures MessageConforms(g, false, name, v) && MessageRefuses(g, root, doc, s, name, v)
  {
    var v0 :| MessageConforms(g, false, name, v0);
    CanHold(g, name, v0, f, y);
    v := WithField(g[name], v0, f, y);
    assert v.fields[f.jsonName] == y;
  }

  /** What is written for the field's message renders it. */
  lemma NextRendered(g: Graph, root: string, doc: Document, s: Schema, f: Field) returns (nullable: bool)
    requires Compiled(g, root, doc) && RendersField(g, root, doc.defs.Keys, s, f)
    requires ValueKind(f).KMessage? && !IsLeaf(ValueKind(f)) && ValueSchema(s, f).Some?
    ensures RendersInline(g, root, doc.defs.Keys, WrittenAt(root, doc, ValueSchema(s, f).value, ValueKind(f).name, ValueNullable(f)),
                          ValueKind(f).name, nullable)
  {
    var k, t := ValueKind(f), ValueSchema(s, f).value;
    assert RendersKind(g, root, doc.defs.Keys, t, k, ValueNullable(f));
    MessageKind(g, root, doc.defs.Keys, t, k, ValueNullable(f));
    if RendersByRef(root, doc.defs.Keys, t, k.name, ValueNullable(f)) {
      TargetRendered(g, root, doc, k.name);
      nullable := false;
    } else {
      nullable := ValueNullable(f);
    }
  }

  // Every refusal lies at the end of such a way.

  lemma {:induction false} WayToRefusal(g: Graph, root: string, doc: Document, s: Schema, name: string, v: Json) returns (way: seq<Field>)
    requires Compiled(g, root, doc) && name in g && MessageConforms(g, false, name, v) && MessageRefuses(g, root, doc, s, name, v)
    ensures LeadsToRefusal(g, root, doc, s, name, way)
    decreases v, 0
  {
    var f :| && f in g[name].fields && f.jsonName in v.fields && f.jsonName in s.properties
             && FieldRefuses(g, root, doc, s.properties[f.jsonName], f, v.fields[f.jsonName]);
    var y := v.fields[f.jsonName];
    if f.shape.Singular? && y.JNull? {
      way := [f];
      RefusedHere(g, root, doc, s, name, v, f);
    } else {
      var rest := WayBelow(g, root, doc, s.properties[f.jsonName], f, y);
      way := [f] + rest;
      LeadsFurther(g, root, doc, s, name, v, f, rest);
    }
  }

  lemma RefusedHere(g: Graph, root: string, doc: Document, s: Schema, name: string, v: Json, f: Field)
    requires name in g && MessageConforms(g, false, name, v) && f in g[name].fields
    requires f.shape.Singular? && f.jsonName in v.fields && v.fields[f.jsonName].JNull?
    requires f.jsonName in s.properties && FieldRefuses(g, root, doc, s.properties[f.jsonName], f, v.fields[f.jsonName])
    ensures LeadsToRefusal(g, root, doc, s, name, [f])
  {
    assert MayBeNull(g, name, f);
    assert RefusesNull(g, root, doc, s.properties[f.jsonName], name, f);
  }

  lemma LeadsFurther(g: Graph, root: string, doc: Document, s: Schema, name: string, v: Json, f: Field, rest: seq<Field>)
    requires name in g && MessageConforms(g, false, name, v) && f in g[name].fields && f.jsonName in s.properties
    requires rest != [] && GoesOn(g, root, doc, s.properties[f.jsonName], f, rest)
    ensures LeadsToRefusal(g, root, doc, s, name, [f] + rest)
  {
    assert ([f] + rest)[1..] == rest;
  }

  lemma {:induction false} WayBelow(g: Graph, root: string, doc: Document, s: Schema, f: Field, y: Json) returns (way: seq<Field>)
    requires Compiled(g, root, doc) && FieldConforms(g, false, f, y) && FieldRefuses(g, root, doc, s, f, y)
    requires !(f.shape.Singular? && y.JNull?)
    ensures way != [] && GoesOn(g, root, doc, s, f, way)
    decreases y, 1
  {
    var x := RefusedValue(g, root, doc, s, f, y);
    var k, t := ValueKind(f), ValueSchema(s, f).value;
    RefusedBelow(g, root, doc, t, k, ValueNullable(f), x);
    way := WayToRefusal(g, root, doc, WrittenAt(root, doc, t, k.name, ValueNullable(f)), k.name, x);
  }

  /** Of the values in a field that is refused, one that is refused itself. */
  lemma RefusedValue(g: Graph, root: string, doc: Document, s: Schema, f: Field, y: Json) returns (x: Json)
    requires FieldConforms(g, false, f, y) && FieldRefuses(g, root, doc, s, f, y) && !(f.shape.Singular? && y.JNull?)
    ensures ValueSchema(s, f).Some? && !(x.JNull? && ValueNullable(f)) && (x == y || x < y)
    ensures KindConforms(g, false, ValueKind(f), x) && KindRefuses(g, root, doc, ValueSchema(s, f).value, ValueKind(f), ValueNullable(f), x)
  {
    match f.shape {
      case Singular => x := y;
      case Repeated =>
        var i :| 0 <= i < |y.items| && KindRefuses(g, root, doc, s.items.value, f.kind, false, y.items[i]);
        x := y.items[i];
      case MapOf(entry) =>
        var k :| k in y.fields && KindRefuses(g, root, doc, s.additionalProperties.value, entry[1], false, y.fields[k]);
        x := y.fields[k];
    }
  }

  lemma RefusedBelow(g: Graph, root: string, doc: Document, t: Schema, k: Kind, nullable: bool, x: Json)
    requires KindConforms(g, false, k, x) && KindRefuses(g, root, doc, t, k, nullable, x) && !(x.JNull? && nullable)
    ensures k.KMessage? && !IsLeaf(k) && k.name in g && MessageConforms(g, false, k.name, x)
    ensures MessageRefuses(g, root, doc, WrittenAt(root, doc, t, k.name, nullable), k.name, x)
  {
    MessageKindConforms(g, false, k, x);
  }

  ghost predicate Agrees(g: Graph, root: string, doc: Document) {
    forall v :: Validates(doc, v) <==> MessageConforms(g, false, root, v)
  }

  ghost predicate Refuses(g: Graph, root: string, doc: Document) {
    exists way :: LeadsToRefusal(g, root, doc, doc.root, root, way)
  }

  lemma SomethingRefused(g: Graph, root: string, doc: Document) returns (v: Json)
    requires Compiled(g, root, doc) && Refuses(g, root, doc)
    ensures MessageConforms(g, false, root, v) && !Validates(doc, v)
  {
    var way :| LeadsToRefusal(g, root, doc, doc.root, root, way);
    v := RefusalAtEnd(g, root, doc, doc.root, root, false, way);
    DocumentMeaning(g, root, doc, v);
  }

  lemma DisagreementIsRefusal(g: Graph, root: string, doc: Document, v: Json)
    requires Compiled(g, root, doc) && Validates(doc, v) != MessageConforms(g, false, root, v)
    ensures Refuses(g, root, doc)
  {
    DocumentMeaning(g, root, doc, v);
    var way := WayToRefusal(g, root, doc, doc.root, root, v);
  }

  /**
   The document validates exactly the messages if and only if no way along the fields of
   possible messages ends at an optional field for which the document writes out a message
   with a required oneof.
   */
  lemma DocumentExactIff(g: Graph, root: string, doc: Document)
    requires Compiled(g, root, doc)
    ensures Agrees(g, root, doc) <==> !Refuses(g, root, doc)
  {
    if Refuses(g, root, doc) {
      var v := SomethingRefused(g, root, doc);
    }
    if !Agrees(g, root, doc) {
      var v :| Validates(doc, v) != MessageConforms(g, false, root, v);
      DisagreementIsRefusal(g, root, doc, v);
    }
  }

  /** In a possible message null can stand for any optional field that is no member of a required oneof. */
  lemma OptionalMayBeNull(g: Graph, name: string, f: Field)
    requires WellFormed(g) && Possible(g, name) && name in g && f in g[name].fields && !IsRequired(f)
    requires f.oneof.Some? ==> f.oneof.value !in g[name].requiredOneofs
    ensures MayBeNull(g, name, f)
  {
    var v :| MessageConforms(g, false, name, v);
    NulledConforms(g, name, v, f);
    assert f.jsonName in Nulled(v, f).fields && Nulled(v, f).fields[f.jsonName].JNull?;
  }

  lemma NulledConforms(g: Graph, name: string, v: Json, f: Field)
    requires WellFormed(g) && MessageConforms(g, false, name, v) && f in g[name].fields && !IsRequired(f)
    requires f.oneof.Some? ==> f.oneof.value !in g[name].requiredOneofs
    ensures MessageConforms(g, false, name, Nulled(v, f))
  {
    var w := Nulled(v, f);
    NulledRespects(g[name], v, f);
    forall a | a in g[name].fields && a.jsonName in w.fields
      ensures FieldConforms(g, false, a, w.fields[a.jsonName])
    {
      NulledField(g, name, v, f, a);
    }
  }

  lemma NulledField(g: Graph, name: string, v: Json, f: Field, a: Field)
    requires WellFormed(g) && MessageConforms(g, false, name, v) && f in g[name].fields && !IsRequired(f)
    requires a in g[name].fields && a.jsonName in Nulled(v, f).fields
    ensures FieldConforms(g, false, a, Nulled(v, f).fields[a.jsonName])
  {
    if a.jsonName == f.jsonName {
      SameField(g[name], a, f);
    }
  }

  function Nulled(v: Json, f: Field): Json
    requires v.JObject?
  {
    JObject(v.fields[f.jsonName := JNull])
  }

  lemma NulledRespects(m: Message, v: Json, f: Field)
    requires DistinctJsonNames(m.fields) && f in m.fields && v.JObject? && OneofsRespected(m, v)
    requires f.oneof.Some? ==> f.oneof.value !in m.requiredOneofs
    ensures OneofsRespected(m, Nulled(v, f))
  {
    var w := Nulled(v, f);
    forall o | o in m.requiredOneofs && HasMember(m, o)
      ensures MemberSelected(m, o, w)
    {
      var a :| a in m.fields && a.oneof == Some(o) && IsSelected(a.jsonName, v);
      if a.jsonName == f.jsonName {
        SameField(m, a, f);
      }
      assert IsSelected(a.jsonName, w);
    }
    forall a, b | a in m.fields && b in m.fields && a.oneof.Some? && a.oneof == b.oneof && a.jsonName != b.jsonName
      ensures !(IsSelected(a.jsonName, w) && IsSelected(b.jsonName, w))
    {
      assert IsSelected(a.jsonName, w) ==> IsSelected(a.jsonName, v);
      assert IsSelected(b.jsonName, w) ==> IsSelected(b.jsonName, v);
    }
  }
}
