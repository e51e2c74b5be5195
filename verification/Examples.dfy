/** The compiler's example maker, and what its examples are worth to the compiled schema. */
module Examples {
  import opened Wrappers
  import opened JsonSchema
  import opened ProtoGraph
  import opened Rendering
  import opened SchemaMeaning
  import opened WellKnownTypes
  import opened ExampleValues
  import opened ExampleMeaning

  /** The oneofs that the first `i` fields belong to. */
  function OneofsOf(fields: seq<Field>, i: nat): set<string>
    requires i <= |fields|
  {
    set j | 0 <= j < i && fields[j].oneof.Some? :: fields[j].oneof.value
  }

  function MoreOneofs(f: Field, handled: set<string>): set<string> {
    if f.oneof.Some? then handled + {f.oneof.value} else handled
  }

  /** Tracking the oneofs met so far decides which fields are shown. */
  lemma ShownByTracking(fields: seq<Field>, i: nat, recursive: bool, handled: set<string>)
    requires i < |fields| && handled == OneofsOf(fields, i)
    ensures IsShown(fields, i, recursive) <==>
              !(fields[i].oneof.Some? && fields[i].oneof.value in handled) && !(recursive && !IsRequired(fields[i]))
    ensures OneofsOf(fields, i + 1) == MoreOneofs(fields[i], handled)
    ensures fields[i].oneof.Some? && fields[i].oneof.value in handled ==> MoreOneofs(fields[i], handled) == handled
  {
  }

  lemma PropertiesStep(g: Graph, seen: multiset<string>, recursive: bool, fields: seq<Field>, i: nat)
    requires i < |fields| && seen <= Room(g)
    ensures var before, after := Properties(g, seen, recursive, fields, i), Properties(g, seen, recursive, fields, i + 1);
            && (!IsShown(fields, i, recursive) ==> after == before)
            && (IsShown(fields, i, recursive) ==>
                  var example := FieldExample(g, seen, fields[i]);
                  after == if example.Some? then before[fields[i].jsonName := example.value] else before)
  {
  }

  /** `seen` counts the open frames of each message. */
  class ExampleMaker {
    const g: Graph
    var seen: multiset<string>

    constructor (g: Graph)
      ensures this.g == g && seen == multiset{}
    {
      this.g := g;
      seen := multiset{};
    }

    method AutoSingularExamples(k: Kind) returns (examples: seq<Json>)
      requires WellFormed(g) && seen <= Room(g)
      modifies this
      ensures seen == old(seen)
      ensures examples == KindExamples(g, seen, k)
      decreases Room(g) - seen, 1
    {
      match k
      case KMessage(name) =>
        if IsWellKnown(name) {
          return WellKnownExamples(WellKnownOf(name).value);
        }
        if name !in g {
          return [];
        }
        var example := AutoMessageExample(name);
        return if example.Some? then [example.value] else [];
      case _ => return ScalarExamples(k);
    }

    method AutoMapExample(entry: seq<Kind>) returns (example: Option<Json>)
      requires WellFormed(g) && seen <= Room(g)
      modifies this
      ensures seen == old(seen)
      ensures forall f: Field | f.shape == MapOf(entry) :: example == FieldExample(g, seen, f)
      decreases Room(g) - seen, 2
    {
      if |entry| != 2 {
        return None;
      }
      var key := MapKeyExample(entry[0]);
      if key == "" {
        return None;
      }
      var values := AutoSingularExamples(entry[1]);
      if values == [] {
        return None;
      }
      return Some(JObject(map[key := values[0]]));
    }

    method AutoFieldExampleValue(f: Field) returns (example: Option<Json>)
      requires WellFormed(g) && seen <= Room(g)
      modifies this
      ensures seen == old(seen)
      ensures example == FieldExample(g, seen, f)
      decreases Room(g) - seen, 3
    {
      if f.shape.MapOf? {
        example := AutoMapExample(f.shape.entry);
        return;
      }
      var examples := AutoSingularExamples(f.kind);
      if examples == [] {
        return None;
      }
      if f.shape.Repeated? {
        return Some(JArray([examples[0]]));
      }
      return Some(examples[0]);
    }

    /**
     Ends on every graph: each productive frame takes one of the five places that its
     message has in `Room`. A message inside itself shows its required fields only.
     */
    method AutoMessageExample(name: string) returns (example: Option<Json>)
      requires WellFormed(g) && name in g && seen <= Room(g)
      modifies this
      ensures seen == old(seen)
      ensures example == MessageExample(g, seen, name)
      decreases Room(g) - seen, 0
    {
      ghost var before := seen;
      seen := seen + multiset{name};
      if seen[name] > LIMIT {
        seen := seen - multiset{name};
        return None;
      }
      FrameFits(g, before, name);
      var properties := ShownProperties(name, seen[name] > 1);
      seen := seen - multiset{name};
      if properties == map[] {
        return None;
      }
      return Some(JObject(properties));
    }

    /** The fields of an open message. */
    method ShownProperties(name: string, recursive: bool) returns (properties: map<string, Json>)
      requires WellFormed(g) && name in g && seen <= Room(g)
      modifies this
      ensures seen == old(seen)
      ensures properties == Properties(g, seen, recursive, g[name].fields, |g[name].fields|)
      decreases Room(g) - seen, 4
    {
      var fields, handled := g[name].fields, {};
      properties := map[];
      for i := 0 to |fields|
        invariant seen == old(seen)
        invariant properties == Properties(g, seen, recursive, fields, i)
        invariant handled == OneofsOf(fields, i)
      {
        var f := fields[i];
        ShownByTracking(fields, i, recursive, handled);
        PropertiesStep(g, seen, recursive, fields, i);
        if f.oneof.Some? {
          if f.oneof.value in handled {
            continue;
          }
          handled := handled + {f.oneof.value};
        }
        if recursive && !IsRequired(f) {
          continue;
        }
        var value := AutoFieldExampleValue(f);
        if value.None? {
          continue;
        }
        properties := properties[f.jsonName := value.value];
      }
    }
  }

  /** The examples that the schema of a field gets. */
  method AutoFieldExamples(g: Graph, f: Field) returns (examples: seq<Json>)
    requires WellFormed(g)
    ensures forall v | v in examples :: PlausibleField(g, f, v)
    ensures examples != [] <==> FieldFertile(g, multiset{}, f)
    ensures examples != [] ==> Some(examples[0]) == FieldExample(g, multiset{}, f)
  {
    var maker := new ExampleMaker(g);
    FieldExampleIffFertile(g, multiset{}, f);
    FieldPlausible(g, multiset{}, f);
    if f.shape.MapOf? {
      var example := maker.AutoMapExample(f.shape.entry);
      return if example.Some? then [example.value] else [];
    }
    examples := maker.AutoSingularExamples(f.kind);
    KindPlausible(g, multiset{}, f.kind);
    if f.shape.Repeated? {
      var lists := [];
      for i := 0 to |examples|
        invariant |lists| == i && (i > 0 ==> lists[0] == JArray([examples[0]]))
        invariant forall v | v in lists :: PlausibleField(g, f, v)
      {
        assert examples[i] in examples;
        lists := lists + [JArray([examples[i]])];
      }
      return lists;
    }
  }

  /** The example of a message is valid against the message's own document exactly when it is sound. */
  lemma ExampleValidates(g: Graph, root: string, doc: Document)
    requires Compiled(g, root, doc) && EnumsDistinct(g) && MessageExample(g, multiset{}, root).Some?
    ensures Validates(doc, MessageExample(g, multiset{}, root).value) <==> MessageSound(g, multiset{}, root)
  {
    ConformsIffSound(g, true, multiset{}, root);
    ConformsIffSound(g, false, multiset{}, root);
    DocumentBounds(g, root, doc, MessageExample(g, multiset{}, root).value);
  }

  // Three graphs whose examples are not valid, and an enum.

  const BLANK := Message([], {})
  const ID := Field("id", KString, Singular, None, false)

  /** The first member of the required oneof has nothing to show, and the second is not tried. */
  const PICKY := Message(
    [Field("p", KMessage("E"), Singular, Some("pick"), false), Field("s", KString, Singular, Some("pick"), false), ID], {"pick"})

  const NEEDY := Message([Field("e", KMessage("E"), Singular, None, false), ID], {})

  /** Inside itself it shows required fields only, and no member of its required oneof. */
  const NESTED := Message(
    [Field("next", KMessage("M"), Singular, None, true), ID, Field("s", KString, Singular, Some("pick"), false)], {"pick"})

  function WithBlank(m: Message): Graph {
    map["M" := m, "E" := BLANK]
  }

  const EXAMPLE: Json := JString("example")

  lemma ShortNames()
    ensures !IsGoogleName("M") && !IsGoogleName("E") && "M" != "E"
  {
    assert |"M"| < |GOOGLE_PREFIX| && |"E"| < |GOOGLE_PREFIX|;
    assert "M"[0] != "E"[0];
  }

  lemma BlankHasNoExample(m: Message, seen: multiset<string>)
    requires seen <= Room(WithBlank(m))
    ensures KindExamples(WithBlank(m), seen, KMessage("E")) == []
  {
    ShortNames();
    var g := WithBlank(m);
    assert g["E"] == BLANK;
    if seen["E"] < LIMIT {
      FrameFits(g, seen, "E");
      assert Properties(g, seen + multiset{"E"}, "E" in seen, BLANK.fields, |BLANK.fields|) == map[];
    }
    assert MessageExample(g, seen, "E").None?;
    assert WellKnownOf("E").None?;
  }

  lemma WithBlankFits(m: Message)
    ensures multiset{"M"} <= Room(WithBlank(m))
  {
    RoomHas(WithBlank(m), "M");
  }

  lemma IdExample(g: Graph, seen: multiset<string>)
    requires seen <= Room(g)
    ensures FieldExample(g, seen, ID) == Some(EXAMPLE)
  {
  }

  /** A required oneof whose first member has no example: none of its members is in the example. */
  lemma FirstMemberHidesOthers()
    ensures MessageExample(WithBlank(PICKY), multiset{}, "M") == Some(JObject(map["id" := EXAMPLE]))
    ensures !OneofsRespected(PICKY, JObject(map["id" := EXAMPLE]))
  {
    var g, seen, fields := WithBlank(PICKY), multiset{"M"}, PICKY.fields;
    WithBlankFits(PICKY);
    ShortNames();
    BlankHasNoExample(PICKY, seen);
    assert FieldExample(g, seen, fields[0]).None?;
    IdExample(g, seen);
    assert Properties(g, seen, false, fields, 1) == map[];
    assert fields[0].oneof == fields[1].oneof;
    assert Properties(g, seen, false, fields, 2) == map[];
    assert Properties(g, seen, false, fields, 3) == map["id" := EXAMPLE];
    assert multiset{} + multiset{"M"} == seen;
    assert HasMember(PICKY, "pick") by { assert fields[0] in PICKY.fields; }
    assert "id"[0] != 'p' && "id"[0] != 's';
  }

  /** A required field without an example is not in the example. */
  lemma RequiredFieldLeftOut()
    ensures MessageExample(WithBlank(NEEDY), multiset{}, "M") == Some(JObject(map["id" := EXAMPLE]))
    ensures IsRequired(NEEDY.fields[0]) && NEEDY.fields[0].jsonName == "e"
  {
    var g, seen, fields := WithBlank(NEEDY), multiset{"M"}, NEEDY.fields;
    WithBlankFits(NEEDY);
    BlankHasNoExample(NEEDY, seen);
    assert FieldExample(g, seen, fields[0]).None?;
    IdExample(g, seen);
    assert Properties(g, seen, false, fields, 1) == map[];
    assert Properties(g, seen, false, fields, 2) == map["id" := EXAMPLE];
    assert multiset{} + multiset{"M"} == seen;
  }

  /** A message inside itself shows no member of its required oneof. */
  lemma InnerFrameSkipsOneofs()
    ensures MessageExample(WithBlank(NESTED), multiset{"M"}, "M") == Some(JObject(map["id" := EXAMPLE]))
    ensures !OneofsRespected(NESTED, JObject(map["id" := EXAMPLE]))
  {
    var g, seen, fields := WithBlank(NESTED), multiset{"M", "M"}, NESTED.fields;
    RoomHas(g, "M");
    WithBlankFits(NESTED);
    IdExample(g, seen);
    assert Properties(g, seen, true, fields, 1) == map[];
    assert Properties(g, seen, true, fields, 2) == map["id" := EXAMPLE];
    assert Properties(g, seen, true, fields, 3) == map["id" := EXAMPLE];
    assert multiset{"M"} + multiset{"M"} == seen;
    assert HasMember(NESTED, "pick") by { assert fields[2] in NESTED.fields; }
    assert "id"[0] != 's';
  }

  /** A hidden enum value may be exemplified although the schema refuses it. */
  lemma HiddenValueIsExemplified(g: Graph, strict: bool)
    ensures var values := [EnumValue("UNSET", 0, false), EnumValue("OLD", 1, true)];
            ScalarExamples(KEnum(values)) == [JString("OLD")] && !KindConforms(g, strict, KEnum(values), JString("OLD"))
  {
    var values := [EnumValue("UNSET", 0, false), EnumValue("OLD", 1, true)];
    assert values[1..] == [values[1]];
    assert ChosenValue(values) == values[1];
    assert values[0].name[0] != values[1].name[0];
    EnumExampleConforms(g, strict, values);
    assert !values[0].hidden && values[0] in values;
  }
}
