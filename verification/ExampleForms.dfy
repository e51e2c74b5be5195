/** Examples spelled out: which fields a message shows, which enum value, and of what form the literal examples are. */
module ExampleForms {
  import opened Wrappers
  import opened Digits
  import opened JsonSchema
  import opened ProtoGraph
  import opened WellKnownTypes
  import opened ExampleValues
  import opened SchemaLeaves

  /** The example of an enum names its first value with a number other than zero, or its first value if there is none. */
  lemma {:induction false} EnumChoice(values: seq<EnumValue>) returns (i: nat)
    requires values != []
    ensures i < |values| && ScalarExamples(KEnum(values)) == [JString(values[i].name)]
    ensures values[i].number != 0 ==> forall j | 0 <= j < i :: values[j].number == 0
    ensures values[i].number == 0 ==> i == 0 && forall e | e in values :: e.number == 0
  {
    if NonZero(values).Some? {
      i := FirstNonZero(values);
    } else {
      NoneNonZero(values);
      i := 0;
    }
  }

  lemma {:induction false} FirstNonZero(values: seq<EnumValue>) returns (i: nat)
    requires NonZero(values).Some?
    ensures i < |values| && NonZero(values) == Some(values[i]) && values[i].number != 0
    ensures forall j | 0 <= j < i :: values[j].number == 0
    decreases |values|
  {
    if values[0].number != 0 {
      i := 0;
    } else {
      var k := FirstNonZero(values[1..]);
      i := k + 1;
      forall j | 0 <= j < i
        ensures values[j].number == 0
      {
        assert j > 0 ==> values[1..][j - 1] == values[j];
      }
    }
  }

  lemma {:induction false} NoneNonZero(values: seq<EnumValue>)
    requires NonZero(values).None?
    ensures forall e | e in values :: e.number == 0
    decreases |values|
  {
    if values != [] {
      NoneNonZero(values[1..]);
    }
  }

  /** No field of the same oneof stands before field `j`. */
  predicate LeadsOneof(fields: seq<Field>, j: nat)
    requires j < |fields|
  {
    fields[j].oneof.None? || forall i | 0 <= i < j :: fields[i].oneof != fields[j].oneof
  }

  /**
   The fields that a message shows: the first of each oneof, and every field outside oneofs, but inside
   another frame of the same message only single fields that are not optional; each if it has an example.
   Five frames of one message may be open, and then it has none.
   */
  lemma ShownFields(g: Graph, seen: multiset<string>, name: string, j: nat)
    requires WellFormed(g) && name in g && seen <= Room(g) && j < |g[name].fields|
    ensures seen[name] >= 5 ==> MessageExample(g, seen, name).None?
    ensures seen[name] < 5 ==> seen + multiset{name} <= Room(g)
    ensures seen[name] < 5 ==>
              var f := g[name].fields[j];
              (MessageExample(g, seen, name).Some? && MessageExample(g, seen, name).value.JObject?
               && f.jsonName in MessageExample(g, seen, name).value.fields)
              <==>
              && LeadsOneof(g[name].fields, j)
              && (seen[name] > 0 ==> f.oneof.None? && !f.shape.Repeated? && !f.shape.MapOf? && !f.optionalKeyword)
              && FieldExample(g, seen + multiset{name}, f).Some?
  {
    MessageExampleExact(g, seen, name);
    var f := g[name].fields[j];
    assert IsShown(g[name].fields, j, name in seen) <==>
             && LeadsOneof(g[name].fields, j)
             && (seen[name] > 0 ==> f.oneof.None? && !f.shape.Repeated? && !f.shape.MapOf? && !f.optionalKeyword);
  }

  // Literals.

  predicate IsBase64(s: string) {
    |s| % 4 == 0 && forall i | 0 <= i < |s| ::
      || 'A' <= s[i] <= 'Z' || 'a' <= s[i] <= 'z' || '0' <= s[i] <= '9' || s[i] == '+' || s[i] == '/'
      || (s[i] == '=' && (i == |s| - 1 || (i == |s| - 2 && s[|s| - 1] == '=')))
  }

  /** The form that ProtoJSON has for a kind, as narrow as it is. */
  ghost predicate IsProtoJson(k: Kind, v: Json) {
    match k
    case KBool => v.JBool?
    case KString => v.JString?
    case KBytes => v.JString? && IsBase64(v.s)
    case KInt32 => exists n: int :: -0x8000_0000 <= n < 0x8000_0000 && v == Whole(n)
    case KUint32 => exists n: int :: 0 <= n < 0x1_0000_0000 && v == Whole(n)
    case KInt64 => v.JString? && exists n: nat :: IsSigned(v.s, n) && n < 0x8000_0000_0000_0000
    case KUint64 => v.JString? && exists n: nat :: v.s == Decimal(n) && n < 0x1_0000_0000_0000_0000
    case KFloat => v.JNumber? || v == JString("NaN") || v == JString("Infinity") || v == JString("-Infinity")
    case KEnum(values) => exists e | e in values :: v == JString(e.name)
    case _ => false
  }

  /** Every literal example is of that form; only a group, and an enum without values, has none. */
  lemma LiteralsFit(k: Kind)
    requires !k.KMessage?
    ensures ScalarExamples(k) == [] <==> k.KGroup? || (k.KEnum? && k.values == [])
    ensures forall v | v in ScalarExamples(k) :: IsProtoJson(k, v)
  {
    match k
    case KInt32 => assert JNumber(-1.0) == Whole(-1);
    case KUint32 => assert JNumber(1.0) == Whole(1);
    case KInt64 =>
      OneIsOne();
      assert IsSigned("-1", 1);
    case KUint64 => OneIsOne();
    case KEnum(values) =>
      if values != [] {
        var i := EnumChoice(values);
        assert values[i] in values;
      }
    case _ =>
  }

  lemma OneIsOne()
    ensures Decimal(1) == "1"
  {
  }

  /** The example of a map has one entry, under a key of the map's kind; a list has one item. */
  lemma FieldForms(g: Graph, seen: multiset<string>, f: Field)
    requires seen <= Room(g)
    ensures var values, example := KindExamples(g, seen, ValueKind(f)), FieldExample(g, seen, f);
            && (example.Some? ==> values != [])
            && (values != [] && !f.shape.MapOf? ==> example.Some?)
            && (example.Some? && f.shape.Singular? ==> example.value == values[0])
            && (example.Some? && f.shape.Repeated? ==> example.value == JArray([values[0]]))
            && (example.Some? && f.shape.MapOf? ==>
                  && |f.shape.entry| == 2 && example.value.JObject?
                  && exists key :: KeyConforms(f.shape.entry[0], key) && example.value.fields == map[key := values[0]])
            && (values != [] && f.shape.MapOf? && |f.shape.entry| == 2 && IsMapKey(f.shape.entry[0]) ==> example.Some?)
  {
    if f.shape.MapOf? && |f.shape.entry| == 2 {
      KeyFits(f.shape.entry[0]);
    }
  }

  lemma KeyFits(k: Kind)
    ensures MapKeyExample(k) != "" <==> IsMapKey(k)
    ensures IsMapKey(k) ==> KeyConforms(k, MapKeyExample(k))
  {
    OneIsOne();
    PlainIntegers("1");
  }
}
