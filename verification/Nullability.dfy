/** nullableSchema: widening a schema so that null is accepted as well. */
module Nullability {
  import opened Wrappers
  import opened JsonSchema

  /** `values` then `additions`, each type once, at its first place. */
  function AppendUnique(values: seq<JsonType>, additions: seq<JsonType>): seq<JsonType> {
    Distinct(values + additions)
  }

  function Distinct(values: seq<JsonType>): seq<JsonType> {
    if values == [] then []
    else
      var kept := Distinct(values[..|values| - 1]);
      var last := values[|values| - 1];
      if last in kept then kept else kept + [last]
  }

  method AppendUniqueStrings(values: seq<JsonType>, additions: seq<JsonType>) returns (result: seq<JsonType>)
    ensures result == AppendUnique(values, additions)
  {
    var seen: set<JsonType> := {};
    result := [];
    for i := 0 to |values|
      invariant result == Distinct(values[..i])
      invariant seen == set t | t in result
    {
      assert values[..i + 1][..i] == values[..i];
      if values[i] !in seen {
        seen := seen + {values[i]};
        result := result + [values[i]];
      }
    }
    assert values[..|values|] == values == values + additions[..0];
    for i := 0 to |additions|
      invariant result == Distinct(values + additions[..i])
      invariant seen == set t | t in result
    {
      assert (values + additions[..i + 1])[..|values| + i] == values + additions[..i];
      if additions[i] !in seen {
        seen := seen + {additions[i]};
        result := result + [additions[i]];
      }
    }
    assert additions[..|additions|] == additions;
  }

  lemma {:induction false} DistinctExact(values: seq<JsonType>)
    ensures forall t :: t in Distinct(values) <==> t in values
    ensures forall i, j | 0 <= i < j < |Distinct(values)| :: Distinct(values)[i] != Distinct(values)[j]
  {
    if values != [] {
      DistinctExact(values[..|values| - 1]);
      assert values == values[..|values| - 1] + [values[|values| - 1]];
    }
  }

  lemma {:induction false} DistinctFixed(values: seq<JsonType>)
    requires forall i, j | 0 <= i < j < |values| :: values[i] != values[j]
    ensures Distinct(values) == values
  {
    if values != [] {
      var front := values[..|values| - 1];
      DistinctFixed(front);
      assert values == front + [values[|values| - 1]];
    }
  }

  predicate IsUnconstrained(s: Schema) {
    && s.ref.NoRef?
    && s.typ.None?
    && s.types == []
    && s.enum == []
    && s.items.None?
    && s.properties == map[]
    && s.additionalProperties.None?
    && s.propertyNames.None?
    && s.allOf == []
    && s.anyOf == []
    && s.oneOf == []
    && s.negated.None?
    && s.format == ""
    && s.pattern.NoPattern?
    && s.contentEncoding == ""
  }

  const NULL_SCHEMA: Schema := OfType(TNull)

  function OrNull(s: Schema): Schema {
    EMPTY.(anyOf := [s, NULL_SCHEMA])
  }

  predicate HasNullBranch(s: Schema) {
    exists i | 0 <= i < |s.anyOf| :: s.anyOf[i].typ == Some(TNull)
  }

  function NullableSchema(s: Schema): Schema {
    if IsUnconstrained(s) then s
    else if |s.enum| > 0 then OrNull(s)
    else if s.typ.Some? then s.(types := AppendUnique([], [s.typ.value, TNull]), typ := None)
    else if |s.types| > 0 then s.(types := AppendUnique(s.types, [TNull]))
    else if |s.anyOf| > 0 then (if HasNullBranch(s) then s else s.(anyOf := s.anyOf + [NULL_SCHEMA]))
    else OrNull(s)
  }

  /** The Go function accepts nil, which becomes the schema that accepts only null. */
  method Nullable(schema: Option<Schema>) returns (result: Schema)
    ensures result == if schema.None? then NULL_SCHEMA else NullableSchema(schema.value)
  {
    if schema.None? {
      return OfType(TNull);
    }
    var clone := schema.value;
    if IsUnconstrained(clone) {
      return clone;
    }
    if |clone.enum| > 0 {
      return EMPTY.(anyOf := [clone, OfType(TNull)]);
    }
    if clone.typ.Some? {
      var types := AppendUniqueStrings([], [clone.typ.value, TNull]);
      clone := clone.(types := types, typ := None);
    } else if |clone.types| > 0 {
      var types := AppendUniqueStrings(clone.types, [TNull]);
      clone := clone.(types := types);
    } else if |clone.anyOf| > 0 {
      var hasNull := false;
      for i := 0 to |clone.anyOf|
        invariant hasNull <==> exists j | 0 <= j < i :: clone.anyOf[j].typ == Some(TNull)
      {
        if clone.anyOf[i].typ == Some(TNull) {
          hasNull := true;
          break;
        }
      }
      if !hasNull {
        clone := clone.(anyOf := clone.anyOf + [OfType(TNull)]);
      }
    } else {
      return EMPTY.(anyOf := [clone, OfType(TNull)]);
    }
    return clone;
  }

  /** What is left of `s` once the keyword that is widened is taken away. */
  function Remainder(s: Schema): Schema {
    if IsUnconstrained(s) then s
    else if |s.enum| > 0 then EMPTY
    else if s.typ.Some? then s.(typ := None, types := [])
    else if |s.types| > 0 then s.(types := [])
    else if |s.anyOf| > 0 then (if HasNullBranch(s) then s else s.(anyOf := []))
    else EMPTY
  }

  lemma NullTypeAccepts(doc: Document, hops: nat, v: Json)
    ensures Accepts(doc, hops, NULL_SCHEMA, v) <==> v.JNull?
  {
  }

  lemma EmptyAccepts(doc: Document, hops: nat, v: Json)
    ensures Accepts(doc, hops, EMPTY, v)
  {
  }

  lemma OrNullMeaning(doc: Document, hops: nat, s: Schema, v: Json)
    ensures Accepts(doc, hops, OrNull(s), v) <==> v.JNull? || Accepts(doc, hops, s, v)
  {
    var w := OrNull(s);
    NullTypeAccepts(doc, hops, v);
    assert w.anyOf[0] == s && w.anyOf[1] == NULL_SCHEMA;
  }

  /** Everything but the type keywords and anyOf, on the value itself or on its parts. */
  predicate RestAccepts(doc: Document, hops: nat, s: Schema, v: Json) {
    && RefAccepts(doc, hops, s, v)
    && EnumAccepts(s, v)
    && PatternAccepts(s, v)
    && ItemsAccept(doc, hops, s, v)
    && ObjectAccepts(doc, hops, s, v)
    && AllOfAccepts(doc, hops, s, v)
    && OneOfAccepts(doc, hops, s, v)
    && NegatedAccepts(doc, hops, s, v)
  }

  lemma SameSubschemas(doc: Document, hops: nat, a: Schema, b: Schema, v: Json)
    requires a == b.(typ := a.typ, types := a.types, anyOf := a.anyOf)
    ensures AllOfAccepts(doc, hops, a, v) == AllOfAccepts(doc, hops, b, v)
    ensures OneOfAccepts(doc, hops, a, v) == OneOfAccepts(doc, hops, b, v)
    ensures NegatedAccepts(doc, hops, a, v) == NegatedAccepts(doc, hops, b, v)
  {
    assert a.allOf == b.allOf && a.oneOf == b.oneOf && a.negated == b.negated;
  }

  lemma SameParts(doc: Document, hops: nat, a: Schema, b: Schema, v: Json)
    requires a == b.(typ := a.typ, types := a.types, anyOf := a.anyOf)
    ensures ItemsAccept(doc, hops, a, v) == ItemsAccept(doc, hops, b, v)
    ensures ObjectAccepts(doc, hops, a, v) == ObjectAccepts(doc, hops, b, v)
  {
    assert a.items == b.items && a.properties == b.properties && a.required == b.required;
    assert a.additionalProperties == b.additionalProperties && a.propertyNames == b.propertyNames;
  }

  lemma SameRest(doc: Document, hops: nat, a: Schema, b: Schema, v: Json)
    requires a == b.(typ := a.typ, types := a.types, anyOf := a.anyOf)
    ensures RestAccepts(doc, hops, a, v) == RestAccepts(doc, hops, b, v)
  {
    SameSubschemas(doc, hops, a, b, v);
    SameParts(doc, hops, a, b, v);
    assert a.ref == b.ref;
  }

  lemma AcceptsParts(doc: Document, hops: nat, s: Schema, v: Json)
    ensures Accepts(doc, hops, s, v) <==>
              RestAccepts(doc, hops, s, v) && TypeAccepts(s, v) && AnyOfAccepts(doc, hops, s, v)
  {
  }

  lemma SameAnyOf(doc: Document, hops: nat, a: Schema, b: Schema, v: Json)
    requires a.anyOf == b.anyOf
    ensures AnyOfAccepts(doc, hops, a, v) == AnyOfAccepts(doc, hops, b, v)
  {
  }

  lemma AddedNullBranch(doc: Document, hops: nat, a: Schema, b: Schema, v: Json)
    requires |b.anyOf| > 0 && a.anyOf == b.anyOf + [NULL_SCHEMA]
    ensures AnyOfAccepts(doc, hops, a, v) <==> v.JNull? || AnyOfAccepts(doc, hops, b, v)
  {
    NullTypeAccepts(doc, hops, v);
    assert a.anyOf[|b.anyOf|] == NULL_SCHEMA;
    assert forall i | 0 <= i < |b.anyOf| :: a.anyOf[i] == b.anyOf[i];
  }

  lemma WidenedTypes(s: Schema, w: Schema, v: Json)
    requires w.typ.None?
    requires forall t :: t in w.types <==> t == TNull || s.typ == Some(t) || t in s.types
    requires s.typ.Some? != (|s.types| > 0)
    ensures TypeAccepts(w, v) <==> v.JNull? || TypeAccepts(s, v)
  {
    assert TNull in w.types;
    if TypeAccepts(s, v) {
      if s.typ.Some? {
        assert s.typ.value in w.types;
      } else {
        var i :| 0 <= i < |s.types| && HasType(s.types[i], v);
        assert s.types[i] in w.types;
      }
    }
    if TypeAccepts(w, v) {
      var i :| 0 <= i < |w.types| && HasType(w.types[i], v);
      assert w.types[i] in w.types;
      if w.types[i] in s.types {
        var j :| 0 <= j < |s.types| && s.types[j] == w.types[i];
      }
    }
  }

  /**
   Values other than null are judged as before; null is accepted exactly when the
   schema without the widened keyword accepts it. `typ` and `types` are never both
   set: a validator rejects such a schema.
   */
  lemma NullableMeaning(doc: Document, hops: nat, s: Schema, v: Json)
    requires s.typ.Some? ==> s.types == []
    ensures !v.JNull? ==> (Accepts(doc, hops, NullableSchema(s), v) <==> Accepts(doc, hops, s, v))
    ensures v.JNull? ==> (Accepts(doc, hops, NullableSchema(s), v) <==> Accepts(doc, hops, Remainder(s), v))
  {
    var w, r := NullableSchema(s), Remainder(s);
    if IsUnconstrained(s) {
    } else if |s.enum| > 0 || (s.typ.None? && s.types == [] && s.anyOf == []) {
      OrNullMeaning(doc, hops, s, v);
      EmptyAccepts(doc, hops, v);
    } else {
      AcceptsParts(doc, hops, w, v);
      AcceptsParts(doc, hops, s, v);
      AcceptsParts(doc, hops, r, v);
      SameRest(doc, hops, w, s, v);
      SameRest(doc, hops, r, s, v);
      if s.typ.Some? || |s.types| > 0 {
        DistinctExact(if s.typ.Some? then [] + [s.typ.value, TNull] else s.types + [TNull]);
        WidenedTypes(s, w, v);
        SameAnyOf(doc, hops, w, s, v);
        SameAnyOf(doc, hops, r, s, v);
      } else if !HasNullBranch(s) {
        AddedNullBranch(doc, hops, w, s, v);
      }
    }
  }

  /** Form by form, what null does to a schema that is not a case for two alternatives. */
  predicate GainsNull(s: Schema, w: Schema) {
    if s.typ.Some? then w == s.(typ := None, types := if s.typ == Some(TNull) then [TNull] else [s.typ.value, TNull])
    else if s.types != [] then w == s.(types := if TNull in s.types then s.types else s.types + [TNull])
    else if exists branch | branch in s.anyOf :: branch.typ == Some(TNull) then w == s
    else w == s.(anyOf := s.anyOf + [OfType(TNull)])
  }

  /**
   A schema that says nothing stays as it is. One with a type, or with a list of different types, gets
   null among its types; one with alternatives gets null as one of them, once; any other schema, and
   any with an enum, becomes one of two alternatives.
   */
  lemma WidenedForm(s: Schema)
    requires forall i, j | 0 <= i < j < |s.types| :: s.types[i] != s.types[j]
    ensures var w := NullableSchema(s);
            if s == EMPTY.(required := s.required) then w == s
            else if s.enum != [] || (s.typ.None? && s.types == [] && s.anyOf == []) then w == EMPTY.(anyOf := [s, OfType(TNull)])
            else GainsNull(s, w)
  {
    SaysNothing(s);
    if s.typ.Some? {
      TwoTypes(s.typ.value, TNull);
    } else if s.types != [] {
      OneMoreType(s.types, TNull);
    } else {
      NullBranchThere(s);
    }
  }

  lemma NullBranchThere(s: Schema)
    ensures HasNullBranch(s) <==> exists branch | branch in s.anyOf :: branch.typ == Some(TNull)
  {
  }

  lemma OneMoreType(types: seq<JsonType>, t: JsonType)
    requires forall i, j | 0 <= i < j < |types| :: types[i] != types[j]
    ensures AppendUnique(types, [t]) == if t in types then types else types + [t]
  {
    DistinctFixed(types);
    assert (types + [t])[..|types|] == types;
  }

  lemma SaysNothing(s: Schema)
    ensures IsUnconstrained(s) <==> s == EMPTY.(required := s.required)
  {
  }

  lemma TwoTypes(t: JsonType, u: JsonType)
    ensures AppendUnique([], [t, u]) == if t == u then [t] else [t, u]
  {
    OneMoreType([t], u);
    assert [] + [t, u] == [t] + [u];
  }

  lemma ListedTypesStayDistinct(types: seq<JsonType>)
    ensures var w := AppendUnique(types, [TNull]);
            TNull in w && AppendUnique(w, [TNull]) == w
  {
    var w := AppendUnique(types, [TNull]);
    DistinctExact(types + [TNull]);
    assert (types + [TNull])[|types|] == TNull;
    DistinctFixed(w);
    assert (w + [TNull])[..|w|] == w;
  }

  lemma NullableIdempotent(s: Schema)
    ensures NullableSchema(NullableSchema(s)) == NullableSchema(s)
  {
    var w := NullableSchema(s);
    if IsUnconstrained(s) {
    } else if |s.enum| > 0 || (s.typ.None? && s.types == [] && s.anyOf == []) {
      assert w.anyOf[1].typ == Some(TNull);
    } else if s.typ.Some? {
      ListedTypesStayDistinct([s.typ.value]);
      assert [] + [s.typ.value, TNull] == [s.typ.value] + [TNull];
    } else if |s.types| > 0 {
      ListedTypesStayDistinct(s.types);
    } else if !HasNullBranch(s) {
      assert w.anyOf[|s.anyOf|].typ == Some(TNull);
    }
  }
}
