/**
 Values decide: the values of some message types all come back from the emitted mappers
 exactly when the names in these types are harmless.
 */
module MapperValues {
  import opened Wrappers
  import opened PythonTypes
  import opened PythonMappers
  import opened PythonScopes
  import opened MapperRoundTrip
  import opened MapperFill
  import opened MapperDepth
  import opened GeneratedMappers
  import opened MapperAgreement
  import opened MapperNames

  function RefTo(env: Env, n: string): TypeRef
    requires n in env
  {
    MessageRef(n, env[n].publicName, env[n].owner)
  }

  /** Every well-typed value of the type goes through the emitted to_pb and from_pb unchanged. */
  ghost predicate ComesBack(env: Env, scope: Scope, n: string)
    requires n in env
  {
    forall v, depth: nat | Fits(env, RefTo(env, n), v, depth) :: ThereAndBack(env, scope, RefTo(env, n), v, depth) == Some(v)
  }

  ghost predicate AllComeBack(env: Env, scope: Scope, names: set<string>)
    requires names <= env.Keys
  {
    forall n | n in names :: ComesBack(env, scope, n)
  }

  // Values with everything in them.

  predicate FullAttr(f: PyField, a: Attr) {
    if f.isRepeated then a.Items? && a.items != []
    else if f.isMap then a.Entries? && a.entries != map[]
    else a.Single?
  }

  predicate FullAttrs(t: PyType, attrs: map<string, Attr>)
    requires t.PyMessage?
  {
    forall f | f in t.fields && f.oneof.None? :: f.name in attrs && FullAttr(f, attrs[f.name])
  }

  predicate BareAttrs(t: PyType, attrs: map<string, Attr>)
    requires t.PyMessage?
  {
    && (forall f | f in t.fields && UsesUnset(f) :: f.name in attrs && attrs[f.name].Unset?)
    && (forall o | o in t.oneofs :: o.name in attrs && attrs[o.name].Unset?)
  }

  predicate HoldsVariant(o: PyOneof, v: PyVariant, attrs: map<string, Attr>) {
    o.name in attrs && attrs[o.name].Chosen? && attrs[o.name].wrapper == v.wrapper
  }

  ghost predicate HasFull(env: Env, t: PyType)
    requires t.PyMessage?
  {
    exists attrs, depth: nat :: FitsMessage(env, t, attrs, depth) && FullAttrs(t, attrs)
  }

  ghost predicate HasBare(env: Env, t: PyType)
    requires t.PyMessage?
  {
    exists attrs, depth: nat :: FitsMessage(env, t, attrs, depth) && BareAttrs(t, attrs)
  }

  ghost predicate HasVariant(env: Env, t: PyType, o: PyOneof, v: PyVariant)
    requires t.PyMessage?
  {
    exists attrs, depth: nat :: FitsMessage(env, t, attrs, depth) && HoldsVariant(o, v, attrs)
  }

  /** The type has well-typed values of all kinds: a full one, a bare one, and one for each oneof member. */
  ghost predicate Sampled(env: Env, t: PyType)
    requires t.PyMessage?
  {
    HasFull(env, t) && HasBare(env, t) && forall o, v | o in t.oneofs && v in o.variants :: HasVariant(env, t, o, v)
  }

  ghost predicate AllSampled(env: Env, names: set<string>)
    requires names <= Messages(env)
  {
    forall n | n in names :: Sampled(env, env[n])
  }

  // What one value that comes back says about names.

  lemma CameBack(env: Env, scope: Scope, n: string, attrs: map<string, Attr>, depth: nat) returns (fields: Fields)
    requires EnvOk(env) && IsMessage(env, n) && ComesBack(env, scope, n) && FitsMessage(env, env[n], attrs, depth)
    ensures WritesMessage(env, scope, env[n], attrs, depth) && ReadsMessage(env, scope, env[n], fields, depth)
    ensures Gives(env, env[n], fields, attrs, depth)
  {
    var ref, v := RefTo(env, n), Object(n, attrs);
    assert Fits(env, ref, v, depth + 1);
    RunRoundTrip(env, scope, ref, v, depth + 1);
    RoundTrip(env, ref, v, depth + 1);
    fields := ToRef(env, ref, v, depth + 1).value.fields;
    MessageGives(env, env[n], fields, depth);
  }

  lemma FullFieldReads(env: Env, scope: Scope, locals: set<string>, f: PyField, a: Attr, fields: Fields, depth: nat)
    requires f.oneof.None? && FullAttr(f, a) && FromField(env, f, fields, depth) == Some(a)
    requires ReadsField(env, scope, locals, f, fields, depth) && (UsesUnset(f) ==> UnsetKept(scope))
    ensures QuietField(scope, locals, f)
  {
    assert f.isRepeated ==> GetItems(fields, f.name) != [];
    assert !f.isRepeated && f.isMap && f.mapValue.Some? ==> GetEntries(fields, f.name) != map[];
    if f.isRepeated {
      var pb := GetItems(fields, f.name)[0];
      assert ReadsRef(env, scope, locals, f.typ, pb, depth);
    } else if f.isMap && f.mapValue.Some? {
      var k :| k in GetEntries(fields, f.name);
      assert ReadsRef(env, scope, locals, f.mapValue.value, GetEntries(fields, f.name)[k], depth);
    }
  }

  lemma FullFieldWrites(env: Env, scope: Scope, f: PyField, a: Attr, depth: nat)
    requires f.oneof.None? && FullAttr(f, a)
    requires WritesField(env, scope, f, a, depth) && (UsesUnset(f) ==> UnsetKept(scope))
    ensures FieldWritesQuietly(scope, f)
  {
    if f.isRepeated {
      assert WritesRef(env, scope, f.typ, a.items[0], depth);
    } else if f.isMap && f.mapValue.Some? {
      var k :| k in a.entries;
      assert WritesRef(env, scope, f.mapValue.value, a.entries[k], depth);
    }
  }

  lemma BareTells(env: Env, scope: Scope, n: string)
    requires EnvOk(env) && IsMessage(env, n) && ComesBack(env, scope, n) && HasBare(env, env[n])
    ensures scope.loads && VariablesApart(env[n].oneofs) && ClassCallable(scope, env[n])
    ensures env[n].oneofs != [] ==> UnsetKept(scope)
    ensures forall f | f in env[n].fields && UsesUnset(f) :: UnsetKept(scope)
  {
    var t := env[n];
    var attrs, depth: nat :| FitsMessage(env, t, attrs, depth) && BareAttrs(t, attrs);
    var fields := CameBack(env, scope, n, attrs, depth);
    if t.oneofs != [] {
      assert t.oneofs[0] in t.oneofs;
      assert WritesOneof(env, scope, t, t.oneofs[0], attrs[t.oneofs[0].name], depth);
    }
    forall f | f in t.fields && UsesUnset(f)
      ensures UnsetKept(scope)
    {
      assert WritesField(env, scope, f, attrs[f.name], depth);
    }
  }

  lemma FullTells(env: Env, scope: Scope, n: string)
    requires EnvOk(env) && IsMessage(env, n) && ComesBack(env, scope, n) && HasFull(env, env[n])
    requires forall f | f in env[n].fields && UsesUnset(f) :: UnsetKept(scope)
    ensures forall f | f in env[n].fields && f.oneof.None? ::
              QuietField(scope, LocalNames(env[n]), f) && FieldWritesQuietly(scope, f)
  {
    var t := env[n];
    var attrs, depth: nat :| FitsMessage(env, t, attrs, depth) && FullAttrs(t, attrs);
    var fields := CameBack(env, scope, n, attrs, depth);
    forall f | f in t.fields && f.oneof.None?
      ensures QuietField(scope, LocalNames(t), f) && FieldWritesQuietly(scope, f)
    {
      FullFieldReads(env, scope, LocalNames(t), f, attrs[f.name], fields, depth);
      FullFieldWrites(env, scope, f, attrs[f.name], depth);
    }
  }

  lemma VariantTells(env: Env, scope: Scope, n: string, o: PyOneof, v: PyVariant)
    requires EnvOk(env) && IsMessage(env, n) && ComesBack(env, scope, n) && HasVariant(env, env[n], o, v)
    requires o in env[n].oneofs && v in o.variants
    ensures QuietVariant(scope, env[n], o, v) && VariantWritesQuietly(scope, env[n], o, v)
  {
    var t := env[n];
    var attrs, depth: nat :| FitsMessage(env, t, attrs, depth) && HoldsVariant(o, v, attrs);
    var fields := CameBack(env, scope, n, attrs, depth);
    assert Shaped(t);
    MemberReads(env, scope, t, o, v, attrs[o.name], fields, depth);
    MemberWrites(env, scope, t, o, v, attrs[o.name], depth);
  }

  lemma MemberReads(env: Env, scope: Scope, t: PyType, o: PyOneof, v: PyVariant, a: Attr, fields: Fields, depth: nat)
    requires t.PyMessage? && VariantsShaped(o.variants) && v in o.variants && a.Chosen? && a.wrapper == v.wrapper
    requires FromOneof(env, o, fields, depth) == Some(a) && ReadsVariant(env, scope, t, o, fields, depth)
    ensures QuietVariant(scope, t, o, v)
  {
    MemberWas(env, o, v, fields, a, depth);
  }

  lemma MemberWrites(env: Env, scope: Scope, t: PyType, o: PyOneof, v: PyVariant, a: Attr, depth: nat)
    requires VariantsShaped(o.variants) && v in o.variants && a.Chosen? && a.wrapper == v.wrapper
    requires WritesOneof(env, scope, t, o, a, depth)
    ensures VariantWritesQuietly(scope, t, o, v)
  {
    VariantFound(o.variants, v);
  }

  lemma MemberWas(env: Env, o: PyOneof, v: PyVariant, fields: Fields, a: Attr, depth: nat)
    requires VariantsShaped(o.variants) && v in o.variants
    requires a.Chosen? && a.wrapper == v.wrapper && FromOneof(env, o, fields, depth) == Some(a)
    ensures WhichOneof(o.variants, fields) == Some(v) && v.name in fields && fields[v.name].PSingle?
  {
    WhichIn(o.variants, fields);
    var u := WhichOneof(o.variants, fields).value;
    VariantFound(o.variants, u);
    VariantFound(o.variants, v);
  }

  /**
   When message types hold no others and have values of all kinds, all their well-typed values
   come back exactly when all their names are harmless.
   */
  lemma ComeBackIffQuiet(env: Env, scope: Scope, names: set<string>)
    requires EnvOk(env) && ClosedTypes(env, names) && AllSampled(env, names)
    ensures AllComeBack(env, scope, names) <==> QuietTypes(env, scope, names)
  {
    if QuietTypes(env, scope, names) {
      forall n, v, depth: nat | n in names && Fits(env, RefTo(env, n), v, depth)
        ensures ThereAndBack(env, scope, RefTo(env, n), v, depth) == Some(v)
      {
        assert ReadsQuietly(scope, env[n]);
        QuietRoundTrip(env, scope, names, RefTo(env, n), v, depth);
      }
    }
    if AllComeBack(env, scope, names) {
      forall n | n in names
        ensures ReadsQuietly(scope, env[n]) && WritesQuietly(scope, env[n])
      {
        BareTells(env, scope, n);
        FullTells(env, scope, n);
        forall o, v | o in env[n].oneofs && v in o.variants {
          VariantTells(env, scope, n, o, v);
        }
      }
    }
  }

  // Which types have values of all kinds.

  /** An enum class that has members. */
  predicate Inhabited(env: Env, ref: TypeRef) {
    ref.EnumRef? ==>
      ref.fullName in env && env[ref.fullName].PyEnum? && exists v | v in env[ref.fullName].values :: !v.hidden
  }

  predicate EnumsInhabited(env: Env, t: PyType)
    requires t.PyMessage?
  {
    && (forall f | f in t.fields && f.oneof.None? ::
          (f.isRepeated || !f.isMap ==> Inhabited(env, f.typ)) && (f.mapValue.Some? ==> Inhabited(env, f.mapValue.value)))
    && (forall o, v | o in t.oneofs && v in o.variants :: Inhabited(env, v.typ))
  }

  lemma SampleValue(env: Env, names: set<string>, ref: TypeRef, base: nat) returns (v: Value)
    requires EnvOk(env) && AllReady(env, names, base) && RefWithin(names, ref) && Inhabited(env, ref)
    ensures Fits(env, ref, v, base)
  {
    match ref {
      case ScalarRef(s) => v := Plain(Leaf(s, 0));
      case EnumRef(n, _, _) =>
        var member :| member in env[n].values && !member.hidden;
        v := Member(n, member.number);
      case WellKnownRef(n, _) => v := WellKnownValue(n, 0);
      case MessageRef(n, _, _) =>
        assert Ready(env, n, base);
        FromFits(env, ref, PbMessage(n, map[]), base);
        v := FromRef(env, ref, PbMessage(n, map[]), base).value;
    }
  }

  lemma FullSample(env: Env, names: set<string>, f: PyField, base: nat) returns (a: Attr)
    requires EnvOk(env) && AllReady(env, names, base) && FieldWithin(names, f) && (f.isMap ==> f.mapValue.Some?)
    requires f.isRepeated || !f.isMap ==> Inhabited(env, f.typ)
    requires f.mapValue.Some? ==> Inhabited(env, f.mapValue.value)
    ensures FitsAttr(env, f, a, base) && FullAttr(f, a)
  {
    if f.isRepeated {
      var v := SampleValue(env, names, f.typ, base);
      a := Items([v]);
    } else if f.isMap {
      var v := SampleValue(env, names, f.mapValue.value, base);
      a := Entries(map[Leaf(f.mapKey, 0) := v]);
      assert Leaf(f.mapKey, 0) in a.entries;
    } else {
      var v := SampleValue(env, names, f.typ, base);
      a := Single(v);
    }
  }

  /** What from_pb makes of an empty message has everything left out that can be. */
  lemma BlankSample(env: Env, names: set<string>, n: string, base: nat) returns (attrs: map<string, Attr>)
    requires EnvOk(env) && AllReady(env, names, base) && n in names
    ensures IsMessage(env, n) && FitsMessage(env, env[n], attrs, base) && BareAttrs(env[n], attrs)
  {
    assert Ready(env, n, base);
    ReadyDeeper(env, n, base);
    var ref, pb := RefTo(env, n), PbMessage(n, map[]);
    FromFits(env, ref, pb, base + 1);
    attrs := FromRef(env, ref, pb, base + 1).value.attrs;
    MessageGives(env, env[n], map[], base);
    forall o | o in env[n].oneofs
      ensures attrs[o.name].Unset?
    {
      NoMemberIsSet(o.variants, map[]);
    }
  }

  lemma ReplaceField(env: Env, t: PyType, attrs: map<string, Attr>, f: PyField, a: Attr, depth: nat)
    requires t.PyMessage? && Shaped(t) && FitsMessage(env, t, attrs, depth) && f in t.fields && f.oneof.None?
    requires FitsAttr(env, f, a, depth)
    ensures FitsMessage(env, t, attrs[f.name := a], depth)
  {
    var after := attrs[f.name := a];
    assert f.name in PlainNames(t.fields);
    forall g | g in t.fields && g.oneof.None? && g.name in after
      ensures FitsAttr(env, g, after[g.name], depth)
    {
      if g.name == f.name {
        var i :| 0 <= i < |t.fields| && t.fields[i] == f;
        var j :| 0 <= j < |t.fields| && t.fields[j] == g;
      }
    }
    forall o | o in t.oneofs && o.name in after
      ensures FitsOneof(env, o, after[o.name], depth)
    {
      assert o.name in OneofNames(t.oneofs);
    }
  }

  lemma {:induction false} FilledSample(env: Env, names: set<string>, n: string, k: nat, base: nat) returns (attrs: map<string, Attr>)
    requires EnvOk(env) && ClosedTypes(env, names) && AllReady(env, names, base) && n in names && k <= |env[n].fields|
    requires EnumsInhabited(env, env[n])
    ensures FitsMessage(env, env[n], attrs, base)
    ensures forall i | 0 <= i < k && env[n].fields[i].oneof.None? ::
              env[n].fields[i].name in attrs && FullAttr(env[n].fields[i], attrs[env[n].fields[i].name])
    decreases k
  {
    if k == 0 {
      attrs := BlankSample(env, names, n, base);
    } else {
      var t, f := env[n], env[n].fields[k - 1];
      attrs := FilledSample(env, names, n, k - 1, base);
      if f.oneof.None? {
        assert FieldWithin(names, f) by { assert HoldsOnly(names, t); }
        var a := FullSample(env, names, f, base);
        ReplaceField(env, t, attrs, f, a, base);
        attrs := attrs[f.name := a];
      }
    }
  }

  lemma VariantSample(env: Env, names: set<string>, n: string, o: PyOneof, v: PyVariant, base: nat)
    requires EnvOk(env) && ClosedTypes(env, names) && AllReady(env, names, base) && n in names
    requires EnumsInhabited(env, env[n]) && o in env[n].oneofs && v in o.variants
    ensures HasVariant(env, env[n], o, v)
  {
    var t := env[n];
    var blank := BlankSample(env, names, n, base);
    assert HoldsOnly(names, t) && Shaped(t);
    var held := SampleValue(env, names, v.typ, base);
    var attrs := blank[o.name := Chosen(v.wrapper, held)];
    VariantFound(o.variants, v);
    assert o.name in OneofNames(t.oneofs);
    forall p | p in t.oneofs && p.name in attrs
      ensures FitsOneof(env, p, attrs[p.name], base)
    {
      if p.name == o.name {
        var i :| 0 <= i < |t.oneofs| && t.oneofs[i] == o;
        var j :| 0 <= j < |t.oneofs| && t.oneofs[j] == p;
      }
    }
    forall f | f in t.fields && f.oneof.None? && f.name in attrs
      ensures FitsAttr(env, f, attrs[f.name], base)
    {
      assert f.name in PlainNames(t.fields);
    }
    assert FitsMessage(env, t, attrs, base) && HoldsVariant(o, v, attrs);
  }

  /**
   Message types that hold no others have values of all kinds when none of them requires
   itself, the enums that they require show their zeroes, and all their enums have members.
   */
  lemma SamplesExist(env: Env, names: set<string>)
    requires EnvOk(env) && ClosedTypes(env, names) && AllZeroesVisible(env, names) && TrapFree(env, names)
    requires forall n | n in names :: EnumsInhabited(env, env[n])
    ensures AllSampled(env, names)
  {
    ClosedRequireOnly(env, names);
    TrapFreeIsReady(env, names);
    forall n | n in names
      ensures Sampled(env, env[n])
    {
      var bare := BlankSample(env, names, n, |names|);
      var full := FilledSample(env, names, n, |env[n].fields|, |names|);
      assert FullAttrs(env[n], full);
      forall o, v | o in env[n].oneofs && v in o.variants {
        VariantSample(env, names, n, o, v, |names|);
      }
    }
  }
}
