/** The mappers undo each other: first from dataclasses and back. */
module MapperRoundTrip {
  import opened Wrappers
  import opened PythonTypes
  import opened PythonMappers

  // What descriptors and the collector's name checks guarantee of a type.

  predicate FieldsShaped(fs: seq<PyField>) {
    && (forall i, j | 0 <= i < j < |fs| :: fs[i].name != fs[j].name)
    && (forall f | f in fs && f.isMap :: f.mapValue.Some?)
  }

  predicate VariantsShaped(vs: seq<PyVariant>) {
    forall i, j | 0 <= i < j < |vs| :: vs[i].name != vs[j].name && vs[i].wrapper != vs[j].wrapper
  }

  predicate OneofsShaped(os: seq<PyOneof>) {
    && (forall o | o in os :: VariantsShaped(o.variants))
    && (forall i, j | 0 <= i < j < |os| ::
          os[i].name != os[j].name && VariantNames(os[i].variants) !! VariantNames(os[j].variants))
  }

  /** Names of the fields outside oneofs. */
  function PlainNames(fs: seq<PyField>): set<string> {
    set f | f in fs && f.oneof.None? :: f.name
  }

  lemma NameIsNew(fs: seq<PyField>, k: nat)
    requires FieldsShaped(fs) && k < |fs|
    ensures fs[k].name !in PlainNames(fs[..k])
  {
  }

  function OneofNames(os: seq<PyOneof>): set<string> {
    set o | o in os :: o.name
  }

  predicate Shaped(t: PyType) {
    t.PyMessage? ==>
      && FieldsShaped(t.fields) && OneofsShaped(t.oneofs)
      && PlainNames(t.fields) !! OneofNames(t.oneofs)
      && (forall o | o in t.oneofs :: PlainNames(t.fields) !! VariantNames(o.variants))
  }

  predicate EnvOk(env: Env) {
    forall n | n in env :: Shaped(env[n])
  }

  // Well-typed dataclass values, nested no deeper than `depth`.

  predicate Fits(env: Env, ref: TypeRef, v: Value, depth: nat)
    decreases depth, 0
  {
    match ref
    case ScalarRef(s) => v.Plain? && v.leaf.scalar == s
    case EnumRef(n, _, _) => v.Member? && v.enumName == n && IsMember(env, n, v.number)
    case WellKnownRef(n, _) => v.WellKnownValue? && v.typeName == n
    case MessageRef(n, _, _) =>
      depth > 0 && v.Object? && v.name == n && IsMessage(env, n) && FitsMessage(env, env[n], v.attrs, depth - 1)
  }

  predicate FitsAttr(env: Env, f: PyField, a: Attr, depth: nat)
    decreases depth, 1
  {
    if f.isRepeated then a.Items? && forall v | v in a.items :: Fits(env, f.typ, v, depth)
    else if f.isMap then
      a.Entries? && f.mapValue.Some? && forall k | k in a.entries :: Fits(env, f.mapValue.value, a.entries[k], depth)
    else (UsesUnset(f) && a.Unset?) || (a.Single? && Fits(env, f.typ, a.value, depth))
  }

  predicate FitsOneof(env: Env, o: PyOneof, a: Attr, depth: nat)
    decreases depth, 1
  {
    a.Unset?
    || (a.Chosen? && VariantOf(o.variants, a.wrapper).Some? && Fits(env, VariantOf(o.variants, a.wrapper).value.typ, a.value, depth))
  }

  predicate FitsMessage(env: Env, t: PyType, attrs: map<string, Attr>, depth: nat)
    requires t.PyMessage?
    decreases depth, 2
  {
    && attrs.Keys == PlainNames(t.fields) + OneofNames(t.oneofs)
    && (forall f | f in t.fields && f.oneof.None? && f.name in attrs :: FitsAttr(env, f, attrs[f.name], depth))
    && (forall o | o in t.oneofs && o.name in attrs :: FitsOneof(env, o, attrs[o.name], depth))
  }

  // Reading looks at nothing but the field's own entry.

  predicate SameAt(x: Fields, y: Fields, name: string) {
    (name in x <==> name in y) && (name in x ==> x[name] == y[name])
  }

  lemma FromFieldLocal(env: Env, f: PyField, x: Fields, y: Fields, depth: nat)
    requires SameAt(x, y, f.name)
    ensures FromField(env, f, x, depth) == FromField(env, f, y, depth)
  {
  }

  lemma {:induction false} WhichLocal(variants: seq<PyVariant>, x: Fields, y: Fields)
    requires forall n | n in VariantNames(variants) :: SameAt(x, y, n)
    ensures WhichOneof(variants, x) == WhichOneof(variants, y)
    ensures WhichOneof(variants, x).Some? ==> WhichOneof(variants, x).value in variants
  {
    if variants != [] {
      assert variants[0].name in VariantNames(variants);
      assert VariantNames(variants[1..]) <= VariantNames(variants);
      WhichLocal(variants[1..], x, y);
    }
  }

  lemma FromOneofLocal(env: Env, o: PyOneof, x: Fields, y: Fields, depth: nat)
    requires forall n | n in VariantNames(o.variants) :: SameAt(x, y, n)
    ensures FromOneof(env, o, x, depth) == FromOneof(env, o, y, depth)
  {
    WhichLocal(o.variants, x, y);
    if WhichOneof(o.variants, x).Some? {
      assert WhichOneof(o.variants, x).value.name in VariantNames(o.variants);
    }
  }

  // The round trip, from single references up to whole messages.

  /** What to_pb makes of a well-typed value, from_pb turns back into that value. */
  lemma {:induction false} RoundTrip(env: Env, ref: TypeRef, v: Value, depth: nat)
    requires EnvOk(env) && Fits(env, ref, v, depth)
    ensures ToRef(env, ref, v, depth).Some?
    ensures FromRef(env, ref, ToRef(env, ref, v, depth).value, depth) == Some(v)
    decreases depth, 0
  {
    if ref.MessageRef? {
      MessageTrip(env, env[ref.fullName], v.attrs, depth - 1);
    }
  }

  lemma {:induction false} ItemsTrip(env: Env, ref: TypeRef, items: seq<Value>, depth: nat)
    requires EnvOk(env) && forall v | v in items :: Fits(env, ref, v, depth)
    ensures ToItems(env, ref, items, depth).Some?
    ensures FromItems(env, ref, ToItems(env, ref, items, depth).value, depth) == Some(items)
    ensures |ToItems(env, ref, items, depth).value| == |items|
    decreases depth, 1, |items|
  {
    if items != [] {
      var front, last := items[..|items| - 1], items[|items| - 1];
      ItemsTrip(env, ref, front, depth);
      RoundTrip(env, ref, last, depth);
      ToItemsStep(env, ref, items, depth);
      FromItemsStep(env, ref, ToItems(env, ref, front, depth).value, ToRef(env, ref, last, depth).value, depth);
      assert items == front + [last];
    }
  }

  lemma ToItemsStep(env: Env, ref: TypeRef, items: seq<Value>, depth: nat)
    requires items != []
    requires ToItems(env, ref, items[..|items| - 1], depth).Some? && ToRef(env, ref, items[|items| - 1], depth).Some?
    ensures ToItems(env, ref, items, depth) ==
              Some(ToItems(env, ref, items[..|items| - 1], depth).value + [ToRef(env, ref, items[|items| - 1], depth).value])
  {
  }

  lemma FromItemsStep(env: Env, ref: TypeRef, front: seq<Pb>, last: Pb, depth: nat)
    requires FromItems(env, ref, front, depth).Some? && FromRef(env, ref, last, depth).Some?
    ensures FromItems(env, ref, front + [last], depth) ==
              Some(FromItems(env, ref, front, depth).value + [FromRef(env, ref, last, depth).value])
  {
    assert (front + [last])[..|front|] == front;
  }

  lemma EntriesTrip(env: Env, ref: TypeRef, entries: map<Leaf, Value>, depth: nat)
    requires EnvOk(env) && forall k | k in entries :: Fits(env, ref, entries[k], depth)
    ensures ToEntries(env, ref, entries, depth).Some?
    ensures FromEntries(env, ref, ToEntries(env, ref, entries, depth).value, depth) == Some(entries)
    ensures entries == map[] <==> ToEntries(env, ref, entries, depth).value == map[]
    decreases depth, 1
  {
    forall k | k in entries
      ensures ToRef(env, ref, entries[k], depth).Some?
      ensures FromRef(env, ref, ToRef(env, ref, entries[k], depth).value, depth) == Some(entries[k])
    {
      RoundTrip(env, ref, entries[k], depth);
    }
    var pbs := ToEntries(env, ref, entries, depth).value;
    assert pbs.Keys == entries.Keys;
    assert FromEntries(env, ref, pbs, depth).Some?;
    assert FromEntries(env, ref, pbs, depth).value == entries;
  }

  lemma DefaultReads(env: Env, f: PyField, fields: Fields, v: Value, pb: Pb, depth: nat)
    requires f.oneof.None? && !f.isRepeated && !f.isMap && f.name !in fields
    requires !f.hasPresence && IsScalarDefault(pb)
    requires ToRef(env, f.typ, v, depth) == Some(pb) && FromRef(env, f.typ, pb, depth) == Some(v)
    ensures FromField(env, f, fields, depth) == Some(Single(v))
  {
    assert pb == Default(f.typ);
  }

  /** An assignment touches its own field only, and reading that field gives the attribute back. */
  lemma FieldTrip(env: Env, f: PyField, a: Attr, fields: Fields, depth: nat)
    requires EnvOk(env) && f.oneof.None? && FitsAttr(env, f, a, depth) && f.name !in fields
    ensures ToField(env, f, a, fields, depth).Some?
    ensures FromField(env, f, ToField(env, f, a, fields, depth).value, depth) == Some(a)
    ensures forall n | n != f.name :: SameAt(ToField(env, f, a, fields, depth).value, fields, n)
    decreases depth, 2
  {
    if f.isRepeated {
      ItemsTrip(env, f.typ, a.items, depth);
    } else if f.isMap {
      EntriesTrip(env, f.mapValue.value, a.entries, depth);
    } else if a.Single? {
      RoundTrip(env, f.typ, a.value, depth);
      var pb := ToRef(env, f.typ, a.value, depth).value;
      if !f.hasPresence && IsScalarDefault(pb) {
        DefaultReads(env, f, fields - {f.name}, a.value, pb, depth);
      }
    }
  }

  /** Every field assigned so far reads back as its attribute, and no other entry exists. */
  ghost predicate ReadsBack(env: Env, fs: seq<PyField>, attrs: map<string, Attr>, fields: Fields, depth: nat) {
    && (forall f | f in fs && f.oneof.None? :: f.name in attrs && FromField(env, f, fields, depth) == Some(attrs[f.name]))
    && fields.Keys <= PlainNames(fs)
  }

  lemma {:induction false} FieldsTrip(env: Env, t: PyType, attrs: map<string, Attr>, k: nat, depth: nat)
    requires EnvOk(env) && t.PyMessage? && Shaped(t) && FitsMessage(env, t, attrs, depth) && k <= |t.fields|
    ensures ToFields(env, t.fields[..k], attrs, depth).Some?
    ensures ReadsBack(env, t.fields[..k], attrs, ToFields(env, t.fields[..k], attrs, depth).value, depth)
    decreases depth, 3, k
  {
    if k > 0 {
      FieldsTrip(env, t, attrs, k - 1, depth);
      var f := t.fields[k - 1];
      ToFieldsStep(env, t.fields, attrs, k, depth);
      var before := ToFields(env, t.fields[..k - 1], attrs, depth).value;
      if f.oneof.None? {
        assert f.name in PlainNames(t.fields);
        NameIsNew(t.fields, k - 1);
        FieldTrip(env, f, attrs[f.name], before, depth);
        ReadsBackStep(env, t.fields, attrs, k, before, ToField(env, f, attrs[f.name], before, depth).value, depth);
      } else {
        ReadsBackSkip(env, t.fields, attrs, k, before, depth);
      }
    }
  }

  lemma ToFieldsStep(env: Env, fs: seq<PyField>, attrs: map<string, Attr>, k: nat, depth: nat)
    requires 0 < k <= |fs| && ToFields(env, fs[..k - 1], attrs, depth).Some?
    ensures var f, before := fs[k - 1], ToFields(env, fs[..k - 1], attrs, depth).value;
            ToFields(env, fs[..k], attrs, depth) ==
              if f.oneof.Some? then Some(before)
              else if f.name !in attrs then None
              else ToField(env, f, attrs[f.name], before, depth)
  {
    assert fs[..k][..k - 1] == fs[..k - 1];
  }

  lemma ReadsBackSkip(env: Env, fs: seq<PyField>, attrs: map<string, Attr>, k: nat, fields: Fields, depth: nat)
    requires 0 < k <= |fs| && fs[k - 1].oneof.Some? && ReadsBack(env, fs[..k - 1], attrs, fields, depth)
    ensures ReadsBack(env, fs[..k], attrs, fields, depth)
  {
    assert fs[..k] == fs[..k - 1] + [fs[k - 1]];
    assert PlainNames(fs[..k]) == PlainNames(fs[..k - 1]);
  }

  lemma ReadsBackStep(env: Env, fs: seq<PyField>, attrs: map<string, Attr>, k: nat, before: Fields, after: Fields, depth: nat)
    requires FieldsShaped(fs) && 0 < k <= |fs| && fs[k - 1].oneof.None? && fs[k - 1].name in attrs
    requires ReadsBack(env, fs[..k - 1], attrs, before, depth)
    requires FromField(env, fs[k - 1], after, depth) == Some(attrs[fs[k - 1].name])
    requires forall n | n != fs[k - 1].name :: SameAt(after, before, n)
    ensures ReadsBack(env, fs[..k], attrs, after, depth)
  {
    forall f | f in fs[..k] && f.oneof.None?
      ensures f.name in attrs && FromField(env, f, after, depth) == Some(attrs[f.name])
    {
      var i :| 0 <= i < k && fs[i] == f;
      if i < k - 1 {
        assert f in fs[..k - 1];
        FromFieldLocal(env, f, after, before, depth);
      }
    }
    forall n | n in after
      ensures n in PlainNames(fs[..k])
    {
      if n == fs[k - 1].name {
        assert fs[k - 1] in fs[..k];
      } else {
        assert SameAt(after, before, n);
        var f :| f in fs[..k - 1] && f.oneof.None? && f.name == n;
        assert f in fs[..k];
      }
    }
  }

  lemma {:induction false} VariantFound(variants: seq<PyVariant>, v: PyVariant)
    requires VariantsShaped(variants) && v in variants
    ensures VariantOf(variants, v.wrapper) == Some(v)
  {
    if v != variants[0] {
      var i :| 0 <= i < |variants| && variants[i] == v;
      VariantFound(variants[1..], v);
    }
  }

  lemma {:induction false} VariantOfIn(variants: seq<PyVariant>, wrapper: string)
    ensures VariantOf(variants, wrapper).Some? ==>
              VariantOf(variants, wrapper).value in variants && VariantOf(variants, wrapper).value.wrapper == wrapper
  {
    if variants != [] {
      VariantOfIn(variants[1..], wrapper);
    }
  }

  lemma {:induction false} OnlyMemberIsSet(variants: seq<PyVariant>, v: PyVariant, fields: Fields)
    requires VariantsShaped(variants) && v in variants && v.name in fields
    requires forall u | u in variants && u.name in fields :: u.name == v.name
    ensures WhichOneof(variants, fields) == Some(v)
  {
    if v == variants[0] {
    } else {
      var i :| 0 <= i < |variants| && variants[i] == v;
      assert variants[0].name !in fields;
      OnlyMemberIsSet(variants[1..], v, fields);
    }
  }

  lemma {:induction false} NoMemberIsSet(variants: seq<PyVariant>, fields: Fields)
    requires VariantNames(variants) !! fields.Keys
    ensures WhichOneof(variants, fields) == None
  {
    if variants != [] {
      assert variants[0].name in VariantNames(variants);
      assert VariantNames(variants[1..]) <= VariantNames(variants);
      NoMemberIsSet(variants[1..], fields);
    }
  }

  lemma OneofTrip(env: Env, o: PyOneof, a: Attr, fields: Fields, depth: nat)
    requires EnvOk(env) && VariantsShaped(o.variants) && FitsOneof(env, o, a, depth)
    requires VariantNames(o.variants) !! fields.Keys
    ensures ToOneof(env, o, a, fields, depth).Some?
    ensures FromOneof(env, o, ToOneof(env, o, a, fields, depth).value, depth) == Some(a)
    ensures forall n | n !in VariantNames(o.variants) :: SameAt(ToOneof(env, o, a, fields, depth).value, fields, n)
    decreases depth, 2
  {
    if a.Unset? {
      NoMemberIsSet(o.variants, fields);
    } else {
      VariantOfIn(o.variants, a.wrapper);
      var v := VariantOf(o.variants, a.wrapper).value;
      RoundTrip(env, v.typ, a.value, depth);
      var after := ToOneof(env, o, a, fields, depth).value;
      assert v.name in VariantNames(o.variants);
      forall u | u in o.variants && u.name in after
        ensures u.name == v.name
      {
        assert u.name in VariantNames(o.variants);
      }
      OnlyMemberIsSet(o.variants, v, after);
    }
  }

  /** The first `k` oneofs read back, the others have no member set, and all else is as it was. */
  ghost predicate OneofsReadBack(env: Env, os: seq<PyOneof>, attrs: map<string, Attr>, k: nat, before: Fields, after: Fields, depth: nat)
    requires k <= |os|
  {
    && (forall i | 0 <= i < k :: os[i].name in attrs && FromOneof(env, os[i], after, depth) == Some(attrs[os[i].name]))
    && (forall n :: (forall i | 0 <= i < k :: n !in VariantNames(os[i].variants)) ==> SameAt(after, before, n))
  }

  lemma ToOneofsStep(env: Env, os: seq<PyOneof>, attrs: map<string, Attr>, start: Fields, k: nat, depth: nat)
    requires 0 < k <= |os| && os[k - 1].name in attrs && ToOneofs(env, os[..k - 1], attrs, start, depth).Some?
    ensures ToOneofs(env, os[..k], attrs, start, depth)
         == ToOneof(env, os[k - 1], attrs[os[k - 1].name], ToOneofs(env, os[..k - 1], attrs, start, depth).value, depth)
  {
    assert os[..k][..k - 1] == os[..k - 1];
  }

  lemma {:induction false} OneofsTrip(env: Env, t: PyType, attrs: map<string, Attr>, fields: Fields, k: nat, depth: nat)
    requires EnvOk(env) && t.PyMessage? && Shaped(t) && FitsMessage(env, t, attrs, depth) && k <= |t.oneofs|
    requires fields.Keys <= PlainNames(t.fields)
    ensures ToOneofs(env, t.oneofs[..k], attrs, fields, depth).Some?
    ensures OneofsReadBack(env, t.oneofs, attrs, k, fields, ToOneofs(env, t.oneofs[..k], attrs, fields, depth).value, depth)
    decreases depth, 3, k
  {
    if k > 0 {
      OneofsTrip(env, t, attrs, fields, k - 1, depth);
      var o := t.oneofs[k - 1];
      var between := ToOneofs(env, t.oneofs[..k - 1], attrs, fields, depth).value;
      assert o in t.oneofs && o.name in OneofNames(t.oneofs);
      ToOneofsStep(env, t.oneofs, attrs, fields, k, depth);
      NoneSetYet(env, t, attrs, fields, between, k - 1, depth);
      OneofTrip(env, o, attrs[o.name], between, depth);
      OneofsReadBackStep(env, t.oneofs, attrs, k, fields, between, ToOneof(env, o, attrs[o.name], between, depth).value, depth);
    }
  }

  /** Before its turn no member of a oneof is set. */
  lemma NoneSetYet(env: Env, t: PyType, attrs: map<string, Attr>, fields: Fields, between: Fields, k: nat, depth: nat)
    requires t.PyMessage? && Shaped(t) && k < |t.oneofs| && fields.Keys <= PlainNames(t.fields)
    requires OneofsReadBack(env, t.oneofs, attrs, k, fields, between, depth)
    ensures VariantNames(t.oneofs[k].variants) !! between.Keys
  {
    assert t.oneofs[k] in t.oneofs;
    forall n | n in VariantNames(t.oneofs[k].variants)
      ensures n !in between
    {
      assert forall i | 0 <= i < k :: VariantNames(t.oneofs[i].variants) !! VariantNames(t.oneofs[k].variants);
      assert SameAt(between, fields, n);
    }
  }

  lemma OneofsReadBackStep(env: Env, os: seq<PyOneof>, attrs: map<string, Attr>, k: nat,
                           before: Fields, between: Fields, after: Fields, depth: nat)
    requires OneofsShaped(os) && 0 < k <= |os| && os[k - 1].name in attrs
    requires OneofsReadBack(env, os, attrs, k - 1, before, between, depth)
    requires FromOneof(env, os[k - 1], after, depth) == Some(attrs[os[k - 1].name])
    requires forall n | n !in VariantNames(os[k - 1].variants) :: SameAt(after, between, n)
    ensures OneofsReadBack(env, os, attrs, k, before, after, depth)
  {
    forall i | 0 <= i < k - 1
      ensures FromOneof(env, os[i], after, depth) == Some(attrs[os[i].name])
    {
      assert VariantNames(os[i].variants) !! VariantNames(os[k - 1].variants);
      FromOneofLocal(env, os[i], after, between, depth);
    }
    forall n | forall i | 0 <= i < k :: n !in VariantNames(os[i].variants)
      ensures SameAt(after, before, n)
    {
      assert n !in VariantNames(os[k - 1].variants);
      assert SameAt(after, between, n) && SameAt(between, before, n);
    }
  }

  // Reading everything back gives exactly the attributes.

  function Only(attrs: map<string, Attr>, names: set<string>): map<string, Attr> {
    map n | n in attrs && n in names :: attrs[n]
  }

  lemma OnlyStep(attrs: map<string, Attr>, names: set<string>, name: string)
    requires name in attrs
    ensures Only(attrs, names + {name}) == Only(attrs, names)[name := attrs[name]]
  {
  }

  lemma {:induction false} FieldsRead(env: Env, fs: seq<PyField>, attrs: map<string, Attr>, fields: Fields, depth: nat)
    requires forall f | f in fs && f.oneof.None? :: f.name in attrs && FromField(env, f, fields, depth) == Some(attrs[f.name])
    ensures FromFields(env, fs, fields, depth) == Some(Only(attrs, PlainNames(fs)))
  {
    if fs != [] {
      var front, f := fs[..|fs| - 1], fs[|fs| - 1];
      FieldsRead(env, front, attrs, fields, depth);
      assert fs == front + [f];
      if f.oneof.Some? {
        assert PlainNames(fs) == PlainNames(front);
      } else {
        assert PlainNames(fs) == PlainNames(front) + {f.name};
        OnlyStep(attrs, PlainNames(front), f.name);
      }
    }
  }

  lemma {:induction false} OneofsRead(env: Env, os: seq<PyOneof>, attrs: map<string, Attr>, names: set<string>, fields: Fields, depth: nat)
    requires forall o | o in os :: o.name in attrs && FromOneof(env, o, fields, depth) == Some(attrs[o.name])
    ensures FromOneofs(env, os, fields, Only(attrs, names), depth) == Some(Only(attrs, names + OneofNames(os)))
  {
    if os == [] {
      assert names + OneofNames(os) == names;
    } else {
      var front, o := os[..|os| - 1], os[|os| - 1];
      OneofsRead(env, front, attrs, names, fields, depth);
      assert OneofNames(os) == OneofNames(front) + {o.name} by {
        assert os == front + [o];
      }
      OnlyStep(attrs, names + OneofNames(front), o.name);
      assert names + OneofNames(os) == names + OneofNames(front) + {o.name};
    }
  }

  lemma FieldsStillRead(env: Env, t: PyType, attrs: map<string, Attr>, before: Fields, after: Fields, depth: nat)
    requires t.PyMessage? && Shaped(t) && ReadsBack(env, t.fields, attrs, before, depth)
    requires OneofsReadBack(env, t.oneofs, attrs, |t.oneofs|, before, after, depth)
    ensures forall f | f in t.fields && f.oneof.None? :: f.name in attrs && FromField(env, f, after, depth) == Some(attrs[f.name])
  {
    forall f | f in t.fields && f.oneof.None?
      ensures f.name in attrs && FromField(env, f, after, depth) == Some(attrs[f.name])
    {
      assert f.name in PlainNames(t.fields);
      assert SameAt(after, before, f.name);
      FromFieldLocal(env, f, after, before, depth);
    }
  }

  lemma {:induction false} MessageTrip(env: Env, t: PyType, attrs: map<string, Attr>, depth: nat)
    requires EnvOk(env) && t.PyMessage? && Shaped(t) && FitsMessage(env, t, attrs, depth)
    ensures ToMessage(env, t, attrs, depth).Some? && ToMessage(env, t, attrs, depth).value.PbMessage?
    ensures ToMessage(env, t, attrs, depth).value.name == t.fullName
    ensures FromMessage(env, t, ToMessage(env, t, attrs, depth).value.fields, depth) == Some(Object(t.fullName, attrs))
    decreases depth, 4
  {
    assert t.fields[..|t.fields|] == t.fields && t.oneofs[..|t.oneofs|] == t.oneofs;
    FieldsTrip(env, t, attrs, |t.fields|, depth);
    var fields := ToFields(env, t.fields, attrs, depth).value;
    OneofsTrip(env, t, attrs, fields, |t.oneofs|, depth);
    var all := ToOneofs(env, t.oneofs, attrs, fields, depth).value;
    FieldsStillRead(env, t, attrs, fields, all, depth);
    FieldsRead(env, t.fields, attrs, all, depth);
    OneofsRead(env, t.oneofs, attrs, PlainNames(t.fields), all, depth);
    assert Only(attrs, PlainNames(t.fields) + OneofNames(t.oneofs)) == attrs;
  }
}
