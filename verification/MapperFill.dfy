/** The other way around: what a protobuf message is after from_pb and to_pb. */
module MapperFill {
  import opened Wrappers
  import opened PythonTypes
  import opened PythonMappers
  import opened MapperRoundTrip

  // Well-formed messages, nested no deeper than `height`, with visible enum numbers only.

  predicate Sound(env: Env, ref: TypeRef, pb: Pb, height: nat)
    decreases height, 0
  {
    match ref
    case ScalarRef(s) => pb.PbPlain? && pb.leaf.scalar == s
    case EnumRef(n, _, _) => pb.PbEnum? && IsMember(env, n, pb.number)
    case WellKnownRef(n, _) => pb.PbKnown? && pb.typeName == n
    case MessageRef(n, _, _) =>
      height > 0 && pb.PbMessage? && pb.name == n && IsMessage(env, n) && SoundMessage(env, env[n], pb.fields, height - 1)
  }

  predicate SoundPiece(env: Env, f: PyField, p: Piece, height: nat)
    decreases height, 1
  {
    if f.isRepeated then p.PItems? && p.items != [] && forall pb | pb in p.items :: Sound(env, f.typ, pb, height)
    else if f.isMap then
      p.PEntries? && p.entries != map[] && f.mapValue.Some?
      && forall k | k in p.entries :: Sound(env, f.mapValue.value, p.entries[k], height)
    else p.PSingle? && Sound(env, f.typ, p.value, height) && (f.hasPresence || !IsScalarDefault(p.value))
  }

  predicate SoundMember(env: Env, v: PyVariant, p: Piece, height: nat)
    decreases height, 1
  {
    p.PSingle? && Sound(env, v.typ, p.value, height)
  }

  /** At most one member of a oneof is set. */
  predicate OneMember(variants: seq<PyVariant>, fields: Fields) {
    forall u, v | u in variants && v in variants && u.name in fields && v.name in fields :: u.name == v.name
  }

  predicate SoundMessage(env: Env, t: PyType, fields: Fields, height: nat)
    requires t.PyMessage?
    decreases height, 2
  {
    && (forall f | f in t.fields && f.oneof.None? && f.name in fields :: SoundPiece(env, f, fields[f.name], height))
    && (forall o | o in t.oneofs :: OneMember(o.variants, fields))
    && (forall o, v | o in t.oneofs && v in o.variants && v.name in fields :: SoundMember(env, v, fields[v.name], height))
  }

  // The same message but for absent fields that a dataclass cannot leave out.

  predicate Filled(env: Env, ref: TypeRef, pb: Pb, full: Pb, depth: nat)
    decreases depth, 0
  {
    match ref
    case MessageRef(n, _, _) =>
      depth > 0 && pb.PbMessage? && full.PbMessage? && pb.name == n && full.name == n && IsMessage(env, n)
      && FilledMessage(env, env[n], pb.fields, full.fields, depth - 1)
    case _ => full == pb
  }

  /**
     What is there stays, item by item. What is absent stays absent, unless the dataclass
     field is neither optional nor free of presence: that one becomes its filled default.
   */
  predicate FilledField(env: Env, f: PyField, fields: Fields, full: Fields, depth: nat)
    decreases depth, 1
  {
    if f.isRepeated then
      var items, fulls := GetItems(fields, f.name), GetItems(full, f.name);
      |items| == |fulls| && forall i | 0 <= i < |items| :: Filled(env, f.typ, items[i], fulls[i], depth)
    else if f.isMap then
      var entries, fulls := GetEntries(fields, f.name), GetEntries(full, f.name);
      && entries.Keys == fulls.Keys && f.mapValue.Some?
      && forall k | k in entries :: Filled(env, f.mapValue.value, entries[k], fulls[k], depth)
    else if f.name in fields then
      f.name in full && fields[f.name].PSingle? && full[f.name].PSingle?
      && Filled(env, f.typ, fields[f.name].value, full[f.name].value, depth)
    else if UsesUnset(f) || (!f.hasPresence && IsScalarDefault(Default(f.typ))) then f.name !in full
    else f.name in full && full[f.name].PSingle? && Filled(env, f.typ, Default(f.typ), full[f.name].value, depth)
  }

  predicate FilledMember(env: Env, v: PyVariant, fields: Fields, full: Fields, depth: nat)
    decreases depth, 1
  {
    && (v.name in full <==> v.name in fields)
    && (v.name in fields ==>
          && fields[v.name].PSingle? && full[v.name].PSingle?
          && Filled(env, v.typ, fields[v.name].value, full[v.name].value, depth))
  }

  predicate FilledMessage(env: Env, t: PyType, fields: Fields, full: Fields, depth: nat)
    requires t.PyMessage?
    decreases depth, 2
  {
    && (forall f | f in t.fields && f.oneof.None? :: FilledField(env, f, fields, full, depth))
    && (forall o, v | o in t.oneofs && v in o.variants :: FilledMember(env, v, fields, full, depth))
  }

  // from_pb gives well-typed values.

  lemma {:induction false} FromFits(env: Env, ref: TypeRef, pb: Pb, depth: nat)
    requires EnvOk(env) && FromRef(env, ref, pb, depth).Some?
    ensures Fits(env, ref, FromRef(env, ref, pb, depth).value, depth)
    decreases depth, 0
  {
    if ref.MessageRef? {
      MessageFits(env, env[ref.fullName], pb.fields, depth - 1);
    }
  }

  lemma {:induction false} ItemsFit(env: Env, ref: TypeRef, items: seq<Pb>, depth: nat)
    requires EnvOk(env) && FromItems(env, ref, items, depth).Some?
    ensures forall v | v in FromItems(env, ref, items, depth).value :: Fits(env, ref, v, depth)
    ensures |FromItems(env, ref, items, depth).value| == |items|
    ensures forall i | 0 <= i < |items| :: FromRef(env, ref, items[i], depth) == Some(FromItems(env, ref, items, depth).value[i])
    decreases depth, 1, |items|
  {
    if items != [] {
      ItemsFit(env, ref, items[..|items| - 1], depth);
      FromFits(env, ref, items[|items| - 1], depth);
    }
  }

  lemma FieldFits(env: Env, f: PyField, fields: Fields, depth: nat)
    requires EnvOk(env) && f.oneof.None? && (f.isMap ==> f.mapValue.Some?) && FromField(env, f, fields, depth).Some?
    ensures FitsAttr(env, f, FromField(env, f, fields, depth).value, depth)
    decreases depth, 2
  {
    if f.isRepeated {
      ItemsFit(env, f.typ, GetItems(fields, f.name), depth);
    } else if f.isMap {
      var entries := GetEntries(fields, f.name);
      forall k | k in entries {
        FromFits(env, f.mapValue.value, entries[k], depth);
      }
    } else if !(UsesUnset(f) && f.name !in fields) {
      FromFits(env, f.typ, GetSingle(fields, f), depth);
    }
  }

  lemma OneofFits(env: Env, o: PyOneof, fields: Fields, depth: nat)
    requires EnvOk(env) && VariantsShaped(o.variants) && FromOneof(env, o, fields, depth).Some?
    ensures FitsOneof(env, o, FromOneof(env, o, fields, depth).value, depth)
    decreases depth, 2
  {
    var which := WhichOneof(o.variants, fields);
    if which.Some? {
      WhichLocal(o.variants, fields, fields);
      VariantFound(o.variants, which.value);
      FromFits(env, which.value.typ, fields[which.value.name].value, depth);
    }
  }

  ghost predicate GivesFields(env: Env, fs: seq<PyField>, fields: Fields, attrs: map<string, Attr>, depth: nat) {
    forall i | 0 <= i < |fs| && fs[i].oneof.None? ::
      fs[i].name in attrs && FromField(env, fs[i], fields, depth) == Some(attrs[fs[i].name])
  }

  lemma GivesFieldsStep(env: Env, fs: seq<PyField>, fields: Fields, before: map<string, Attr>, a: Attr, depth: nat)
    requires FieldsShaped(fs) && fs != [] && GivesFields(env, fs[..|fs| - 1], fields, before, depth)
    requires FromField(env, fs[|fs| - 1], fields, depth) == Some(a)
    ensures GivesFields(env, fs, fields, before[fs[|fs| - 1].name := a], depth)
  {
    forall i | 0 <= i < |fs| - 1 && fs[i].oneof.None?
      ensures fs[i].name in before && FromField(env, fs[i], fields, depth) == Some(before[fs[i].name])
      ensures fs[i].name != fs[|fs| - 1].name
    {
      assert fs[..|fs| - 1][i] == fs[i];
    }
  }

  lemma PlainNamesStep(fs: seq<PyField>)
    requires fs != []
    ensures PlainNames(fs) == PlainNames(fs[..|fs| - 1]) + if fs[|fs| - 1].oneof.None? then {fs[|fs| - 1].name} else {}
  {
    assert fs == fs[..|fs| - 1] + [fs[|fs| - 1]];
  }

  function Extended<K, V>(m: Option<map<K, V>>, k: K, x: Option<V>): Option<map<K, V>> {
    if m.Some? && x.Some? then Some(m.value[k := x.value]) else None
  }

  lemma FromFieldsStep(env: Env, fs: seq<PyField>, fields: Fields, depth: nat)
    requires fs != []
    ensures FromFields(env, fs, fields, depth) ==
              var front := FromFields(env, fs[..|fs| - 1], fields, depth);
              if fs[|fs| - 1].oneof.Some? then front
              else Extended(front, fs[|fs| - 1].name, FromField(env, fs[|fs| - 1], fields, depth))
  {
  }

  lemma GivesFieldsSkip(env: Env, fs: seq<PyField>, fields: Fields, attrs: map<string, Attr>, depth: nat)
    requires fs != [] && fs[|fs| - 1].oneof.Some? && GivesFields(env, fs[..|fs| - 1], fields, attrs, depth)
    ensures GivesFields(env, fs, fields, attrs, depth)
  {
    forall i | 0 <= i < |fs| && fs[i].oneof.None?
      ensures fs[..|fs| - 1][i] == fs[i]
    {
    }
  }

  lemma FrontShaped(fs: seq<PyField>)
    requires FieldsShaped(fs) && fs != []
    ensures FieldsShaped(fs[..|fs| - 1])
  {
  }

  /** The attributes that were read: one for each name, each what its field gives. */
  lemma {:induction false} FieldsGive(env: Env, fs: seq<PyField>, fields: Fields, depth: nat)
    requires FieldsShaped(fs) && FromFields(env, fs, fields, depth).Some?
    ensures FromFields(env, fs, fields, depth).value.Keys == PlainNames(fs)
    ensures GivesFields(env, fs, fields, FromFields(env, fs, fields, depth).value, depth)
  {
    if fs != [] {
      var front, last := fs[..|fs| - 1], fs[|fs| - 1];
      PlainNamesStep(fs);
      FrontShaped(fs);
      FromFieldsStep(env, fs, fields, depth);
      FieldsGive(env, front, fields, depth);
      var before := FromFields(env, front, fields, depth).value;
      if last.oneof.None? {
        GivesFieldsStep(env, fs, fields, before, FromField(env, last, fields, depth).value, depth);
      } else {
        GivesFieldsSkip(env, fs, fields, before, depth);
      }
    }
  }

  ghost predicate GivesOneofs(env: Env, os: seq<PyOneof>, fields: Fields, all: map<string, Attr>, depth: nat) {
    forall i | 0 <= i < |os| :: os[i].name in all && FromOneof(env, os[i], fields, depth) == Some(all[os[i].name])
  }

  lemma GivesOneofsStep(env: Env, os: seq<PyOneof>, fields: Fields, before: map<string, Attr>, a: Attr, depth: nat)
    requires OneofsShaped(os) && os != [] && GivesOneofs(env, os[..|os| - 1], fields, before, depth)
    requires FromOneof(env, os[|os| - 1], fields, depth) == Some(a)
    ensures GivesOneofs(env, os, fields, before[os[|os| - 1].name := a], depth)
  {
    forall i | 0 <= i < |os| - 1
      ensures os[i].name in before && FromOneof(env, os[i], fields, depth) == Some(before[os[i].name])
      ensures os[i].name != os[|os| - 1].name
    {
      assert os[..|os| - 1][i] == os[i];
    }
  }

  lemma {:induction false} OneofsGive(env: Env, os: seq<PyOneof>, fields: Fields, attrs: map<string, Attr>, depth: nat)
    requires OneofsShaped(os) && attrs.Keys !! OneofNames(os) && FromOneofs(env, os, fields, attrs, depth).Some?
    ensures FromOneofs(env, os, fields, attrs, depth).value.Keys == attrs.Keys + OneofNames(os)
    ensures forall n | n in attrs :: FromOneofs(env, os, fields, attrs, depth).value[n] == attrs[n]
    ensures GivesOneofs(env, os, fields, FromOneofs(env, os, fields, attrs, depth).value, depth)
  {
    if os != [] {
      var front, last := os[..|os| - 1], os[|os| - 1];
      OneofNamesStep(os);
      OneofsGive(env, front, fields, attrs, depth);
      var before := FromOneofs(env, front, fields, attrs, depth).value;
      GivesOneofsStep(env, os, fields, before, FromOneof(env, last, fields, depth).value, depth);
    }
  }

  lemma OneofNamesStep(os: seq<PyOneof>)
    requires os != []
    ensures OneofNames(os) == OneofNames(os[..|os| - 1]) + {os[|os| - 1].name}
  {
    assert os == os[..|os| - 1] + [os[|os| - 1]];
  }

  /** A message that was read: its attributes, by name. */
  ghost predicate Gives(env: Env, t: PyType, fields: Fields, attrs: map<string, Attr>, depth: nat)
    requires t.PyMessage?
  {
    && attrs.Keys == PlainNames(t.fields) + OneofNames(t.oneofs)
    && (forall f | f in t.fields && f.oneof.None? :: f.name in attrs && FromField(env, f, fields, depth) == Some(attrs[f.name]))
    && (forall o | o in t.oneofs :: o.name in attrs && FromOneof(env, o, fields, depth) == Some(attrs[o.name]))
  }

  lemma MessageGives(env: Env, t: PyType, fields: Fields, depth: nat)
    requires t.PyMessage? && Shaped(t) && FromMessage(env, t, fields, depth).Some?
    ensures FromMessage(env, t, fields, depth).value.Object? && FromMessage(env, t, fields, depth).value.name == t.fullName
    ensures Gives(env, t, fields, FromMessage(env, t, fields, depth).value.attrs, depth)
  {
    FieldsGive(env, t.fields, fields, depth);
    var attrs := FromFields(env, t.fields, fields, depth).value;
    OneofsGive(env, t.oneofs, fields, attrs, depth);
    var all := FromOneofs(env, t.oneofs, fields, attrs, depth).value;
    forall f | f in t.fields && f.oneof.None?
      ensures f.name in all && FromField(env, f, fields, depth) == Some(all[f.name])
    {
      var i :| 0 <= i < |t.fields| && t.fields[i] == f;
      assert f.name in PlainNames(t.fields);
    }
    forall o | o in t.oneofs
      ensures o.name in all && FromOneof(env, o, fields, depth) == Some(all[o.name])
    {
      var i :| 0 <= i < |t.oneofs| && t.oneofs[i] == o;
    }
  }

  lemma {:induction false} MessageFits(env: Env, t: PyType, fields: Fields, depth: nat)
    requires EnvOk(env) && t.PyMessage? && Shaped(t) && FromMessage(env, t, fields, depth).Some?
    ensures FromMessage(env, t, fields, depth).value.Object? && FromMessage(env, t, fields, depth).value.name == t.fullName
    ensures FitsMessage(env, t, FromMessage(env, t, fields, depth).value.attrs, depth)
    decreases depth, 3
  {
    MessageGives(env, t, fields, depth);
    var attrs := FromMessage(env, t, fields, depth).value.attrs;
    forall f | f in t.fields && f.oneof.None? && f.name in attrs
      ensures FitsAttr(env, f, attrs[f.name], depth)
    {
      FieldFits(env, f, fields, depth);
    }
    forall o | o in t.oneofs && o.name in attrs
      ensures FitsOneof(env, o, attrs[o.name], depth)
    {
      OneofFits(env, o, fields, depth);
    }
  }

  /** Converting a message to a dataclass and back reaches a message that converts to itself. */
  lemma SecondTripIsIdle(env: Env, ref: TypeRef, pb: Pb, depth: nat)
    requires EnvOk(env) && FromRef(env, ref, pb, depth).Some?
    ensures var v := FromRef(env, ref, pb, depth).value;
            ToRef(env, ref, v, depth).Some? &&
            var again := ToRef(env, ref, v, depth).value;
            FromRef(env, ref, again, depth) == Some(v)
  {
    FromFits(env, ref, pb, depth);
    RoundTrip(env, ref, FromRef(env, ref, pb, depth).value, depth);
  }

  // to_pb after from_pb only fills.

  lemma FilledScalar(env: Env, ref: TypeRef, pb: Pb, full: Pb, depth: nat)
    requires Filled(env, ref, pb, full, depth)
    ensures IsScalarDefault(full) <==> IsScalarDefault(pb)
  {
  }

  lemma FilledFieldLocal(env: Env, f: PyField, fields: Fields, x: Fields, y: Fields, depth: nat)
    requires SameAt(x, y, f.name) && FilledField(env, f, fields, x, depth)
    ensures FilledField(env, f, fields, y, depth)
  {
  }

  /** Converting a message to a dataclass and back gives the filled message. */
  lemma {:induction false} FillTrip(env: Env, ref: TypeRef, pb: Pb, height: nat, depth: nat)
    requires EnvOk(env) && Sound(env, ref, pb, height) && FromRef(env, ref, pb, depth).Some?
    ensures ToRef(env, ref, FromRef(env, ref, pb, depth).value, depth).Some?
    ensures Filled(env, ref, pb, ToRef(env, ref, FromRef(env, ref, pb, depth).value, depth).value, depth)
    decreases depth, 0
  {
    if ref.MessageRef? {
      FillMessage(env, env[ref.fullName], pb.fields, height - 1, depth - 1);
    }
  }

  /** What to_pb makes of a list, item by item. */
  lemma {:induction false} ItemsGo(env: Env, ref: TypeRef, items: seq<Value>, depth: nat)
    requires EnvOk(env) && forall v | v in items :: Fits(env, ref, v, depth)
    ensures ToItems(env, ref, items, depth).Some? && |ToItems(env, ref, items, depth).value| == |items|
    ensures forall i | 0 <= i < |items| :: ToRef(env, ref, items[i], depth) == Some(ToItems(env, ref, items, depth).value[i])
  {
    if items != [] {
      ItemsGo(env, ref, items[..|items| - 1], depth);
      RoundTrip(env, ref, items[|items| - 1], depth);
    }
  }

  lemma FillItems(env: Env, ref: TypeRef, items: seq<Pb>, height: nat, depth: nat)
    requires EnvOk(env) && (forall pb | pb in items :: Sound(env, ref, pb, height)) && FromItems(env, ref, items, depth).Some?
    ensures ToItems(env, ref, FromItems(env, ref, items, depth).value, depth).Some?
    ensures var fulls := ToItems(env, ref, FromItems(env, ref, items, depth).value, depth).value;
            |fulls| == |items| && forall i | 0 <= i < |items| :: Filled(env, ref, items[i], fulls[i], depth)
    decreases depth, 1
  {
    ItemsFit(env, ref, items, depth);
    ItemsGo(env, ref, FromItems(env, ref, items, depth).value, depth);
    forall i | 0 <= i < |items| {
      FillTrip(env, ref, items[i], height, depth);
    }
  }

  lemma FillEntries(env: Env, ref: TypeRef, entries: map<Leaf, Pb>, height: nat, depth: nat)
    requires EnvOk(env) && (forall k | k in entries :: Sound(env, ref, entries[k], height)) && FromEntries(env, ref, entries, depth).Some?
    ensures ToEntries(env, ref, FromEntries(env, ref, entries, depth).value, depth).Some?
    ensures var fulls := ToEntries(env, ref, FromEntries(env, ref, entries, depth).value, depth).value;
            fulls.Keys == entries.Keys && forall k | k in entries :: Filled(env, ref, entries[k], fulls[k], depth)
    decreases depth, 1
  {
    forall k | k in entries
      ensures ToRef(env, ref, FromRef(env, ref, entries[k], depth).value, depth).Some?
      ensures Filled(env, ref, entries[k], ToRef(env, ref, FromRef(env, ref, entries[k], depth).value, depth).value, depth)
    {
      FillTrip(env, ref, entries[k], height, depth);
    }
  }

  lemma FillSingle(env: Env, f: PyField, fields: Fields, before: Fields, height: nat, depth: nat)
    requires EnvOk(env) && f.oneof.None? && !f.isRepeated && !f.isMap && f.name !in before
    requires f.name in fields ==> SoundPiece(env, f, fields[f.name], height)
    requires FromField(env, f, fields, depth).Some? && !(UsesUnset(f) && f.name !in fields)
    ensures ToField(env, f, FromField(env, f, fields, depth).value, before, depth).Some?
    ensures FilledField(env, f, fields, ToField(env, f, FromField(env, f, fields, depth).value, before, depth).value, depth)
    decreases depth, 1
  {
    var pb := GetSingle(fields, f);
    var h := if f.name in fields then height else 1;
    assert Sound(env, f.typ, pb, h);
    FillTrip(env, f.typ, pb, h, depth);
    FilledScalar(env, f.typ, pb, ToRef(env, f.typ, FromRef(env, f.typ, pb, depth).value, depth).value, depth);
  }

  lemma FillField(env: Env, f: PyField, fields: Fields, before: Fields, height: nat, depth: nat)
    requires EnvOk(env) && f.oneof.None? && f.name !in before && (f.isMap ==> f.mapValue.Some?)
    requires f.name in fields ==> SoundPiece(env, f, fields[f.name], height)
    requires FromField(env, f, fields, depth).Some?
    ensures ToField(env, f, FromField(env, f, fields, depth).value, before, depth).Some?
    ensures FilledField(env, f, fields, ToField(env, f, FromField(env, f, fields, depth).value, before, depth).value, depth)
    decreases depth, 2
  {
    if f.isRepeated {
      FillItems(env, f.typ, GetItems(fields, f.name), height, depth);
    } else if f.isMap {
      FillEntries(env, f.mapValue.value, GetEntries(fields, f.name), height, depth);
    } else if !(UsesUnset(f) && f.name !in fields) {
      FillSingle(env, f, fields, before, height, depth);
    }
  }

  ghost predicate FieldsFilled(env: Env, fs: seq<PyField>, fields: Fields, full: Fields, depth: nat) {
    forall i | 0 <= i < |fs| && fs[i].oneof.None? :: FilledField(env, fs[i], fields, full, depth)
  }

  lemma FieldsFilledStep(env: Env, fs: seq<PyField>, k: nat, fields: Fields, before: Fields, after: Fields, depth: nat)
    requires FieldsShaped(fs) && 0 < k <= |fs| && FieldsFilled(env, fs[..k - 1], fields, before, depth)
    requires fs[k - 1].oneof.None? && FilledField(env, fs[k - 1], fields, after, depth)
    requires forall n | n != fs[k - 1].name :: SameAt(after, before, n)
    ensures FieldsFilled(env, fs[..k], fields, after, depth)
  {
    forall i | 0 <= i < k - 1 && fs[i].oneof.None?
      ensures FilledField(env, fs[i], fields, after, depth)
    {
      assert fs[..k - 1][i] == fs[i] && fs[i].name != fs[k - 1].name;
      assert SameAt(after, before, fs[i].name);
      FilledFieldLocal(env, fs[i], fields, before, after, depth);
    }
  }

  lemma FieldsFilledSkip(env: Env, fs: seq<PyField>, k: nat, fields: Fields, full: Fields, depth: nat)
    requires 0 < k <= |fs| && FieldsFilled(env, fs[..k - 1], fields, full, depth) && fs[k - 1].oneof.Some?
    ensures FieldsFilled(env, fs[..k], fields, full, depth)
  {
    forall i | 0 <= i < k && fs[..k][i].oneof.None?
      ensures FilledField(env, fs[..k][i], fields, full, depth)
    {
      assert fs[..k - 1][i] == fs[..k][i];
    }
  }

  lemma {:induction false} FillFields(env: Env, t: PyType, fields: Fields, attrs: map<string, Attr>, k: nat, height: nat, depth: nat)
    requires EnvOk(env) && t.PyMessage? && Shaped(t) && SoundMessage(env, t, fields, height) && k <= |t.fields|
    requires FitsMessage(env, t, attrs, depth) && Gives(env, t, fields, attrs, depth)
    ensures ToFields(env, t.fields[..k], attrs, depth).Some?
    ensures FieldsFilled(env, t.fields[..k], fields, ToFields(env, t.fields[..k], attrs, depth).value, depth)
    decreases depth, 3, k
  {
    if k > 0 {
      FieldsTrip(env, t, attrs, k - 1, depth);
      FillFields(env, t, fields, attrs, k - 1, height, depth);
      var f := t.fields[k - 1];
      assert t.fields[..k][..k - 1] == t.fields[..k - 1];
      var before := ToFields(env, t.fields[..k - 1], attrs, depth).value;
      if f.oneof.None? {
        NameIsNew(t.fields, k - 1);
        FillField(env, f, fields, before, height, depth);
        FieldTrip(env, f, attrs[f.name], before, depth);
        FieldsFilledStep(env, t.fields, k, fields, before, ToField(env, f, attrs[f.name], before, depth).value, depth);
      } else {
        FieldsFilledSkip(env, t.fields, k, fields, before, depth);
      }
    }
  }

  lemma FillOneof(env: Env, t: PyType, o: PyOneof, fields: Fields, before: Fields, height: nat, depth: nat)
    requires EnvOk(env) && t.PyMessage? && Shaped(t) && o in t.oneofs && SoundMessage(env, t, fields, height)
    requires VariantNames(o.variants) !! before.Keys && FromOneof(env, o, fields, depth).Some?
    ensures ToOneof(env, o, FromOneof(env, o, fields, depth).value, before, depth).Some?
    ensures forall v | v in o.variants ::
              FilledMember(env, v, fields, ToOneof(env, o, FromOneof(env, o, fields, depth).value, before, depth).value, depth)
    decreases depth, 2
  {
    var which := WhichOneof(o.variants, fields);
    if which.None? {
      NoneSet(o.variants, fields);
      forall v | v in o.variants
        ensures v.name !in before
      {
        assert v.name in VariantNames(o.variants);
      }
    } else {
      WhichIn(o.variants, fields);
      var v := which.value;
      VariantFound(o.variants, v);
      assert SoundMember(env, v, fields[v.name], height);
      FillTrip(env, v.typ, fields[v.name].value, height, depth);
      forall u | u in o.variants && u.name != v.name
        ensures u.name !in fields && u.name in VariantNames(o.variants)
      {
      }
      SameVariant(o.variants, v);
    }
  }

  lemma SameVariant(variants: seq<PyVariant>, v: PyVariant)
    requires VariantsShaped(variants) && v in variants
    ensures forall u | u in variants && u.name == v.name :: u == v
  {
  }

  lemma {:induction false} NoneSet(variants: seq<PyVariant>, fields: Fields)
    requires WhichOneof(variants, fields).None?
    ensures forall v | v in variants :: v.name !in fields
  {
    if variants != [] {
      NoneSet(variants[1..], fields);
    }
  }

  lemma {:induction false} WhichIn(variants: seq<PyVariant>, fields: Fields)
    requires WhichOneof(variants, fields).Some?
    ensures WhichOneof(variants, fields).value in variants && WhichOneof(variants, fields).value.name in fields
  {
    if variants[0].name !in fields {
      WhichIn(variants[1..], fields);
    }
  }

  ghost predicate MembersFilled(env: Env, os: seq<PyOneof>, k: nat, fields: Fields, full: Fields, depth: nat)
    requires k <= |os|
  {
    forall i, v | 0 <= i < k && v in os[i].variants :: FilledMember(env, v, fields, full, depth)
  }

  lemma MembersFilledStep(env: Env, os: seq<PyOneof>, k: nat, fields: Fields, before: Fields, after: Fields, depth: nat)
    requires OneofsShaped(os) && 0 < k <= |os| && MembersFilled(env, os, k - 1, fields, before, depth)
    requires forall v | v in os[k - 1].variants :: FilledMember(env, v, fields, after, depth)
    requires forall n | n !in VariantNames(os[k - 1].variants) :: SameAt(after, before, n)
    ensures MembersFilled(env, os, k, fields, after, depth)
  {
    forall i, v | 0 <= i < k && v in os[i].variants
      ensures FilledMember(env, v, fields, after, depth)
    {
      if i < k - 1 {
        assert VariantNames(os[i].variants) !! VariantNames(os[k - 1].variants);
        assert v.name in VariantNames(os[i].variants);
        assert FilledMember(env, v, fields, before, depth);
        assert SameAt(after, before, v.name);
      }
    }
  }

  /** Before its turn comes, no member of a oneof is set. */
  lemma MembersStillUnset(env: Env, t: PyType, attrs: map<string, Attr>, start: Fields, between: Fields, k: nat, depth: nat)
    requires t.PyMessage? && Shaped(t) && k < |t.oneofs| && start.Keys <= PlainNames(t.fields)
    requires OneofsReadBack(env, t.oneofs, attrs, k, start, between, depth)
    ensures VariantNames(t.oneofs[k].variants) !! between.Keys
  {
    assert t.oneofs[k] in t.oneofs;
    forall n | n in VariantNames(t.oneofs[k].variants)
      ensures n !in between
    {
      assert SameAt(between, start, n);
    }
  }

  /** The turn of one oneof. */
  lemma FillNextOneof(env: Env, t: PyType, fields: Fields, attrs: map<string, Attr>, between: Fields, k: nat, height: nat, depth: nat)
    requires EnvOk(env) && t.PyMessage? && Shaped(t) && SoundMessage(env, t, fields, height) && k < |t.oneofs|
    requires t.oneofs[k].name in attrs && FitsOneof(env, t.oneofs[k], attrs[t.oneofs[k].name], depth)
    requires FromOneof(env, t.oneofs[k], fields, depth) == Some(attrs[t.oneofs[k].name])
    requires VariantNames(t.oneofs[k].variants) !! between.Keys && MembersFilled(env, t.oneofs, k, fields, between, depth)
    ensures ToOneof(env, t.oneofs[k], attrs[t.oneofs[k].name], between, depth).Some?
    ensures MembersFilled(env, t.oneofs, k + 1, fields, ToOneof(env, t.oneofs[k], attrs[t.oneofs[k].name], between, depth).value, depth)
    decreases depth, 3, 0
  {
    var o := t.oneofs[k];
    assert o in t.oneofs;
    FillOneof(env, t, o, fields, between, height, depth);
    OneofTrip(env, o, attrs[o.name], between, depth);
    MembersFilledStep(env, t.oneofs, k + 1, fields, between, ToOneof(env, o, attrs[o.name], between, depth).value, depth);
  }

  lemma OneofGiven(env: Env, t: PyType, fields: Fields, attrs: map<string, Attr>, k: nat, depth: nat)
    requires t.PyMessage? && k < |t.oneofs| && FitsMessage(env, t, attrs, depth) && Gives(env, t, fields, attrs, depth)
    ensures t.oneofs[k].name in attrs && FitsOneof(env, t.oneofs[k], attrs[t.oneofs[k].name], depth)
    ensures FromOneof(env, t.oneofs[k], fields, depth) == Some(attrs[t.oneofs[k].name])
  {
    assert t.oneofs[k] in t.oneofs;
  }

  lemma {:induction false} FillOneofs(env: Env, t: PyType, fields: Fields, attrs: map<string, Attr>, start: Fields, k: nat,
                                      height: nat, depth: nat)
    requires EnvOk(env) && t.PyMessage? && Shaped(t) && SoundMessage(env, t, fields, height) && k <= |t.oneofs|
    requires FitsMessage(env, t, attrs, depth) && Gives(env, t, fields, attrs, depth) && start.Keys <= PlainNames(t.fields)
    ensures ToOneofs(env, t.oneofs[..k], attrs, start, depth).Some?
    ensures MembersFilled(env, t.oneofs, k, fields, ToOneofs(env, t.oneofs[..k], attrs, start, depth).value, depth)
    decreases depth, 3, k
  {
    if k > 0 {
      OneofsTrip(env, t, attrs, start, k - 1, depth);
      FillOneofs(env, t, fields, attrs, start, k - 1, height, depth);
      var between := ToOneofs(env, t.oneofs[..k - 1], attrs, start, depth).value;
      OneofGiven(env, t, fields, attrs, k - 1, depth);
      ToOneofsStep(env, t.oneofs, attrs, start, k, depth);
      MembersStillUnset(env, t, attrs, start, between, k - 1, depth);
      FillNextOneof(env, t, fields, attrs, between, k - 1, height, depth);
    }
  }

  lemma FillMessage(env: Env, t: PyType, fields: Fields, height: nat, depth: nat)
    requires EnvOk(env) && t.PyMessage? && Shaped(t) && SoundMessage(env, t, fields, height) && FromMessage(env, t, fields, depth).Some?
    ensures FromMessage(env, t, fields, depth).value.Object? && FromMessage(env, t, fields, depth).value.name == t.fullName
    ensures var attrs := FromMessage(env, t, fields, depth).value.attrs;
            && ToMessage(env, t, attrs, depth).Some?
            && ToMessage(env, t, attrs, depth).value.PbMessage? && ToMessage(env, t, attrs, depth).value.name == t.fullName
            && FilledMessage(env, t, fields, ToMessage(env, t, attrs, depth).value.fields, depth)
    decreases depth, 4
  {
    MessageGives(env, t, fields, depth);
    MessageFits(env, t, fields, depth);
    var attrs := FromMessage(env, t, fields, depth).value.attrs;
    assert t.fields[..|t.fields|] == t.fields && t.oneofs[..|t.oneofs|] == t.oneofs;
    FieldsTrip(env, t, attrs, |t.fields|, depth);
    FillFields(env, t, fields, attrs, |t.fields|, height, depth);
    var start := ToFields(env, t.fields, attrs, depth).value;
    OneofsTrip(env, t, attrs, start, |t.oneofs|, depth);
    FillOneofs(env, t, fields, attrs, start, |t.oneofs|, height, depth);
    AllFilled(env, t, attrs, fields, start, ToOneofs(env, t.oneofs, attrs, start, depth).value, depth);
  }

  /** Fields that were filled before the oneofs' members still are, and so are the members. */
  lemma AllFilled(env: Env, t: PyType, attrs: map<string, Attr>, fields: Fields, start: Fields, full: Fields, depth: nat)
    requires t.PyMessage? && Shaped(t) && FieldsFilled(env, t.fields, fields, start, depth)
    requires OneofsReadBack(env, t.oneofs, attrs, |t.oneofs|, start, full, depth)
    requires MembersFilled(env, t.oneofs, |t.oneofs|, fields, full, depth)
    ensures FilledMessage(env, t, fields, full, depth)
  {
    forall f | f in t.fields && f.oneof.None?
      ensures FilledField(env, f, fields, full, depth)
    {
      var i :| 0 <= i < |t.fields| && t.fields[i] == f;
      assert f.name in PlainNames(t.fields);
      assert SameAt(full, start, f.name);
      FilledFieldLocal(env, f, fields, start, full, depth);
    }
    forall o, v | o in t.oneofs && v in o.variants
      ensures FilledMember(env, v, fields, full, depth)
    {
      var i :| 0 <= i < |t.oneofs| && t.oneofs[i] == o;
    }
  }
}
