/**
 What the mappers do to each field and each oneof, by its type: what to_pb leaves in the message
 for a value, and what from_pb makes of a message that has the field or does not.
 */
module MapperFields {
  import opened Wrappers
  import opened PythonTypes
  import opened PythonMappers
  import opened MapperRoundTrip
  import opened MapperFill

  // Reading.

  /** What an absent value is read as. */
  predicate ReadZero(env: Env, ref: TypeRef, a: Attr, depth: nat) {
    match ref
    case ScalarRef(s) => a == Single(Plain(Leaf(s, 0)))
    case EnumRef(n, _, _) => a == Single(Member(n, 0))
    case WellKnownRef(n, _) => a == Single(WellKnownValue(n, 0))
    case MessageRef(n, _, _) => a.Single? && FromRef(env, ref, PbMessage(n, map[]), depth) == Some(a.value)
  }

  /** The attribute for a field that is no list, no map and in no oneof. */
  predicate ReadSingle(env: Env, f: PyField, fields: Fields, a: Attr, depth: nat) {
    if f.name in fields && fields[f.name].PSingle? then
      a.Single? && FromRef(env, f.typ, fields[f.name].value, depth) == Some(a.value)
    else if f.name !in fields && f.hasPresence && !f.isSchemaRequired then a == Unset
    else ReadZero(env, f.typ, a, depth)
  }

  predicate ReadList(env: Env, ref: TypeRef, items: seq<Pb>, a: Attr, depth: nat) {
    && a.Items? && |a.items| == |items|
    && forall i | 0 <= i < |items| :: FromRef(env, ref, items[i], depth) == Some(a.items[i])
  }

  predicate ReadMap(env: Env, ref: TypeRef, entries: map<Leaf, Pb>, a: Attr, depth: nat) {
    && a.Entries? && a.entries.Keys == entries.Keys
    && forall k | k in entries :: FromRef(env, ref, entries[k], depth) == Some(a.entries[k])
  }

  /** What from_pb makes of one field. */
  predicate Read(env: Env, f: PyField, fields: Fields, a: Attr, depth: nat) {
    if f.isRepeated then
      ReadList(env, f.typ, if f.name in fields && fields[f.name].PItems? then fields[f.name].items else [], a, depth)
    else if f.isMap then
      f.mapValue.Some? ==>
        ReadMap(env, f.mapValue.value, if f.name in fields && fields[f.name].PEntries? then fields[f.name].entries else map[], a, depth)
    else ReadSingle(env, f, fields, a, depth)
  }

  lemma ZeroRead(env: Env, ref: TypeRef, v: Value, depth: nat)
    requires FromRef(env, ref, Default(ref), depth) == Some(v)
    ensures ReadZero(env, ref, Single(v), depth)
  {
  }

  lemma FieldRead(env: Env, f: PyField, fields: Fields, a: Attr, depth: nat)
    requires f.oneof.None? && FromField(env, f, fields, depth) == Some(a)
    ensures Read(env, f, fields, a, depth)
  {
    if f.isRepeated {
      ItemsRead(env, f.typ, GetItems(fields, f.name), depth);
    } else if !f.isMap && a.Single? && !(f.name in fields && fields[f.name].PSingle?) {
      ZeroRead(env, f.typ, a.value, depth);
    }
  }

  /**
   from_pb, field by field: a list or map as many values as it has, converted one by one, none if it
   is absent; any other field its own value if it is there, and otherwise UNSET or the zero of its type.
   */
  lemma ReadField(env: Env, t: PyType, f: PyField, fields: Fields, depth: nat)
    requires t.PyMessage? && Shaped(t) && f in t.fields && f.oneof.None? && FromMessage(env, t, fields, depth).Some?
    ensures var v := FromMessage(env, t, fields, depth).value;
            v.Object? && v.name == t.fullName && f.name in v.attrs && Read(env, f, fields, v.attrs[f.name], depth)
  {
    MessageGives(env, t, fields, depth);
    FieldRead(env, f, fields, FromMessage(env, t, fields, depth).value.attrs[f.name], depth);
  }

  lemma {:induction false} ItemsRead(env: Env, ref: TypeRef, items: seq<Pb>, depth: nat)
    requires FromItems(env, ref, items, depth).Some?
    ensures ReadList(env, ref, items, Items(FromItems(env, ref, items, depth).value), depth)
    decreases |items|
  {
    if items != [] {
      ItemsRead(env, ref, items[..|items| - 1], depth);
    }
  }

  /** from_pb, oneof by oneof: UNSET when no member is set, and otherwise the class of a member that is, with its value. */
  lemma ReadOneof(env: Env, t: PyType, o: PyOneof, fields: Fields, depth: nat)
    requires t.PyMessage? && Shaped(t) && o in t.oneofs && FromMessage(env, t, fields, depth).Some?
    ensures var v := FromMessage(env, t, fields, depth).value;
            && v.Object? && o.name in v.attrs
            && (v.attrs[o.name] == Unset <==> forall u | u in o.variants :: u.name !in fields)
            && (v.attrs[o.name] != Unset ==>
                  exists u | u in o.variants ::
                    && u.name in fields && fields[u.name].PSingle? && v.attrs[o.name].Chosen? && v.attrs[o.name].wrapper == u.wrapper
                    && FromRef(env, u.typ, fields[u.name].value, depth) == Some(v.attrs[o.name].value))
  {
    MessageGives(env, t, fields, depth);
    WhichIsSet(o.variants, fields);
    var v := FromMessage(env, t, fields, depth).value;
    if v.attrs[o.name] != Unset {
      var u := WhichOneof(o.variants, fields).value;
      assert u in o.variants && u.name in fields;
    }
  }

  lemma {:induction false} WhichIsSet(variants: seq<PyVariant>, fields: Fields)
    ensures match WhichOneof(variants, fields)
            case None => forall u | u in variants :: u.name !in fields
            case Some(u) => u in variants && u.name in fields
  {
    if variants != [] {
      WhichIsSet(variants[1..], fields);
    }
  }

  // Writing.

  /** Where a field is written, it was not there before, and stays as it is written. */
  lemma {:induction false} Written(env: Env, fs: seq<PyField>, attrs: map<string, Attr>, f: PyField, depth: nat) returns (before: Fields)
    requires FieldsShaped(fs) && f in fs && f.oneof.None? && ToFields(env, fs, attrs, depth).Some?
    ensures f.name !in before && f.name in attrs && ToField(env, f, attrs[f.name], before, depth).Some?
    ensures SameAt(ToFields(env, fs, attrs, depth).value, ToField(env, f, attrs[f.name], before, depth).value, f.name)
    decreases |fs|
  {
    var front, last := fs[..|fs| - 1], fs[|fs| - 1];
    assert fs == front + [last];
    FrontShaped(fs);
    if f == last {
      before := ToFields(env, front, attrs, depth).value;
      NameIsNew(fs, |fs| - 1);
      OnlyNames(env, front, attrs, depth);
    } else {
      before := Written(env, front, attrs, f, depth);
      var i :| 0 <= i < |front| && front[i] == f;
      assert fs[i] == f && f.name != last.name;
      if last.oneof.None? {
        OthersSame(env, last, attrs[last.name], ToFields(env, front, attrs, depth).value, f.name, depth);
      }
    }
  }

  lemma OthersSame(env: Env, f: PyField, a: Attr, fields: Fields, n: string, depth: nat)
    requires ToField(env, f, a, fields, depth).Some? && n != f.name
    ensures SameAt(ToField(env, f, a, fields, depth).value, fields, n)
  {
  }

  lemma {:induction false} OnlyNames(env: Env, fs: seq<PyField>, attrs: map<string, Attr>, depth: nat)
    requires ToFields(env, fs, attrs, depth).Some?
    ensures ToFields(env, fs, attrs, depth).value.Keys <= PlainNames(fs)
    decreases |fs|
  {
    if fs != [] {
      var front, last := fs[..|fs| - 1], fs[|fs| - 1];
      OnlyNames(env, front, attrs, depth);
      PlainNamesStep(fs);
      if last.oneof.None? {
        forall n | n != last.name {
          OthersSame(env, last, attrs[last.name], ToFields(env, front, attrs, depth).value, n, depth);
        }
      }
    }
  }

  lemma {:induction false} OneofsLeave(env: Env, os: seq<PyOneof>, attrs: map<string, Attr>, fields: Fields, n: string, depth: nat)
    requires ToOneofs(env, os, attrs, fields, depth).Some? && forall o | o in os :: n !in VariantNames(o.variants)
    ensures SameAt(ToOneofs(env, os, attrs, fields, depth).value, fields, n)
    decreases |os|
  {
    if os != [] {
      var front, last := os[..|os| - 1], os[|os| - 1];
      assert last in os;
      OneofsLeave(env, front, attrs, fields, n, depth);
      var a := attrs[last.name];
      if a.Chosen? {
        VariantOfIn(last.variants, a.wrapper);
      }
    }
  }

  /** What is there for a field that is no list, no map and in no oneof. */
  predicate WroteSingle(env: Env, f: PyField, v: Value, fields: Fields, depth: nat) {
    && ToRef(env, f.typ, v, depth).Some?
    && (f.name in fields ==> fields[f.name] == PSingle(ToRef(env, f.typ, v, depth).value))
    && (f.name in fields <==>
          || f.hasPresence
          || match f.typ
             case ScalarRef(_) => v.Plain? && v.leaf.code != 0
             case EnumRef(_, _, _) => v.Member? && v.number != 0
             case _ => true)
  }

  predicate WroteList(env: Env, ref: TypeRef, items: seq<Value>, name: string, fields: Fields, depth: nat) {
    && (name in fields <==> items != [])
    && (name in fields ==>
          && fields[name].PItems? && |fields[name].items| == |items|
          && forall i | 0 <= i < |items| :: ToRef(env, ref, items[i], depth) == Some(fields[name].items[i]))
  }

  predicate WroteMap(env: Env, ref: TypeRef, entries: map<Leaf, Value>, name: string, fields: Fields, depth: nat) {
    && (name in fields <==> entries != map[])
    && (name in fields ==>
          && fields[name].PEntries? && fields[name].entries.Keys == entries.Keys
          && forall k | k in entries :: ToRef(env, ref, entries[k], depth) == Some(fields[name].entries[k]))
  }

  predicate Wrote(env: Env, f: PyField, a: Attr, fields: Fields, depth: nat) {
    if f.isRepeated then a.Items? && WroteList(env, f.typ, a.items, f.name, fields, depth)
    else if f.isMap then f.mapValue.Some? ==> a.Entries? && WroteMap(env, f.mapValue.value, a.entries, f.name, fields, depth)
    else if a.Unset? then f.hasPresence && !f.isSchemaRequired && f.name !in fields
    else (f.hasPresence ==> f.name in fields) && (a.Single? ==> WroteSingle(env, f, a.value, fields, depth))
  }

  lemma {:induction false} ItemsWritten(env: Env, ref: TypeRef, items: seq<Value>, depth: nat)
    requires ToItems(env, ref, items, depth).Some?
    ensures var pbs := ToItems(env, ref, items, depth).value;
            |pbs| == |items| && forall i | 0 <= i < |items| :: ToRef(env, ref, items[i], depth) == Some(pbs[i])
    decreases |items|
  {
    if items != [] {
      ItemsWritten(env, ref, items[..|items| - 1], depth);
    }
  }

  lemma FieldWrites(env: Env, f: PyField, a: Attr, before: Fields, depth: nat)
    requires f.oneof.None? && f.name !in before && ToField(env, f, a, before, depth).Some?
    ensures Wrote(env, f, a, ToField(env, f, a, before, depth).value, depth)
  {
    if f.isRepeated {
      ItemsWritten(env, f.typ, a.items, depth);
    } else if f.isMap {
      if f.mapValue.Some? {
        EntriesWrite(env, f.mapValue.value, a.entries, f.name, before, depth);
      }
    } else if a.Single? {
      SingleWrites(env, f, a.value, before, depth);
    }
  }

  lemma EntriesWrite(env: Env, ref: TypeRef, entries: map<Leaf, Value>, name: string, before: Fields, depth: nat)
    requires name !in before && ToEntries(env, ref, entries, depth).Some?
    ensures WroteMap(env, ref, entries, name, SetEntries(before, name, ToEntries(env, ref, entries, depth).value), depth)
  {
    var pbs := ToEntries(env, ref, entries, depth).value;
    assert pbs.Keys == entries.Keys;
    if entries == map[] {
      assert pbs == map[];
    } else {
      var k :| k in entries;
      assert k in pbs;
    }
  }

  lemma SingleWrites(env: Env, f: PyField, v: Value, before: Fields, depth: nat)
    requires f.name !in before && ToRef(env, f.typ, v, depth).Some?
    ensures WroteSingle(env, f, v, SetSingle(before, f, ToRef(env, f.typ, v, depth).value), depth)
  {
  }

  lemma WroteLocal(env: Env, f: PyField, a: Attr, x: Fields, y: Fields, depth: nat)
    requires SameAt(x, y, f.name) && Wrote(env, f, a, y, depth)
    ensures Wrote(env, f, a, x, depth)
  {
  }

  /**
   to_pb, field by field: a list or map is there with its values converted one by one, unless it is empty;
   UNSET leaves the field out; a value is there, unless it is the zero of a field without presence.
   */
  lemma WriteField(env: Env, t: PyType, f: PyField, attrs: map<string, Attr>, depth: nat)
    requires t.PyMessage? && Shaped(t) && f in t.fields && f.oneof.None? && ToMessage(env, t, attrs, depth).Some?
    ensures var pb := ToMessage(env, t, attrs, depth).value;
            pb.PbMessage? && pb.name == t.fullName && f.name in attrs && Wrote(env, f, attrs[f.name], pb.fields, depth)
  {
    var start := ToFields(env, t.fields, attrs, depth).value;
    var before := Written(env, t.fields, attrs, f, depth);
    FieldWrites(env, f, attrs[f.name], before, depth);
    assert f.name in PlainNames(t.fields);
    OneofsLeave(env, t.oneofs, attrs, start, f.name, depth);
    var written := ToField(env, f, attrs[f.name], before, depth).value;
    WroteLocal(env, f, attrs[f.name], start, written, depth);
    WroteLocal(env, f, attrs[f.name], ToOneofs(env, t.oneofs, attrs, start, depth).value, start, depth);
  }

  /** Of a oneof there is nothing, or the member of the class that the value has. */
  predicate WroteOneof(env: Env, o: PyOneof, a: Attr, fields: Fields, depth: nat) {
    if a.Unset? then forall u | u in o.variants :: u.name !in fields
    else
      && a.Chosen?
      && exists u | u in o.variants ::
           && u.wrapper == a.wrapper && ToRef(env, u.typ, a.value, depth).Some?
           && u.name in fields && fields[u.name] == PSingle(ToRef(env, u.typ, a.value, depth).value)
           && forall other | other in o.variants && other.name in fields :: other.name == u.name
  }

  lemma OneofWrites(env: Env, o: PyOneof, a: Attr, before: Fields, depth: nat)
    requires ToOneof(env, o, a, before, depth).Some? && VariantNames(o.variants) !! before.Keys
    ensures WroteOneof(env, o, a, ToOneof(env, o, a, before, depth).value, depth)
  {
    if a.Unset? {
      forall u | u in o.variants
        ensures u.name !in before
      {
        assert u.name in VariantNames(o.variants);
      }
    } else {
      VariantOfIn(o.variants, a.wrapper);
      var u := VariantOf(o.variants, a.wrapper).value;
      var after := ToOneof(env, o, a, before, depth).value;
      forall other | other in o.variants && other.name in after
        ensures other.name == u.name
      {
        assert other.name in VariantNames(o.variants);
      }
    }
  }

  lemma WroteOneofLocal(env: Env, o: PyOneof, a: Attr, x: Fields, y: Fields, depth: nat)
    requires WroteOneof(env, o, a, y, depth) && forall n | n in VariantNames(o.variants) :: SameAt(x, y, n)
    ensures WroteOneof(env, o, a, x, depth)
  {
    forall u | u in o.variants
      ensures SameAt(x, y, u.name)
    {
      assert u.name in VariantNames(o.variants);
    }
  }

  lemma OneofLeaves(env: Env, o: PyOneof, a: Attr, fields: Fields, n: string, depth: nat)
    requires ToOneof(env, o, a, fields, depth).Some? && n !in VariantNames(o.variants)
    ensures SameAt(ToOneof(env, o, a, fields, depth).value, fields, n)
  {
    if a.Chosen? {
      VariantOfIn(o.variants, a.wrapper);
    }
  }

  lemma {:induction false} OneofsWrite(env: Env, os: seq<PyOneof>, attrs: map<string, Attr>, fields: Fields, i: nat, depth: nat)
    requires OneofsShaped(os) && i < |os| && ToOneofs(env, os, attrs, fields, depth).Some?
    requires forall o | o in os :: VariantNames(o.variants) !! fields.Keys
    ensures os[i].name in attrs && WroteOneof(env, os[i], attrs[os[i].name], ToOneofs(env, os, attrs, fields, depth).value, depth)
    decreases |os|
  {
    var n := |os| - 1;
    var front, last := os[..n], os[n];
    var between := ToOneofs(env, front, attrs, fields, depth).value;
    if i == n {
      forall name | name in VariantNames(last.variants)
        ensures name !in between
      {
        OneofsLeave(env, front, attrs, fields, name, depth);
      }
      OneofWrites(env, last, attrs[last.name], between, depth);
    } else {
      OneofsWrite(env, front, attrs, fields, i, depth);
      forall name | name in VariantNames(os[i].variants)
        ensures SameAt(ToOneofs(env, os, attrs, fields, depth).value, between, name)
      {
        OneofLeaves(env, last, attrs[last.name], between, name, depth);
      }
      WroteOneofLocal(env, os[i], attrs[os[i].name], ToOneofs(env, os, attrs, fields, depth).value, between, depth);
    }
  }

  /** to_pb, oneof by oneof: UNSET leaves all members out; a variant sets its own member, and no other is set. */
  lemma WriteOneof(env: Env, t: PyType, o: PyOneof, attrs: map<string, Attr>, depth: nat)
    requires t.PyMessage? && Shaped(t) && o in t.oneofs && ToMessage(env, t, attrs, depth).Some?
    ensures var pb := ToMessage(env, t, attrs, depth).value;
            pb.PbMessage? && o.name in attrs && WroteOneof(env, o, attrs[o.name], pb.fields, depth)
  {
    var start := ToFields(env, t.fields, attrs, depth).value;
    OnlyNames(env, t.fields, attrs, depth);
    var i :| 0 <= i < |t.oneofs| && t.oneofs[i] == o;
    OneofsWrite(env, t.oneofs, attrs, start, i, depth);
  }

  /** An enum is read by its number when that is the number of a value that is shown, and raises otherwise. */
  lemma ReadEnum(env: Env, n: string, publicName: string, owner: Owner, number: int, depth: nat)
    requires n in env && env[n].PyEnum? && env[n].fullName == n
    ensures FromRef(env, EnumRef(n, publicName, owner), PbEnum(number), depth) ==
              if exists v | v in env[n].values :: !v.hidden && v.number == number then Some(Member(n, number)) else None
  {
  }
}
