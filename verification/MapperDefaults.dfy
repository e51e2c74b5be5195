/**
 Dataclasses left at their defaults. What a class leaves out holds the UNSET of the module
 that defines the class, and the mappers of another file have an UNSET of their own.
 */
module MapperDefaults {
  import opened Wrappers
  import opened Reachability
  import opened WellKnownTypes
  import opened PythonTypes
  import opened PythonScopes
  import opened PythonMappers
  import opened MapperRoundTrip
  import opened MapperFill
  import opened MapperDepth
  import opened GeneratedMappers
  import opened MapperAgreement
  import opened MapperNames

  /** The default of everything in a class that can be left out, as the current file's mappers see it. */
  function DefaultUnset(owner: Owner): Attr {
    if owner.isCurrentFile then Unset else Stray(UnsetOf(owner.protoPath))
  }

  /** An instance made by giving what has no default, in turn with nothing more, and leaving all else at its default. */
  predicate LeftAlone(env: Env, ref: TypeRef, v: Value, depth: nat)
    decreases depth, 0
  {
    match ref
    case MessageRef(n, _, _) =>
      depth > 0 && v.Object? && v.name == n && IsMessage(env, n) && AttrsLeftAlone(env, env[n], v.attrs, depth - 1)
    case _ => Fits(env, ref, v, depth)
  }

  predicate AttrLeftAlone(env: Env, owner: Owner, f: PyField, a: Attr, depth: nat)
    decreases depth, 1
  {
    if f.isRepeated then a == Items([])
    else if f.isMap then a == Entries(map[])
    else if UsesUnset(f) then a == DefaultUnset(owner)
    else a.Single? && LeftAlone(env, f.typ, a.value, depth)
  }

  predicate AttrsLeftAlone(env: Env, t: PyType, attrs: map<string, Attr>, depth: nat)
    requires t.PyMessage?
    decreases depth, 2
  {
    && attrs.Keys == PlainNames(t.fields) + OneofNames(t.oneofs)
    && (forall f | f in t.fields && f.oneof.None? && f.name in attrs :: AttrLeftAlone(env, t.owner, f, attrs[f.name], depth))
    && (forall o | o in t.oneofs && o.name in attrs :: attrs[o.name] == DefaultUnset(t.owner))
  }

  // Which types spoil such an instance.

  /** Converting a value of this type looks at the value. */
  predicate LooksAt(env: Env, ref: TypeRef) {
    match ref
    case WellKnownRef(n, _) => WellKnownOf(n) != Some(EmptyType)
    case MessageRef(n, _, _) => IsMessage(env, n) ==> !Untouched(env[n])
    case _ => true
  }

  /** A type of another file with a oneof, or with a field that can be left out and whose value is looked at. */
  predicate Spoils(env: Env, t: PyType)
    requires t.PyMessage?
  {
    !t.owner.isCurrentFile && (t.oneofs != [] || exists f | f in t.fields && UsesUnset(f) :: LooksAt(env, f.typ))
  }

  lemma UntouchedIs(t: PyType)
    requires t.PyMessage? && Shaped(t)
    ensures Untouched(t) <==> t.oneofs == [] && forall f | f in t.fields :: f.oneof.Some?
  {
  }

  /** A message type without oneofs and without fields outside them. */
  predicate HoldsNothing(env: Env, ref: TypeRef) {
    && ref.MessageRef? && IsMessage(env, ref.fullName)
    && env[ref.fullName].oneofs == [] && forall f | f in env[ref.fullName].fields :: f.oneof.Some?
  }

  /**
   Written out: a type of another file spoils its instances if it has a oneof, or a field that can be left
   out, unless all such fields hold google.protobuf.Empty or messages that hold nothing.
   */
  lemma SpoilsIs(env: Env, t: PyType)
    requires EnvOk(env) && t.PyMessage?
    ensures Spoils(env, t) <==>
              && !t.owner.isCurrentFile
              && (t.oneofs != [] || exists f | f in t.fields ::
                    && f.oneof.None? && !f.isRepeated && !f.isMap && f.hasPresence && !f.isSchemaRequired
                    && !(f.typ.WellKnownRef? && WellKnownOf(f.typ.fullName) == Some(EmptyType))
                    && !HoldsNothing(env, f.typ))
  {
    forall f | f in t.fields
      ensures LooksAt(env, f.typ) <==>
                !(f.typ.WellKnownRef? && WellKnownOf(f.typ.fullName) == Some(EmptyType)) && !HoldsNothing(env, f.typ)
    {
      if f.typ.MessageRef? && IsMessage(env, f.typ.fullName) {
        UntouchedIs(env[f.typ.fullName]);
      }
    }
  }

  predicate SpoilsAt(env: Env, n: string) {
    IsMessage(env, n) && Spoils(env, env[n])
  }

  /** The type, or one that it requires, directly or not, spoils its instances. */
  ghost predicate Spoilt(env: Env, n: string) {
    exists m | Requires(env, n, m) :: SpoilsAt(env, m)
  }

  lemma SpoiltStep(env: Env, n: string)
    requires IsMessage(env, n)
    ensures Spoilt(env, n) <==> Spoils(env, env[n]) || exists c | c in Required(env[n]) :: Spoilt(env, c)
  {
    var succ := RequiredEdges(env);
    if Spoils(env, env[n]) {
      ReachRoot(succ, {n}, n);
      assert Requires(env, n, n) && SpoilsAt(env, n);
    }
    if c :| c in Required(env[n]) && Spoilt(env, c) {
      var m :| Requires(env, c, m) && SpoilsAt(env, m);
      ReachVia(succ, n, c, m);
      assert Requires(env, n, m);
    }
    if Spoilt(env, n) && !Spoils(env, env[n]) {
      var m :| Requires(env, n, m) && SpoilsAt(env, m);
      var c := ReachFirst(succ, n, m);
      assert Requires(env, c, m);
    }
  }

  // to_pb succeeds field by field.

  lemma ToFieldSucceeds(env: Env, f: PyField, a: Attr, x: Fields, y: Fields, depth: nat)
    ensures ToField(env, f, a, x, depth).Some? <==> ToField(env, f, a, y, depth).Some?
  {
  }

  predicate FieldWritable(env: Env, f: PyField, attrs: map<string, Attr>, depth: nat) {
    f.oneof.None? ==> f.name in attrs && ToField(env, f, attrs[f.name], map[], depth).Some?
  }

  lemma {:induction false} FieldsWritable(env: Env, fs: seq<PyField>, attrs: map<string, Attr>, depth: nat)
    ensures ToFields(env, fs, attrs, depth).Some? <==> forall f | f in fs :: FieldWritable(env, f, attrs, depth)
    decreases |fs|
  {
    if fs != [] {
      var front, last := fs[..|fs| - 1], fs[|fs| - 1];
      FieldsWritable(env, front, attrs, depth);
      WritableStep(env, fs, attrs, depth);
      assert fs == front + [last];
    }
  }

  lemma WritableStep(env: Env, fs: seq<PyField>, attrs: map<string, Attr>, depth: nat)
    requires fs != []
    ensures ToFields(env, fs, attrs, depth).Some? <==>
              ToFields(env, fs[..|fs| - 1], attrs, depth).Some? && FieldWritable(env, fs[|fs| - 1], attrs, depth)
  {
    var front, last := fs[..|fs| - 1], fs[|fs| - 1];
    if last.oneof.None? && last.name in attrs && ToFields(env, front, attrs, depth).Some? {
      ToFieldSucceeds(env, last, attrs[last.name], ToFields(env, front, attrs, depth).value, map[], depth);
    }
  }

  /** Oneofs that all hold one thing: UNSET leaves the message as it is, anything strange raises. */
  lemma {:induction false} OneofsWritable(env: Env, os: seq<PyOneof>, attrs: map<string, Attr>, a: Attr, fields: Fields, depth: nat)
    requires a.Unset? || a.Stray?
    requires forall o | o in os :: o.name in attrs && attrs[o.name] == a
    ensures ToOneofs(env, os, attrs, fields, depth) == if os == [] || a.Unset? then Some(fields) else None
    decreases |os|
  {
    if os != [] {
      assert os[|os| - 1] in os;
      OneofsWritable(env, os[..|os| - 1], attrs, a, fields, depth);
    }
  }

  lemma StrayIsConverted(env: Env, ref: TypeRef, depth: nat)
    requires EnvOk(env) && depth > 0
    ensures ToStray(env, ref, depth).Some? ==> !LooksAt(env, ref)
    ensures !LooksAt(env, ref) && (ref.MessageRef? ==> IsMessage(env, ref.fullName)) ==> ToStray(env, ref, depth).Some?
  {
  }

  predicate FieldSpoils(env: Env, owner: Owner, f: PyField) {
    !owner.isCurrentFile && UsesUnset(f) && LooksAt(env, f.typ)
  }

  lemma {:induction false} FieldRaises(env: Env, names: set<string>, owner: Owner, f: PyField, a: Attr, depth: nat)
    requires EnvOk(env) && ClosedTypes(env, names) && FieldWithin(names, f) && f.oneof.None? && (f.isMap ==> f.mapValue.Some?)
    requires AttrLeftAlone(env, owner, f, a, depth)
    ensures ToField(env, f, a, map[], depth + 1).None? <==>
              FieldSpoils(env, owner, f) || (AlwaysRead(f) && f.typ.MessageRef? && Spoilt(env, f.typ.fullName))
    decreases depth, 1
  {
    if f.isRepeated || f.isMap {
    } else if UsesUnset(f) {
      StrayIsConverted(env, f.typ, depth + 1);
    } else if f.typ.MessageRef? {
      LeftAloneRaises(env, names, f.typ, a.value, depth);
    } else {
      RoundTrip(env, f.typ, a.value, depth + 1);
    }
  }

  /**
   to_pb of an instance left at its defaults raises exactly when its type, or one that it
   requires, directly or not, is of another file and has a oneof, or a field that can be left
   out and whose value is looked at.
   */
  lemma {:induction false} LeftAloneRaises(env: Env, names: set<string>, ref: TypeRef, v: Value, depth: nat)
    requires EnvOk(env) && ClosedTypes(env, names) && ref.MessageRef? && ref.fullName in names && LeftAlone(env, ref, v, depth)
    ensures ToRef(env, ref, v, depth + 1).None? <==> Spoilt(env, ref.fullName)
    decreases depth, 0
  {
    var t := env[ref.fullName];
    var d := depth - 1;
    FieldsWritable(env, t.fields, v.attrs, depth);
    forall f | f in t.fields && f.oneof.None?
      ensures FieldWritable(env, f, v.attrs, depth) <==>
                !(FieldSpoils(env, t.owner, f) || (AlwaysRead(f) && f.typ.MessageRef? && Spoilt(env, f.typ.fullName)))
    {
      assert f.name in PlainNames(t.fields);
      FieldRaises(env, names, t.owner, f, v.attrs[f.name], d);
    }
    assert ToFields(env, t.fields, v.attrs, depth).None? <==>
             exists f | f in t.fields && f.oneof.None? ::
               FieldSpoils(env, t.owner, f) || (AlwaysRead(f) && f.typ.MessageRef? && Spoilt(env, f.typ.fullName));
    SpoiltStep(env, ref.fullName);
    forall o | o in t.oneofs
      ensures o.name in v.attrs
    {
      assert o.name in OneofNames(t.oneofs);
    }
    if ToFields(env, t.fields, v.attrs, depth).Some? {
      OneofsWritable(env, t.oneofs, v.attrs, DefaultUnset(t.owner), ToFields(env, t.fields, v.attrs, depth).value, depth);
    }
  }

  // The emitted to_pb.

  /** The module loads, and in these types no name stands in the way of a value without oneof members. */
  predicate WritesDefaults(env: Env, scope: Scope, names: set<string>) {
    && scope.loads && UnsetKept(scope) && ClosedTypes(env, names)
    && forall n | n in names ::
         FieldsKept(env[n]) && forall f | f in env[n].fields && f.oneof.None? :: FieldWritesQuietly(scope, f)
  }

  lemma {:induction false} DefaultsWrite(env: Env, scope: Scope, names: set<string>, ref: TypeRef, v: Value, depth: nat)
    requires WritesDefaults(env, scope, names) && RefWithin(names, ref) && RefModuleKept(scope, ref) && LeftAlone(env, ref, v, depth)
    ensures WritesRef(env, scope, ref, v, depth + 1)
    decreases depth
  {
    if ref.MessageRef? {
      var t := env[ref.fullName];
      forall f | f in t.fields && f.oneof.None? && f.name in v.attrs
        ensures WritesField(env, scope, f, v.attrs[f.name], depth)
      {
        assert FieldWritesQuietly(scope, f) && FieldWithin(names, f);
        assert AttrLeftAlone(env, t.owner, f, v.attrs[f.name], depth - 1);
        if AlwaysRead(f) {
          DefaultsWrite(env, scope, names, f.typ, v.attrs[f.name].value, depth - 1);
        }
      }
    }
  }

  /** The same of the emitted to_pb: such an instance makes it raise exactly when the types that it holds spoil it. */
  lemma LeftAloneNeverWrites(env: Env, scope: Scope, names: set<string>, ref: TypeRef, v: Value, depth: nat)
    requires EnvOk(env) && ClosedTypes(env, names) && ref.MessageRef? && ref.fullName in names && LeftAlone(env, ref, v, depth)
    ensures Spoilt(env, ref.fullName) ==> RunToRef(env, scope, ref, v, depth + 1).None?
    ensures WritesDefaults(env, scope, names) ==> (RunToRef(env, scope, ref, v, depth + 1).None? <==> Spoilt(env, ref.fullName))
  {
    RunToRefIs(env, scope, ref, v, depth + 1);
    LeftAloneRaises(env, names, ref, v, depth);
    if WritesDefaults(env, scope, names) {
      DefaultsWrite(env, scope, names, ref, v, depth);
    }
  }

  // What does not raise.

  predicate SetAsHeld(f: PyField, attrs: map<string, Attr>, fields: Fields) {
    UsesUnset(f) ==> f.name in attrs && (f.name in fields <==> !attrs[f.name].Unset?)
  }

  lemma {:induction false} FieldsSet(env: Env, fs: seq<PyField>, attrs: map<string, Attr>, depth: nat)
    requires FieldsShaped(fs) && ToFields(env, fs, attrs, depth).Some?
    ensures ToFields(env, fs, attrs, depth).value.Keys <= PlainNames(fs)
    ensures forall f | f in fs :: SetAsHeld(f, attrs, ToFields(env, fs, attrs, depth).value)
    decreases |fs|
  {
    if fs != [] {
      var front, last := fs[..|fs| - 1], fs[|fs| - 1];
      assert fs == front + [last];
      PlainNamesStep(fs);
      FrontShaped(fs);
      NameIsNew(fs, |fs| - 1);
      FieldsSet(env, front, attrs, depth);
      var before, after := ToFields(env, front, attrs, depth).value, ToFields(env, fs, attrs, depth).value;
      if last.oneof.None? {
        OneFieldSet(env, last, attrs[last.name], before, depth);
      }
      forall f | f in front
        ensures SetAsHeld(f, attrs, after)
      {
        var i :| 0 <= i < |front| && front[i] == f;
        assert fs[i] == f;
      }
    }
  }

  lemma OneFieldSet(env: Env, f: PyField, a: Attr, fields: Fields, depth: nat)
    requires f.name !in fields && ToField(env, f, a, fields, depth).Some?
    ensures forall n | n != f.name :: n in ToField(env, f, a, fields, depth).value <==> n in fields
    ensures UsesUnset(f) ==> (f.name in ToField(env, f, a, fields, depth).value <==> !a.Unset?)
  {
  }

  /**
   When to_pb does not raise, a field that was left out is left out of the message if the class
   is the file's own, and is set in the message if the class is another file's.
   */
  lemma ForeignUnsetIsSet(env: Env, t: PyType, attrs: map<string, Attr>, f: PyField, depth: nat)
    requires t.PyMessage? && Shaped(t) && AttrsLeftAlone(env, t, attrs, depth) && ToMessage(env, t, attrs, depth + 1).Some?
    requires f in t.fields && UsesUnset(f)
    ensures ToMessage(env, t, attrs, depth + 1).value.PbMessage?
    ensures f.name in ToMessage(env, t, attrs, depth + 1).value.fields <==> !t.owner.isCurrentFile
  {
    FieldsSet(env, t.fields, attrs, depth + 1);
    assert SetAsHeld(f, attrs, ToFields(env, t.fields, attrs, depth + 1).value);
    forall o | o in t.oneofs
      ensures o.name in attrs
    {
      assert o.name in OneofNames(t.oneofs);
    }
    OneofsWritable(env, t.oneofs, attrs, DefaultUnset(t.owner), ToFields(env, t.fields, attrs, depth + 1).value, depth + 1);
  }
}
