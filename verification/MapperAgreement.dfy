/**
 When the emitted mappers compute what they are to compute: exactly when no name that they
 read on the way is captured by a variable or stands for another class.
 */
module MapperAgreement {
  import opened Wrappers
  import opened PythonTypes
  import opened PythonMappers
  import opened PythonScopes
  import opened MapperRoundTrip
  import opened MapperFill
  import opened MapperDepth
  import opened GeneratedMappers

  // from_pb: what is read on the way, said of names and of which fields are set.

  predicate ReadsRef(env: Env, scope: Scope, locals: set<string>, ref: TypeRef, pb: Pb, depth: nat)
    decreases depth, 0
  {
    match ref
    case ScalarRef(_) => true
    case EnumRef(n, publicName, owner) =>
      && ENUM_HELPER !in locals && scope.Root(owner, publicName) !in locals
      && scope.TypeNamed(owner, publicName) == Some(TypeClass(n))
    case WellKnownRef(n, _) => scope.KnownHelper("from_pb", n) !in locals && EmptyClassKept(scope, n)
    case MessageRef(n, publicName, owner) =>
      && scope.Helper("from_pb", owner, publicName) !in locals
      && (depth > 0 && pb.PbMessage? && IsMessage(env, n) ==> ReadsMessage(env, scope, env[n], pb.fields, depth - 1))
  }

  predicate ReadsField(env: Env, scope: Scope, locals: set<string>, f: PyField, fields: Fields, depth: nat)
    decreases depth, 1
  {
    && !CallsBuiltin(f, locals)
    && (if f.isRepeated then forall pb | pb in GetItems(fields, f.name) :: ReadsRef(env, scope, locals, f.typ, pb, depth)
        else if f.isMap then
          f.mapValue.Some? ==>
            var entries := GetEntries(fields, f.name);
            forall k | k in entries :: ReadsRef(env, scope, locals, f.mapValue.value, entries[k], depth)
        else if UsesUnset(f) && f.name !in fields then UNSET !in locals && UnsetKept(scope)
        else ReadsRef(env, scope, locals, f.typ, GetSingle(fields, f), depth))
  }

  predicate ReadsVariant(env: Env, scope: Scope, t: PyType, o: PyOneof, fields: Fields, depth: nat)
    requires t.PyMessage?
    decreases depth, 1
  {
    match WhichOneof(o.variants, fields)
    case None => UnsetKept(scope)
    case Some(v) =>
      && VariantCallable(scope, t, o, v)
      && (v.name in fields && fields[v.name].PSingle? ==>
            ReadsRef(env, scope, LocalNames(t), v.typ, fields[v.name].value, depth))
  }

  /** Oneof `i` loses its variable to a later oneof, whose case variable has its name. */
  predicate Overwritten(os: seq<PyOneof>, i: nat)
    requires i < |os|
  {
    exists j | i < j < |os| :: CaseName(os[j].name) == os[i].name
  }

  /** The oneofs' variables are their own: none is the argument or UNSET, none is overwritten. */
  predicate VariablesApart(os: seq<PyOneof>) {
    MESSAGE !in OneofNames(os) && UNSET !in OneofNames(os) && forall i | 0 <= i < |os| :: !Overwritten(os, i)
  }

  predicate ReadsMessage(env: Env, scope: Scope, t: PyType, fields: Fields, depth: nat)
    requires t.PyMessage?
    decreases depth, 2
  {
    && scope.loads && VariablesApart(t.oneofs) && ClassCallable(scope, t)
    && (forall f | f in t.fields && f.oneof.None? :: ReadsField(env, scope, LocalNames(t), f, fields, depth))
    && (forall o | o in t.oneofs :: ReadsVariant(env, scope, t, o, fields, depth))
  }

  /** `run` fails where `spec` does, and gives what `spec` gives exactly when nothing is in the way. */
  predicate Agrees<T(==)>(spec: Option<T>, run: Option<T>, clean: bool) {
    if spec.None? then run.None? else run == spec <==> clean
  }

  // Local variables.

  lemma CaseNames(name: string)
    ensures CaseName(name) != MESSAGE && CaseName(name) != UNSET && CaseName(name) != name
  {
    var s := CaseName(name);
    assert s[|s| - 5..] == "_case";
    if |s| == |MESSAGE| {
      assert MESSAGE[|MESSAGE| - 5..][0] == 's' && "_case"[0] == '_';
    }
    assert UNSET[|UNSET| - 1] == 'T' && s[|s| - 1] == 'e';
  }

  lemma UnsetIsLocal(t: PyType)
    requires t.PyMessage?
    ensures UNSET in LocalNames(t) <==> UNSET in OneofNames(t.oneofs)
  {
    forall o | o in t.oneofs {
      CaseNames(o.name);
    }
    assert UNSET != MESSAGE by { assert |UNSET| != |MESSAGE|; }
  }

  /** What oneof `i` has left in its variable after the first `k` oneofs. */
  predicate LeftBehind(os: seq<PyOneof>, i: nat, k: nat, local: Local, a: Attr)
    requires i < k <= |os|
  {
    if Overwritten(os[..k], i) then local.CaseOf? else local == Holds(a)
  }

  /** After the first `k` oneofs: the message is untouched and each oneof has made its own attribute. */
  ghost predicate OneofsRan(env: Env, scope: Scope, t: PyType, k: nat, fields: Fields, locals: Locals, depth: nat)
    requires t.PyMessage? && k <= |t.oneofs|
  {
    && MESSAGE in locals && locals[MESSAGE] == Argument
    && (k > 0 ==> UNSET !in LocalNames(t))
    && (forall i | 0 <= i < k :: t.oneofs[i].name != MESSAGE && t.oneofs[i].name in locals)
    && (forall i | 0 <= i < k ::
          var a := RunFromVariant(env, scope, t, t.oneofs[i], fields, depth);
          a.Some? && LeftBehind(t.oneofs, i, k, locals[t.oneofs[i].name], a.value))
  }

  lemma OverwrittenStep(os: seq<PyOneof>, i: nat, k: nat)
    requires i < k < |os|
    ensures Overwritten(os[..k + 1], i) <==> Overwritten(os[..k], i) || CaseName(os[k].name) == os[i].name
  {
    assert forall j | 0 <= j < k :: os[..k + 1][j] == os[..k][j];
  }

  lemma NotYetOverwritten(os: seq<PyOneof>, k: nat)
    requires k < |os|
    ensures !Overwritten(os[..k + 1], k)
  {
  }

  /** What one oneof's statements do to the variables. */
  lemma OneofEffect(env: Env, scope: Scope, t: PyType, o: PyOneof, fields: Fields, before: Locals, after: Locals, depth: nat)
    requires t.PyMessage? && MESSAGE in before && RunOneof(env, scope, t, o, fields, before, depth) == Some(after)
    ensures UNSET !in LocalNames(t) && o.name != MESSAGE && RunFromVariant(env, scope, t, o, fields, depth).Some?
    ensures after.Keys == before.Keys + {o.name, CaseName(o.name)}
    ensures after[o.name] == Holds(RunFromVariant(env, scope, t, o, fields, depth).value)
    ensures after[CaseName(o.name)] == CaseOf(MemberName(o, fields))
    ensures forall n | n in before && n != o.name && n != CaseName(o.name) :: after[n] == before[n]
  {
    CaseNames(o.name);
  }

  lemma LeftBehindStep(os: seq<PyOneof>, i: nat, k: nat, before: Locals, after: Locals, a: Attr)
    requires i < k < |os| && os[i].name != os[k].name
    requires os[i].name in before && os[i].name in after && CaseName(os[k].name) in after
    requires after[CaseName(os[k].name)].CaseOf?
    requires os[i].name != CaseName(os[k].name) ==> after[os[i].name] == before[os[i].name]
    requires LeftBehind(os, i, k, before[os[i].name], a)
    ensures LeftBehind(os, i, k + 1, after[os[i].name], a)
  {
    OverwrittenStep(os, i, k);
  }

  lemma OneofRan(env: Env, scope: Scope, t: PyType, k: nat, fields: Fields, before: Locals, after: Locals, depth: nat)
    requires t.PyMessage? && OneofsShaped(t.oneofs) && k < |t.oneofs| && OneofsRan(env, scope, t, k, fields, before, depth)
    requires RunOneof(env, scope, t, t.oneofs[k], fields, before, depth) == Some(after)
    ensures OneofsRan(env, scope, t, k + 1, fields, after, depth)
  {
    var os := t.oneofs;
    CaseNames(os[k].name);
    OneofEffect(env, scope, t, os[k], fields, before, after, depth);
    NotYetOverwritten(os, k);
    EarlierRan(os, k, before, after, seq(k, i requires 0 <= i < k => RunFromVariant(env, scope, t, os[i], fields, depth).value));
  }

  /** The oneofs before `k` have still left behind what they made, unless oneof `k` has overwritten it. */
  lemma EarlierRan(os: seq<PyOneof>, k: nat, before: Locals, after: Locals, made: seq<Attr>)
    requires OneofsShaped(os) && k < |os| && |made| == k
    requires forall i | 0 <= i < k :: os[i].name in before && LeftBehind(os, i, k, before[os[i].name], made[i])
    requires after.Keys == before.Keys + {os[k].name, CaseName(os[k].name)} && after[CaseName(os[k].name)].CaseOf?
    requires forall n | n in before && n != os[k].name && n != CaseName(os[k].name) :: after[n] == before[n]
    ensures forall i | 0 <= i < k :: os[i].name in after && LeftBehind(os, i, k + 1, after[os[i].name], made[i])
  {
    forall i | 0 <= i < k
      ensures os[i].name in after && LeftBehind(os, i, k + 1, after[os[i].name], made[i])
    {
      LeftBehindStep(os, i, k, before, after, made[i]);
    }
  }

  lemma {:induction false} OneofsRun(env: Env, scope: Scope, t: PyType, k: nat, fields: Fields, depth: nat)
    requires t.PyMessage? && OneofsShaped(t.oneofs) && k <= |t.oneofs|
    requires RunOneofs(env, scope, t, t.oneofs[..k], fields, depth).Some?
    ensures OneofsRan(env, scope, t, k, fields, RunOneofs(env, scope, t, t.oneofs[..k], fields, depth).value, depth)
    decreases k
  {
    if k > 0 {
      assert t.oneofs[..k][..k - 1] == t.oneofs[..k - 1];
      OneofsRun(env, scope, t, k - 1, fields, depth);
      var before := RunOneofs(env, scope, t, t.oneofs[..k - 1], fields, depth).value;
      OneofRan(env, scope, t, k - 1, fields, before, RunOneofs(env, scope, t, t.oneofs[..k], fields, depth).value, depth);
    }
  }

  /** With variables of their own, the oneofs run to the end when each can make its attribute. */
  lemma {:induction false} OneofsCanRun(env: Env, scope: Scope, t: PyType, k: nat, fields: Fields, depth: nat)
    requires t.PyMessage? && OneofsShaped(t.oneofs) && k <= |t.oneofs| && VariablesApart(t.oneofs)
    requires forall i | 0 <= i < k :: RunFromVariant(env, scope, t, t.oneofs[i], fields, depth).Some?
    ensures RunOneofs(env, scope, t, t.oneofs[..k], fields, depth).Some?
    decreases k
  {
    if k > 0 {
      assert t.oneofs[..k][..k - 1] == t.oneofs[..k - 1];
      OneofsCanRun(env, scope, t, k - 1, fields, depth);
      OneofsRun(env, scope, t, k - 1, fields, depth);
      UnsetIsLocal(t);
      assert t.oneofs[k - 1] in t.oneofs && t.oneofs[k - 1].name in OneofNames(t.oneofs);
    }
  }

  // from_pb agrees, from single references up to whole messages.

  lemma {:induction false} RefAgrees(env: Env, scope: Scope, locals: set<string>, ref: TypeRef, pb: Pb, depth: nat)
    requires EnvOk(env)
    ensures Agrees(FromRef(env, ref, pb, depth), RunFromRef(env, scope, locals, ref, pb, depth),
                   ReadsRef(env, scope, locals, ref, pb, depth))
    decreases depth, 0
  {
    if ref.MessageRef? && depth > 0 && pb.PbMessage? && pb.name == ref.fullName && IsMessage(env, ref.fullName) {
      MessageAgrees(env, scope, env[ref.fullName], pb.fields, depth - 1);
    }
  }

  lemma {:induction false} ItemsAgree(env: Env, scope: Scope, locals: set<string>, ref: TypeRef, items: seq<Pb>, depth: nat)
    requires EnvOk(env)
    ensures Agrees(FromItems(env, ref, items, depth), RunFromItems(env, scope, locals, ref, items, depth),
                   forall pb | pb in items :: ReadsRef(env, scope, locals, ref, pb, depth))
    ensures FromItems(env, ref, items, depth).Some? ==> |FromItems(env, ref, items, depth).value| == |items|
    ensures RunFromItems(env, scope, locals, ref, items, depth).Some? ==>
              |RunFromItems(env, scope, locals, ref, items, depth).value| == |items|
    decreases depth, 1, |items|
  {
    if items != [] {
      var front, last := items[..|items| - 1], items[|items| - 1];
      ItemsAgree(env, scope, locals, ref, front, depth);
      RefAgrees(env, scope, locals, ref, last, depth);
      assert items == front + [last];
      var spec, run := FromItems(env, ref, items, depth), RunFromItems(env, scope, locals, ref, items, depth);
      if spec.Some? && run.Some? {
        SameAppend(FromItems(env, ref, front, depth).value, FromRef(env, ref, last, depth).value,
                   RunFromItems(env, scope, locals, ref, front, depth).value, RunFromRef(env, scope, locals, ref, last, depth).value);
      }
    }
  }

  lemma SameAppend<T>(a: seq<T>, x: T, b: seq<T>, y: T)
    requires |a| == |b|
    ensures a + [x] == b + [y] <==> a == b && x == y
  {
    assert (a + [x])[..|a|] == a && (b + [y])[..|b|] == b;
    assert (a + [x])[|a|] == x && (b + [y])[|b|] == y;
  }

  lemma EntriesAgree(env: Env, scope: Scope, locals: set<string>, ref: TypeRef, entries: map<Leaf, Pb>, depth: nat)
    requires EnvOk(env)
    ensures Agrees(FromEntries(env, ref, entries, depth), RunFromEntries(env, scope, locals, ref, entries, depth),
                   forall k | k in entries :: ReadsRef(env, scope, locals, ref, entries[k], depth))
    decreases depth, 1
  {
    forall k | k in entries {
      RefAgrees(env, scope, locals, ref, entries[k], depth);
    }
    var spec, run := FromEntries(env, ref, entries, depth), RunFromEntries(env, scope, locals, ref, entries, depth);
    if spec.Some? && forall k | k in entries :: ReadsRef(env, scope, locals, ref, entries[k], depth) {
      assert run.Some? && run.value == spec.value;
    }
    if spec.Some? && run == spec {
      forall k | k in entries
        ensures ReadsRef(env, scope, locals, ref, entries[k], depth)
      {
        assert spec.value[k] == run.value[k];
      }
    }
  }

  lemma FieldAgrees(env: Env, scope: Scope, locals: set<string>, f: PyField, fields: Fields, depth: nat)
    requires EnvOk(env)
    ensures Agrees(FromField(env, f, fields, depth), RunFromField(env, scope, locals, f, fields, depth),
                   ReadsField(env, scope, locals, f, fields, depth))
    decreases depth, 2
  {
    if f.isRepeated {
      ItemsAgree(env, scope, locals, f.typ, GetItems(fields, f.name), depth);
    } else if f.isMap {
      if f.mapValue.Some? {
        EntriesAgree(env, scope, locals, f.mapValue.value, GetEntries(fields, f.name), depth);
      }
    } else if !(UsesUnset(f) && f.name !in fields) {
      RefAgrees(env, scope, locals, f.typ, GetSingle(fields, f), depth);
    }
  }

  lemma {:induction false} RunFieldsKeys(env: Env, scope: Scope, locals: set<string>, fs: seq<PyField>, fields: Fields, depth: nat)
    requires RunFromFields(env, scope, locals, fs, fields, depth).Some?
    ensures RunFromFields(env, scope, locals, fs, fields, depth).value.Keys == PlainNames(fs)
    decreases |fs|
  {
    if fs != [] {
      RunFieldsKeys(env, scope, locals, fs[..|fs| - 1], fields, depth);
      PlainNamesStep(fs);
    }
  }

  lemma SameUpdate<K, V>(m: map<K, V>, n: map<K, V>, k: K, x: V, y: V)
    requires k !in m && k !in n
    ensures m[k := x] == n[k := y] <==> m == n && x == y
  {
    if m[k := x] == n[k := y] {
      assert m[k := x][k] == x && n[k := y][k] == y;
      assert m == m[k := x] - {k} && n == n[k := y] - {k};
    }
  }

  lemma AgreesExtended<K, V>(spec: Option<map<K, V>>, run: Option<map<K, V>>, clean: bool, k: K, x: Option<V>, y: Option<V>, quiet: bool)
    requires Agrees(spec, run, clean) && Agrees(x, y, quiet)
    requires (spec.Some? ==> k !in spec.value) && (run.Some? ==> k !in run.value)
    ensures Agrees(Extended(spec, k, x), Extended(run, k, y), clean && quiet)
  {
    if spec.Some? && run.Some? && x.Some? && y.Some? {
      SameUpdate(spec.value, run.value, k, x.value, y.value);
    }
  }

  lemma RunFieldsStep(env: Env, scope: Scope, locals: set<string>, fs: seq<PyField>, fields: Fields, depth: nat)
    requires fs != [] && fs[|fs| - 1].oneof.None?
    ensures RunFromFields(env, scope, locals, fs, fields, depth)
         == Extended(RunFromFields(env, scope, locals, fs[..|fs| - 1], fields, depth), fs[|fs| - 1].name,
                     RunFromField(env, scope, locals, fs[|fs| - 1], fields, depth))
  {
  }

  ghost predicate AllReads(env: Env, scope: Scope, locals: set<string>, fs: seq<PyField>, fields: Fields, depth: nat) {
    forall f | f in fs && f.oneof.None? :: ReadsField(env, scope, locals, f, fields, depth)
  }

  lemma AllReadsStep(env: Env, scope: Scope, locals: set<string>, fs: seq<PyField>, fields: Fields, depth: nat)
    requires fs != []
    ensures AllReads(env, scope, locals, fs, fields, depth) <==>
              AllReads(env, scope, locals, fs[..|fs| - 1], fields, depth)
              && (fs[|fs| - 1].oneof.None? ==> ReadsField(env, scope, locals, fs[|fs| - 1], fields, depth))
  {
    assert fs == fs[..|fs| - 1] + [fs[|fs| - 1]];
  }

  lemma FieldNamesNew(env: Env, scope: Scope, locals: set<string>, fs: seq<PyField>, fields: Fields, depth: nat)
    requires FieldsShaped(fs) && fs != [] && fs[|fs| - 1].oneof.None?
    ensures var spec := FromFields(env, fs[..|fs| - 1], fields, depth); spec.Some? ==> fs[|fs| - 1].name !in spec.value
    ensures var run := RunFromFields(env, scope, locals, fs[..|fs| - 1], fields, depth); run.Some? ==> fs[|fs| - 1].name !in run.value
  {
    NameIsNew(fs, |fs| - 1);
    if FromFields(env, fs[..|fs| - 1], fields, depth).Some? {
      FieldsGive(env, fs[..|fs| - 1], fields, depth);
    }
    if RunFromFields(env, scope, locals, fs[..|fs| - 1], fields, depth).Some? {
      RunFieldsKeys(env, scope, locals, fs[..|fs| - 1], fields, depth);
    }
  }

  lemma {:induction false} FieldsAgree(env: Env, scope: Scope, locals: set<string>, fs: seq<PyField>, fields: Fields, depth: nat)
    requires EnvOk(env) && FieldsShaped(fs)
    ensures Agrees(FromFields(env, fs, fields, depth), RunFromFields(env, scope, locals, fs, fields, depth),
                   AllReads(env, scope, locals, fs, fields, depth))
    decreases depth, 3, |fs|
  {
    if fs != [] {
      var front, last := fs[..|fs| - 1], fs[|fs| - 1];
      FieldsAgree(env, scope, locals, front, fields, depth);
      AllReadsStep(env, scope, locals, fs, fields, depth);
      if last.oneof.None? {
        FieldAgrees(env, scope, locals, last, fields, depth);
        FromFieldsStep(env, fs, fields, depth);
        RunFieldsStep(env, scope, locals, fs, fields, depth);
        FieldNamesNew(env, scope, locals, fs, fields, depth);
        AgreesExtended(
          FromFields(env, front, fields, depth), RunFromFields(env, scope, locals, front, fields, depth),
          AllReads(env, scope, locals, front, fields, depth), last.name,
          FromField(env, last, fields, depth), RunFromField(env, scope, locals, last, fields, depth),
          ReadsField(env, scope, locals, last, fields, depth));
      }
    }
  }

  lemma VariantAgrees(env: Env, scope: Scope, t: PyType, o: PyOneof, fields: Fields, depth: nat)
    requires EnvOk(env) && t.PyMessage?
    ensures Agrees(FromOneof(env, o, fields, depth), RunFromVariant(env, scope, t, o, fields, depth),
                   ReadsVariant(env, scope, t, o, fields, depth))
    decreases depth, 1
  {
    var which := WhichOneof(o.variants, fields);
    if which.Some? && which.value.name in fields && fields[which.value.name].PSingle? {
      RefAgrees(env, scope, LocalNames(t), which.value.typ, fields[which.value.name].value, depth);
    }
  }

  /** The oneofs' attributes, as passed to the dataclass. */
  lemma {:induction false} PassGives(os: seq<PyOneof>, locals: Locals, attrs: map<string, Attr>)
    requires OneofsShaped(os) && attrs.Keys !! OneofNames(os) && forall o | o in os :: o.name in locals
    ensures PassOneofs(os, locals, attrs).Some?
    ensures var all := PassOneofs(os, locals, attrs).value;
            && all.Keys == attrs.Keys + OneofNames(os)
            && (forall n | n in attrs :: all[n] == attrs[n])
            && (forall o | o in os :: all[o.name] == Passed(locals[o.name]))
  {
    if os != [] {
      var front, last := os[..|os| - 1], os[|os| - 1];
      assert os == front + [last];
      OneofNamesStep(os);
      PassGives(front, locals, attrs);
      var before := PassOneofs(front, locals, attrs).value;
      PassStep(os, locals, attrs);
      assert last.name in OneofNames(os) && last.name !in attrs;
      forall o | o in os
        ensures before[last.name := Passed(locals[last.name])][o.name] == Passed(locals[o.name])
      {
        if o in front {
          var i :| 0 <= i < |front| && front[i] == o;
          assert os[i].name != last.name;
        }
      }
    }
  }

  lemma PassStep(os: seq<PyOneof>, locals: Locals, attrs: map<string, Attr>)
    requires os != [] && PassOneofs(os[..|os| - 1], locals, attrs).Some? && os[|os| - 1].name in locals
    ensures var last := os[|os| - 1];
            PassOneofs(os, locals, attrs) == Some(PassOneofs(os[..|os| - 1], locals, attrs).value[last.name := Passed(locals[last.name])])
  {
  }

  /** A whole mapper that ran: its attributes, next to what its parts made. */
  lemma MessageRan(env: Env, scope: Scope, t: PyType, fields: Fields, depth: nat)
    requires t.PyMessage? && Shaped(t) && RunFromMessage(env, scope, t, fields, depth).Some?
    ensures var v := RunFromMessage(env, scope, t, fields, depth).value;
            var attrs := RunFromFields(env, scope, LocalNames(t), t.fields, fields, depth);
            var locals := RunOneofs(env, scope, t, t.oneofs, fields, depth);
            && v.Object? && v.name == t.fullName
            && scope.loads && ClassCallable(scope, t) && attrs.Some? && locals.Some?
            && OneofsRan(env, scope, t, |t.oneofs|, fields, locals.value, depth)
            && v.attrs.Keys == PlainNames(t.fields) + OneofNames(t.oneofs)
            && attrs.value.Keys == PlainNames(t.fields)
            && (forall n | n in attrs.value :: v.attrs[n] == attrs.value[n])
            && (forall o | o in t.oneofs :: o.name in locals.value && v.attrs[o.name] == Passed(locals.value[o.name]))
  {
    assert t.oneofs[..|t.oneofs|] == t.oneofs;
    OneofsRun(env, scope, t, |t.oneofs|, fields, depth);
    var attrs := RunFromFields(env, scope, LocalNames(t), t.fields, fields, depth).value;
    var locals := RunOneofs(env, scope, t, t.oneofs, fields, depth).value;
    RunFieldsKeys(env, scope, LocalNames(t), t.fields, fields, depth);
    forall o | o in t.oneofs
      ensures o.name in locals
    {
      var i :| 0 <= i < |t.oneofs| && t.oneofs[i] == o;
    }
    PassGives(t.oneofs, locals, attrs);
  }

  /** The parts of a mapper agree. */
  ghost predicate PartsAgree(env: Env, scope: Scope, t: PyType, fields: Fields, depth: nat)
    requires t.PyMessage?
  {
    && Agrees(FromFields(env, t.fields, fields, depth), RunFromFields(env, scope, LocalNames(t), t.fields, fields, depth),
              AllReads(env, scope, LocalNames(t), t.fields, fields, depth))
    && forall o | o in t.oneofs ::
         Agrees(FromOneof(env, o, fields, depth), RunFromVariant(env, scope, t, o, fields, depth),
                ReadsVariant(env, scope, t, o, fields, depth))
  }

  lemma RunNeedsSpec(env: Env, scope: Scope, t: PyType, fields: Fields, depth: nat)
    requires t.PyMessage? && Shaped(t) && PartsAgree(env, scope, t, fields, depth)
    requires RunFromMessage(env, scope, t, fields, depth).Some?
    ensures FromMessage(env, t, fields, depth).Some?
  {
    MessageRan(env, scope, t, fields, depth);
    forall o | o in t.oneofs
      ensures FromOneof(env, o, fields, depth).Some?
    {
      var i :| 0 <= i < |t.oneofs| && t.oneofs[i] == o;
    }
    OneofsReadable(env, t.oneofs, fields, FromFields(env, t.fields, fields, depth).value, depth);
  }

  lemma CleanOneofsRun(env: Env, scope: Scope, t: PyType, fields: Fields, attrs: map<string, Attr>, depth: nat)
    requires t.PyMessage? && OneofsShaped(t.oneofs) && VariablesApart(t.oneofs)
    requires forall o | o in t.oneofs :: o.name in attrs && RunFromVariant(env, scope, t, o, fields, depth) == Some(attrs[o.name])
    ensures RunOneofs(env, scope, t, t.oneofs, fields, depth).Some?
    ensures var locals := RunOneofs(env, scope, t, t.oneofs, fields, depth).value;
            forall o | o in t.oneofs :: o.name in locals && Passed(locals[o.name]) == attrs[o.name]
  {
    assert t.oneofs[..|t.oneofs|] == t.oneofs;
    OneofsCanRun(env, scope, t, |t.oneofs|, fields, depth);
    OneofsRun(env, scope, t, |t.oneofs|, fields, depth);
    var locals := RunOneofs(env, scope, t, t.oneofs, fields, depth).value;
    forall o | o in t.oneofs
      ensures o.name in locals && Passed(locals[o.name]) == attrs[o.name]
    {
      var i :| 0 <= i < |t.oneofs| && t.oneofs[i] == o;
      assert !Overwritten(t.oneofs, i);
    }
  }

  /** Passing the oneofs' variables completes the attributes of the other fields. */
  lemma PassCompletes(t: PyType, locals: Locals, attrs: map<string, Attr>, all: map<string, Attr>)
    requires t.PyMessage? && Shaped(t) && attrs.Keys == PlainNames(t.fields)
    requires all.Keys == PlainNames(t.fields) + OneofNames(t.oneofs)
    requires forall n | n in attrs :: attrs[n] == all[n]
    requires forall o | o in t.oneofs :: o.name in locals && o.name in all && Passed(locals[o.name]) == all[o.name]
    ensures PassOneofs(t.oneofs, locals, attrs) == Some(all)
  {
    PassGives(t.oneofs, locals, attrs);
    var passed := PassOneofs(t.oneofs, locals, attrs).value;
    forall n | n in all
      ensures passed[n] == all[n]
    {
      if n in OneofNames(t.oneofs) {
        var o :| o in t.oneofs && o.name == n;
      }
    }
    assert passed == all;
  }

  lemma FieldAttrsGiven(env: Env, t: PyType, fields: Fields, all: map<string, Attr>, depth: nat)
    requires t.PyMessage? && Shaped(t) && FromFields(env, t.fields, fields, depth).Some? && Gives(env, t, fields, all, depth)
    ensures var attrs := FromFields(env, t.fields, fields, depth).value;
            attrs.Keys == PlainNames(t.fields) && forall n | n in attrs :: n in all && attrs[n] == all[n]
  {
    FieldsGive(env, t.fields, fields, depth);
    var attrs := FromFields(env, t.fields, fields, depth).value;
    forall n | n in attrs
      ensures attrs[n] == all[n]
    {
      var f :| f in t.fields && f.oneof.None? && f.name == n;
      var i :| 0 <= i < |t.fields| && t.fields[i] == f;
    }
  }

  lemma CleanMessageRuns(env: Env, scope: Scope, t: PyType, fields: Fields, depth: nat)
    requires t.PyMessage? && Shaped(t) && PartsAgree(env, scope, t, fields, depth)
    requires FromMessage(env, t, fields, depth).Some? && ReadsMessage(env, scope, t, fields, depth)
    ensures RunFromMessage(env, scope, t, fields, depth) == FromMessage(env, t, fields, depth)
  {
    MessageGives(env, t, fields, depth);
    var all := FromMessage(env, t, fields, depth).value.attrs;
    CleanOneofsRun(env, scope, t, fields, all, depth);
    FieldAttrsGiven(env, t, fields, all, depth);
    PassCompletes(t, RunOneofs(env, scope, t, t.oneofs, fields, depth).value, FromFields(env, t.fields, fields, depth).value, all);
    assert AllReads(env, scope, LocalNames(t), t.fields, fields, depth);
  }

  /** The attribute of a oneof that came out right was made by the oneof and left alone. */
  lemma OneofCameOut(env: Env, scope: Scope, t: PyType, i: nat, fields: Fields, locals: Locals, a: Attr, depth: nat)
    requires t.PyMessage? && i < |t.oneofs| && OneofsRan(env, scope, t, |t.oneofs|, fields, locals, depth)
    requires FromOneof(env, t.oneofs[i], fields, depth) == Some(a)
    requires Passed(locals[t.oneofs[i].name]) == a
    ensures !Overwritten(t.oneofs, i) && RunFromVariant(env, scope, t, t.oneofs[i], fields, depth) == Some(a)
  {
    assert t.oneofs[..|t.oneofs|] == t.oneofs;
    assert !a.Stray?;
  }

  lemma RightMessageIsClean(env: Env, scope: Scope, t: PyType, fields: Fields, depth: nat)
    requires t.PyMessage? && Shaped(t) && PartsAgree(env, scope, t, fields, depth)
    requires FromMessage(env, t, fields, depth).Some?
    requires RunFromMessage(env, scope, t, fields, depth) == FromMessage(env, t, fields, depth)
    ensures ReadsMessage(env, scope, t, fields, depth)
  {
    MessageRan(env, scope, t, fields, depth);
    MessageGives(env, t, fields, depth);
    var v := FromMessage(env, t, fields, depth).value;
    var locals := RunOneofs(env, scope, t, t.oneofs, fields, depth).value;
    forall i | 0 <= i < |t.oneofs|
      ensures !Overwritten(t.oneofs, i) && ReadsVariant(env, scope, t, t.oneofs[i], fields, depth)
      ensures t.oneofs[i].name != MESSAGE && t.oneofs[i].name != UNSET
    {
      assert t.oneofs[i] in t.oneofs;
      OneofCameOut(env, scope, t, i, fields, locals, v.attrs[t.oneofs[i].name], depth);
      assert UNSET !in LocalNames(t);
    }
    SameFieldAttrs(env, scope, t, fields, v.attrs, depth);
  }

  lemma SameFieldAttrs(env: Env, scope: Scope, t: PyType, fields: Fields, all: map<string, Attr>, depth: nat)
    requires t.PyMessage? && Shaped(t) && FromFields(env, t.fields, fields, depth).Some?
    requires RunFromFields(env, scope, LocalNames(t), t.fields, fields, depth).Some?
    requires Gives(env, t, fields, all, depth)
    requires var attrs := RunFromFields(env, scope, LocalNames(t), t.fields, fields, depth).value;
             attrs.Keys == PlainNames(t.fields) && forall n | n in attrs :: n in all && all[n] == attrs[n]
    ensures RunFromFields(env, scope, LocalNames(t), t.fields, fields, depth) == FromFields(env, t.fields, fields, depth)
  {
    FieldAttrsGiven(env, t, fields, all, depth);
    assert RunFromFields(env, scope, LocalNames(t), t.fields, fields, depth).value == FromFields(env, t.fields, fields, depth).value;
  }

  lemma MessageAgrees(env: Env, scope: Scope, t: PyType, fields: Fields, depth: nat)
    requires EnvOk(env) && t.PyMessage? && Shaped(t)
    ensures Agrees(FromMessage(env, t, fields, depth), RunFromMessage(env, scope, t, fields, depth),
                   ReadsMessage(env, scope, t, fields, depth))
    decreases depth, 4
  {
    FieldsAgree(env, scope, LocalNames(t), t.fields, fields, depth);
    forall o | o in t.oneofs {
      VariantAgrees(env, scope, t, o, fields, depth);
    }
    if RunFromMessage(env, scope, t, fields, depth).Some? {
      RunNeedsSpec(env, scope, t, fields, depth);
    }
    if FromMessage(env, t, fields, depth).Some? {
      if ReadsMessage(env, scope, t, fields, depth) {
        CleanMessageRuns(env, scope, t, fields, depth);
      } else if RunFromMessage(env, scope, t, fields, depth) == FromMessage(env, t, fields, depth) {
        RightMessageIsClean(env, scope, t, fields, depth);
      }
    }
  }

  // to_pb: which classes are tested on the way.

  predicate WritesRef(env: Env, scope: Scope, ref: TypeRef, v: Value, depth: nat)
    decreases depth, 0
  {
    && RefModuleKept(scope, ref)
    && (ref.MessageRef? && depth > 0 && v.Object? && IsMessage(env, ref.fullName) ==>
          WritesMessage(env, scope, env[ref.fullName], v.attrs, depth - 1))
  }

  predicate WritesField(env: Env, scope: Scope, f: PyField, a: Attr, depth: nat)
    decreases depth, 1
  {
    if f.isRepeated then a.Items? ==> forall v | v in a.items :: WritesRef(env, scope, f.typ, v, depth)
    else if f.isMap then
      a.Entries? && f.mapValue.Some? ==> forall k | k in a.entries :: WritesRef(env, scope, f.mapValue.value, a.entries[k], depth)
    else
      && (UsesUnset(f) && a.Unset? ==> UnsetKept(scope))
      && (IsForeignUnset(a) ==> RefModuleKept(scope, f.typ))
      && (a.Single? ==> WritesRef(env, scope, f.typ, a.value, depth))
  }

  /** The chain reaches the branch of the value's own variant, and every test before it can be made. */
  predicate WritesOneof(env: Env, scope: Scope, t: PyType, o: PyOneof, a: Attr, depth: nat)
    decreases depth, 1
  {
    && (a.Unset? ==> UnsetKept(scope))
    && (a.Chosen? && VariantOf(o.variants, a.wrapper).Some? ==>
          var v := VariantOf(o.variants, a.wrapper).value;
          && BranchTaken(scope, t, o, v)
          && WritesRef(env, scope, v.typ, a.value, depth))
  }

  predicate BranchTaken(scope: Scope, t: PyType, o: PyOneof, v: PyVariant) {
    !Private(v.name) && TakenBranch(scope, o.variants, VariantClass(t.fullName, o.name, v.name)) == Some(v)
  }

  predicate WritesMessage(env: Env, scope: Scope, t: PyType, attrs: map<string, Attr>, depth: nat)
    requires t.PyMessage?
    decreases depth, 2
  {
    && scope.loads && FieldsKept(t)
    && (forall f | f in t.fields && f.oneof.None? && f.name in attrs :: WritesField(env, scope, f, attrs[f.name], depth))
    && (forall o | o in t.oneofs && o.name in attrs :: WritesOneof(env, scope, t, o, attrs[o.name], depth))
  }

  /** The run, which stops where something is in the way and otherwise gives what it is to give. */
  function Gated<T>(spec: Option<T>, clean: bool): Option<T> {
    if clean then spec else None
  }

  lemma {:induction false} RunToRefIs(env: Env, scope: Scope, ref: TypeRef, v: Value, depth: nat)
    requires EnvOk(env)
    ensures RunToRef(env, scope, ref, v, depth) == Gated(ToRef(env, ref, v, depth), WritesRef(env, scope, ref, v, depth))
    decreases depth, 0
  {
    if ref.MessageRef? && depth > 0 && v.Object? && v.name == ref.fullName && IsMessage(env, ref.fullName) {
      RunToMessageIs(env, scope, env[ref.fullName], v.attrs, depth - 1);
    }
  }

  lemma {:induction false} RunToItemsIs(env: Env, scope: Scope, ref: TypeRef, items: seq<Value>, depth: nat)
    requires EnvOk(env)
    ensures RunToItems(env, scope, ref, items, depth)
         == Gated(ToItems(env, ref, items, depth), forall v | v in items :: WritesRef(env, scope, ref, v, depth))
    decreases depth, 1, |items|
  {
    if items != [] {
      var front, last := items[..|items| - 1], items[|items| - 1];
      RunToItemsIs(env, scope, ref, front, depth);
      RunToRefIs(env, scope, ref, last, depth);
      RunToItemsStep(env, scope, ref, items, depth);
      AllWriteStep(env, scope, ref, items, depth);
    }
  }

  function Appended<T>(front: Option<seq<T>>, last: Option<T>): Option<seq<T>> {
    if front.Some? && last.Some? then Some(front.value + [last.value]) else None
  }

  lemma RunToItemsStep(env: Env, scope: Scope, ref: TypeRef, items: seq<Value>, depth: nat)
    requires items != []
    ensures var front, last := items[..|items| - 1], items[|items| - 1];
            && RunToItems(env, scope, ref, items, depth)
               == Appended(RunToItems(env, scope, ref, front, depth), RunToRef(env, scope, ref, last, depth))
            && ToItems(env, ref, items, depth) == Appended(ToItems(env, ref, front, depth), ToRef(env, ref, last, depth))
  {
  }

  lemma AllWriteStep(env: Env, scope: Scope, ref: TypeRef, items: seq<Value>, depth: nat)
    requires items != []
    ensures (forall v | v in items :: WritesRef(env, scope, ref, v, depth)) <==>
              (forall v | v in items[..|items| - 1] :: WritesRef(env, scope, ref, v, depth))
              && WritesRef(env, scope, ref, items[|items| - 1], depth)
  {
    assert items == items[..|items| - 1] + [items[|items| - 1]];
  }

  lemma RunToEntriesIs(env: Env, scope: Scope, ref: TypeRef, entries: map<Leaf, Value>, depth: nat)
    requires EnvOk(env)
    ensures RunToEntries(env, scope, ref, entries, depth)
         == Gated(ToEntries(env, ref, entries, depth), forall k | k in entries :: WritesRef(env, scope, ref, entries[k], depth))
    decreases depth, 1
  {
    forall k | k in entries {
      RunToRefIs(env, scope, ref, entries[k], depth);
    }
    if RunToEntries(env, scope, ref, entries, depth).Some? {
      assert RunToEntries(env, scope, ref, entries, depth).value == ToEntries(env, ref, entries, depth).value;
    }
  }

  lemma RunToFieldIs(env: Env, scope: Scope, f: PyField, a: Attr, fields: Fields, depth: nat)
    requires EnvOk(env)
    ensures RunToField(env, scope, f, a, fields, depth)
         == Gated(ToField(env, f, a, fields, depth), WritesField(env, scope, f, a, depth))
    decreases depth, 2
  {
    if f.isRepeated {
      if a.Items? {
        RunToItemsIs(env, scope, f.typ, a.items, depth);
      }
    } else if f.isMap {
      if f.mapValue.Some? && a.Entries? {
        RunToEntriesIs(env, scope, f.mapValue.value, a.entries, depth);
      }
    } else if a.Single? {
      RunToRefIs(env, scope, f.typ, a.value, depth);
    }
  }

  predicate FieldsWrite(env: Env, scope: Scope, fs: seq<PyField>, attrs: map<string, Attr>, depth: nat) {
    forall f | f in fs && f.oneof.None? && f.name in attrs :: WritesField(env, scope, f, attrs[f.name], depth)
  }

  lemma FieldsWriteStep(env: Env, scope: Scope, fs: seq<PyField>, attrs: map<string, Attr>, depth: nat)
    requires fs != []
    ensures var f := fs[|fs| - 1];
            FieldsWrite(env, scope, fs, attrs, depth) <==>
              FieldsWrite(env, scope, fs[..|fs| - 1], attrs, depth)
              && (f.oneof.None? && f.name in attrs ==> WritesField(env, scope, f, attrs[f.name], depth))
  {
    assert fs == fs[..|fs| - 1] + [fs[|fs| - 1]];
  }

  lemma {:induction false} RunToFieldsIs(env: Env, scope: Scope, fs: seq<PyField>, attrs: map<string, Attr>, depth: nat)
    requires EnvOk(env)
    ensures RunToFields(env, scope, fs, attrs, depth) == Gated(ToFields(env, fs, attrs, depth), FieldsWrite(env, scope, fs, attrs, depth))
    decreases depth, 3, |fs|
  {
    if fs != [] {
      var front, f := fs[..|fs| - 1], fs[|fs| - 1];
      RunToFieldsIs(env, scope, front, attrs, depth);
      FieldsWriteStep(env, scope, fs, attrs, depth);
      if f.oneof.None? && f.name in attrs && ToFields(env, front, attrs, depth).Some? {
        RunToFieldIs(env, scope, f, attrs[f.name], ToFields(env, front, attrs, depth).value, depth);
      }
    }
  }

  lemma {:induction false} TakenBranchIn(scope: Scope, variants: seq<PyVariant>, instance: ClassKey)
    ensures TakenBranch(scope, variants, instance).Some? ==> TakenBranch(scope, variants, instance).value in variants
  {
    if variants != [] {
      TakenBranchIn(scope, variants[1..], instance);
    }
  }

  lemma RunToOneofIs(env: Env, scope: Scope, t: PyType, o: PyOneof, a: Attr, fields: Fields, depth: nat)
    requires EnvOk(env) && VariantsShaped(o.variants)
    ensures RunToOneof(env, scope, t, o, a, fields, depth)
         == Gated(ToOneof(env, o, a, fields, depth), WritesOneof(env, scope, t, o, a, depth))
    decreases depth, 2
  {
    if a.Chosen? && VariantOf(o.variants, a.wrapper).Some? {
      VariantOfIn(o.variants, a.wrapper);
      var v := VariantOf(o.variants, a.wrapper).value;
      var instance := VariantClass(t.fullName, o.name, v.name);
      TakenBranchIn(scope, o.variants, instance);
      SameVariant(o.variants, v);
      RunToRefIs(env, scope, v.typ, a.value, depth);
    }
  }

  predicate OneofsWrite(env: Env, scope: Scope, t: PyType, os: seq<PyOneof>, attrs: map<string, Attr>, depth: nat) {
    forall o | o in os && o.name in attrs :: WritesOneof(env, scope, t, o, attrs[o.name], depth)
  }

  lemma OneofsWriteStep(env: Env, scope: Scope, t: PyType, os: seq<PyOneof>, attrs: map<string, Attr>, depth: nat)
    requires os != []
    ensures var o := os[|os| - 1];
            OneofsWrite(env, scope, t, os, attrs, depth) <==>
              OneofsWrite(env, scope, t, os[..|os| - 1], attrs, depth)
              && (o.name in attrs ==> WritesOneof(env, scope, t, o, attrs[o.name], depth))
  {
    assert os == os[..|os| - 1] + [os[|os| - 1]];
  }

  lemma {:induction false} RunToOneofsIs(env: Env, scope: Scope, t: PyType, os: seq<PyOneof>, attrs: map<string, Attr>,
                                         fields: Fields, depth: nat)
    requires EnvOk(env) && forall o | o in os :: VariantsShaped(o.variants)
    ensures RunToOneofs(env, scope, t, os, attrs, fields, depth)
         == Gated(ToOneofs(env, os, attrs, fields, depth), OneofsWrite(env, scope, t, os, attrs, depth))
    decreases depth, 3, |os|
  {
    if os != [] {
      var front, o := os[..|os| - 1], os[|os| - 1];
      RunToOneofsIs(env, scope, t, front, attrs, fields, depth);
      OneofsWriteStep(env, scope, t, os, attrs, depth);
      if o.name in attrs && ToOneofs(env, front, attrs, fields, depth).Some? {
        RunToOneofIs(env, scope, t, o, attrs[o.name], ToOneofs(env, front, attrs, fields, depth).value, depth);
      }
    }
  }

  lemma RunToMessageIs(env: Env, scope: Scope, t: PyType, attrs: map<string, Attr>, depth: nat)
    requires EnvOk(env) && t.PyMessage? && Shaped(t)
    ensures RunToMessage(env, scope, t, attrs, depth)
         == Gated(ToMessage(env, t, attrs, depth), WritesMessage(env, scope, t, attrs, depth))
    decreases depth, 4
  {
    RunToFieldsIs(env, scope, t.fields, attrs, depth);
    if ToFields(env, t.fields, attrs, depth).Some? {
      RunToOneofsIs(env, scope, t, t.oneofs, attrs, ToFields(env, t.fields, attrs, depth).value, depth);
    }
  }

  // Both ways.

  /** Nothing is in the way of a value on its way to protobuf and back. */
  predicate CleanTrip(env: Env, scope: Scope, ref: TypeRef, v: Value, depth: nat) {
    && scope.loads && WritesRef(env, scope, ref, v, depth)
    && (ToRef(env, ref, v, depth).Some? ==> ReadsRef(env, scope, {}, ref, ToRef(env, ref, v, depth).value, depth))
  }

  /** What a program gives for a value that it turns into protobuf and back. */
  function ThereAndBack(env: Env, scope: Scope, ref: TypeRef, v: Value, depth: nat): Option<Value> {
    match if scope.loads then RunToRef(env, scope, ref, v, depth) else None
    case None => None
    case Some(pb) => RunFromRef(env, scope, {}, ref, pb, depth)
  }

  /**
   A well-typed value goes through the emitted to_pb and from_pb unchanged exactly when no
   name that they read on the way is captured or stands for another class.
   */
  lemma RunRoundTrip(env: Env, scope: Scope, ref: TypeRef, v: Value, depth: nat)
    requires EnvOk(env) && Fits(env, ref, v, depth)
    ensures ThereAndBack(env, scope, ref, v, depth) == Some(v) <==> CleanTrip(env, scope, ref, v, depth)
  {
    RoundTrip(env, ref, v, depth);
    RunToRefIs(env, scope, ref, v, depth);
    RefAgrees(env, scope, {}, ref, ToRef(env, ref, v, depth).value, depth);
  }
}
