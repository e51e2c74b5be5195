/**
 Names for which the emitted mappers work on every value, and names for which they fail on
 every value.
 */
module MapperNames {
  import opened Wrappers
  import opened PythonTypes
  import opened PythonMappers
  import opened PythonScopes
  import opened MapperRoundTrip
  import opened MapperFill
  import opened MapperDepth
  import opened GeneratedMappers
  import opened MapperAgreement

  // Types whose mappers read and test nothing but what the generator meant.

  predicate QuietRef(scope: Scope, locals: set<string>, ref: TypeRef) {
    match ref
    case ScalarRef(_) => true
    case EnumRef(n, publicName, owner) =>
      && ENUM_HELPER !in locals && scope.Root(owner, publicName) !in locals
      && scope.TypeNamed(owner, publicName) == Some(TypeClass(n))
    case WellKnownRef(n, _) => scope.KnownHelper("from_pb", n) !in locals && EmptyClassKept(scope, n)
    case MessageRef(_, publicName, owner) => scope.Helper("from_pb", owner, publicName) !in locals
  }

  predicate QuietField(scope: Scope, locals: set<string>, f: PyField) {
    && !CallsBuiltin(f, locals) && (UsesUnset(f) ==> UnsetKept(scope))
    && (if !f.isRepeated && f.isMap then f.mapValue.Some? ==> QuietRef(scope, locals, f.mapValue.value)
        else QuietRef(scope, locals, f.typ))
  }

  predicate QuietVariant(scope: Scope, t: PyType, o: PyOneof, v: PyVariant)
    requires t.PyMessage?
  {
    VariantCallable(scope, t, o, v) && QuietRef(scope, LocalNames(t), v.typ)
  }

  /** No name that the type's from_pb can read is captured or lost, whatever the message. */
  predicate ReadsQuietly(scope: Scope, t: PyType)
    requires t.PyMessage?
  {
    && scope.loads && VariablesApart(t.oneofs) && ClassCallable(scope, t) && (t.oneofs != [] ==> UnsetKept(scope))
    && (forall f | f in t.fields && f.oneof.None? :: QuietField(scope, LocalNames(t), f))
    && (forall o, v | o in t.oneofs && v in o.variants :: QuietVariant(scope, t, o, v))
  }

  predicate FieldWritesQuietly(scope: Scope, f: PyField) {
    && (UsesUnset(f) ==> UnsetKept(scope))
    && (if !f.isRepeated && f.isMap then f.mapValue.Some? ==> RefModuleKept(scope, f.mapValue.value)
        else RefModuleKept(scope, f.typ))
  }

  predicate VariantWritesQuietly(scope: Scope, t: PyType, o: PyOneof, v: PyVariant) {
    BranchTaken(scope, t, o, v) && RefModuleKept(scope, v.typ)
  }

  /** The same of the type's to_pb, where each variant's class has to take its own branch. */
  predicate WritesQuietly(scope: Scope, t: PyType)
    requires t.PyMessage?
  {
    && scope.loads && FieldsKept(t) && (t.oneofs != [] ==> UnsetKept(scope))
    && (forall f | f in t.fields && f.oneof.None? :: FieldWritesQuietly(scope, f))
    && (forall o, v | o in t.oneofs && v in o.variants :: VariantWritesQuietly(scope, t, o, v))
  }

  predicate AllReadQuietly(env: Env, scope: Scope, names: set<string>) {
    ClosedTypes(env, names) && forall n | n in names :: ReadsQuietly(scope, env[n])
  }

  predicate AllWriteQuietly(env: Env, scope: Scope, names: set<string>) {
    ClosedTypes(env, names) && forall n | n in names :: WritesQuietly(scope, env[n])
  }

  /** Message types that hold no others, all of them quiet. */
  predicate QuietTypes(env: Env, scope: Scope, names: set<string>) {
    AllReadQuietly(env, scope, names) && AllWriteQuietly(env, scope, names)
  }

  lemma {:induction false} QuietReads(env: Env, scope: Scope, names: set<string>, locals: set<string>, ref: TypeRef, pb: Pb, depth: nat)
    requires AllReadQuietly(env, scope, names) && RefWithin(names, ref) && QuietRef(scope, locals, ref)
    ensures ReadsRef(env, scope, locals, ref, pb, depth)
    decreases depth, 0
  {
    if ref.MessageRef? && depth > 0 && pb.PbMessage? {
      QuietMessageReads(env, scope, names, ref.fullName, pb.fields, depth - 1);
    }
  }

  lemma QuietFieldReads(env: Env, scope: Scope, names: set<string>, locals: set<string>, f: PyField, fields: Fields, depth: nat)
    requires AllReadQuietly(env, scope, names) && FieldWithin(names, f) && QuietField(scope, locals, f) && UNSET !in locals
    ensures ReadsField(env, scope, locals, f, fields, depth)
    decreases depth, 1
  {
    if f.isRepeated {
      forall pb | pb in GetItems(fields, f.name) {
        QuietReads(env, scope, names, locals, f.typ, pb, depth);
      }
    } else if f.isMap {
      if f.mapValue.Some? {
        forall k | k in GetEntries(fields, f.name) {
          QuietReads(env, scope, names, locals, f.mapValue.value, GetEntries(fields, f.name)[k], depth);
        }
      }
    } else if !(UsesUnset(f) && f.name !in fields) {
      QuietReads(env, scope, names, locals, f.typ, GetSingle(fields, f), depth);
    }
  }

  lemma QuietMessageReads(env: Env, scope: Scope, names: set<string>, n: string, fields: Fields, depth: nat)
    requires AllReadQuietly(env, scope, names) && n in names
    ensures ReadsMessage(env, scope, env[n], fields, depth)
    decreases depth, 2
  {
    var t := env[n];
    UnsetIsLocal(t);
    forall f | f in t.fields && f.oneof.None? {
      QuietFieldReads(env, scope, names, LocalNames(t), f, fields, depth);
    }
    forall o | o in t.oneofs
      ensures ReadsVariant(env, scope, t, o, fields, depth)
    {
      var which := WhichOneof(o.variants, fields);
      if which.Some? {
        WhichIn(o.variants, fields);
        assert QuietVariant(scope, t, o, which.value);
        if fields[which.value.name].PSingle? {
          QuietReads(env, scope, names, LocalNames(t), which.value.typ, fields[which.value.name].value, depth);
        }
      }
    }
  }

  lemma {:induction false} QuietWrites(env: Env, scope: Scope, names: set<string>, ref: TypeRef, v: Value, depth: nat)
    requires AllWriteQuietly(env, scope, names) && RefWithin(names, ref) && RefModuleKept(scope, ref)
    ensures WritesRef(env, scope, ref, v, depth)
    decreases depth, 0
  {
    if ref.MessageRef? && depth > 0 && v.Object? {
      QuietMessageWrites(env, scope, names, ref.fullName, v.attrs, depth - 1);
    }
  }

  lemma QuietFieldWrites(env: Env, scope: Scope, names: set<string>, f: PyField, a: Attr, depth: nat)
    requires AllWriteQuietly(env, scope, names) && FieldWithin(names, f) && FieldWritesQuietly(scope, f)
    ensures WritesField(env, scope, f, a, depth)
    decreases depth, 1
  {
    if f.isRepeated {
      if a.Items? {
        forall v | v in a.items {
          QuietWrites(env, scope, names, f.typ, v, depth);
        }
      }
    } else if f.isMap {
      if a.Entries? && f.mapValue.Some? {
        forall k | k in a.entries {
          QuietWrites(env, scope, names, f.mapValue.value, a.entries[k], depth);
        }
      }
    } else if a.Single? {
      QuietWrites(env, scope, names, f.typ, a.value, depth);
    }
  }

  lemma QuietMessageWrites(env: Env, scope: Scope, names: set<string>, n: string, attrs: map<string, Attr>, depth: nat)
    requires AllWriteQuietly(env, scope, names) && n in names
    ensures WritesMessage(env, scope, env[n], attrs, depth)
    decreases depth, 2
  {
    var t := env[n];
    forall f | f in t.fields && f.oneof.None? && f.name in attrs {
      QuietFieldWrites(env, scope, names, f, attrs[f.name], depth);
    }
    forall o | o in t.oneofs && o.name in attrs
      ensures WritesOneof(env, scope, t, o, attrs[o.name], depth)
    {
      var a := attrs[o.name];
      if a.Chosen? && VariantOf(o.variants, a.wrapper).Some? {
        VariantOfIn(o.variants, a.wrapper);
        var v := VariantOf(o.variants, a.wrapper).value;
        assert VariantWritesQuietly(scope, t, o, v);
        QuietWrites(env, scope, names, v.typ, a.value, depth);
      }
    }
  }

  /** With quiet types every well-typed value comes back. */
  lemma QuietRoundTrip(env: Env, scope: Scope, names: set<string>, ref: TypeRef, v: Value, depth: nat)
    requires EnvOk(env) && QuietTypes(env, scope, names) && RefWithin(names, ref)
    requires scope.loads && QuietRef(scope, {}, ref) && RefModuleKept(scope, ref)
    requires Fits(env, ref, v, depth)
    ensures ThereAndBack(env, scope, ref, v, depth) == Some(v)
  {
    RunRoundTrip(env, scope, ref, v, depth);
    RoundTrip(env, ref, v, depth);
    QuietWrites(env, scope, names, ref, v, depth);
    QuietReads(env, scope, names, {}, ref, ToRef(env, ref, v, depth).value, depth);
  }

  /** The emitted from_pb and to_pb fill the message, and what they make of it goes through unchanged. */
  predicate FillsInTwo(env: Env, scope: Scope, ref: TypeRef, pb: Pb, depth: nat) {
    var v := RunFromRef(env, scope, {}, ref, pb, depth);
    && v.Some?
    && var full := RunToRef(env, scope, ref, v.value, depth);
       full.Some? && Filled(env, ref, pb, full.value, depth) && RunFromRef(env, scope, {}, ref, full.value, depth) == v
  }

  /**
   With quiet, fillable types every well-formed message goes through the emitted from_pb and
   to_pb and comes out filled; what comes out goes through unchanged.
   */
  lemma QuietFill(env: Env, scope: Scope, names: set<string>, ref: TypeRef, pb: Pb, height: nat)
    requires EnvOk(env) && QuietTypes(env, scope, names) && RefWithin(names, ref)
    requires QuietRef(scope, {}, ref) && RefModuleKept(scope, ref)
    requires AllZeroesVisible(env, names) && TrapFree(env, names) && Sound(env, ref, pb, height)
    ensures FillsInTwo(env, scope, ref, pb, height + |names|)
  {
    var depth := height + |names|;
    FillsAndSettles(env, names, ref, pb, height);
    QuietRuns(env, scope, names, ref, pb, depth);
  }

  /** With quiet types the emitted mappers do what they are to do. */
  lemma QuietRuns(env: Env, scope: Scope, names: set<string>, ref: TypeRef, pb: Pb, depth: nat)
    requires EnvOk(env) && QuietTypes(env, scope, names) && RefWithin(names, ref)
    requires QuietRef(scope, {}, ref) && RefModuleKept(scope, ref)
    requires FromRef(env, ref, pb, depth).Some? && ToRef(env, ref, FromRef(env, ref, pb, depth).value, depth).Some?
    requires FromRef(env, ref, ToRef(env, ref, FromRef(env, ref, pb, depth).value, depth).value, depth) == FromRef(env, ref, pb, depth)
    ensures var v := FromRef(env, ref, pb, depth);
            && RunFromRef(env, scope, {}, ref, pb, depth) == v
            && RunToRef(env, scope, ref, v.value, depth) == ToRef(env, ref, v.value, depth)
            && RunFromRef(env, scope, {}, ref, ToRef(env, ref, v.value, depth).value, depth) == v
  {
    var v := FromRef(env, ref, pb, depth).value;
    QuietReadsRight(env, scope, names, ref, pb, depth);
    QuietReadsRight(env, scope, names, ref, ToRef(env, ref, v, depth).value, depth);
    RunToRefIs(env, scope, ref, v, depth);
    QuietWrites(env, scope, names, ref, v, depth);
  }

  lemma QuietReadsRight(env: Env, scope: Scope, names: set<string>, ref: TypeRef, pb: Pb, depth: nat)
    requires EnvOk(env) && AllReadQuietly(env, scope, names) && RefWithin(names, ref) && QuietRef(scope, {}, ref)
    requires FromRef(env, ref, pb, depth).Some?
    ensures RunFromRef(env, scope, {}, ref, pb, depth) == FromRef(env, ref, pb, depth)
  {
    RefAgrees(env, scope, {}, ref, pb, depth);
    QuietReads(env, scope, names, {}, ref, pb, depth);
  }

  // The names decide.

  /** Every list and map of the message has something in it, and every field that may be left out is there. */
  predicate Full(t: PyType, fields: Fields)
    requires t.PyMessage?
  {
    forall f | f in t.fields && f.oneof.None? ::
      && (f.isRepeated ==> GetItems(fields, f.name) != [])
      && (!f.isRepeated && f.isMap ==> GetEntries(fields, f.name) != map[])
      && (UsesUnset(f) ==> f.name in fields)
  }

  /** No field that may be left out is there, and no oneof has a member set. */
  predicate Bare(t: PyType, fields: Fields)
    requires t.PyMessage?
  {
    && (forall f | f in t.fields && UsesUnset(f) :: f.name !in fields)
    && (forall o | o in t.oneofs :: WhichOneof(o.variants, fields).None?)
  }

  ghost predicate ReadableBare(env: Env, t: PyType, depth: nat)
    requires t.PyMessage?
  {
    exists fields :: Bare(t, fields) && FromMessage(env, t, fields, depth).Some?
  }

  ghost predicate ReadableFull(env: Env, t: PyType, depth: nat)
    requires t.PyMessage?
  {
    exists fields :: Full(t, fields) && FromMessage(env, t, fields, depth).Some?
  }

  ghost predicate ReadableWith(env: Env, t: PyType, o: PyOneof, v: PyVariant, depth: nat)
    requires t.PyMessage?
  {
    exists fields :: WhichOneof(o.variants, fields) == Some(v) && FromMessage(env, t, fields, depth).Some?
  }

  /** The type has readable messages of all kinds: a bare one, a full one, and one for each oneof member. */
  ghost predicate Exercised(env: Env, t: PyType, depth: nat)
    requires t.PyMessage?
  {
    && ReadableBare(env, t, depth) && ReadableFull(env, t, depth)
    && forall o, v | o in t.oneofs && v in o.variants :: ReadableWith(env, t, o, v, depth)
  }

  /** The emitted from_pb of a type gives what it is to give, for every message that can be read. */
  ghost predicate ReadsRight(env: Env, scope: Scope, t: PyType, depth: nat)
    requires t.PyMessage?
  {
    forall fields | FromMessage(env, t, fields, depth).Some? ::
      RunFromMessage(env, scope, t, fields, depth) == FromMessage(env, t, fields, depth)
  }

  lemma FullFieldDecides(env: Env, scope: Scope, locals: set<string>, f: PyField, fields: Fields, depth: nat)
    requires ReadsField(env, scope, locals, f, fields, depth) && f.oneof.None?
    requires f.isRepeated ==> GetItems(fields, f.name) != []
    requires !f.isRepeated && f.isMap ==> GetEntries(fields, f.name) != map[]
    requires UsesUnset(f) ==> f.name in fields && UnsetKept(scope)
    ensures QuietField(scope, locals, f)
  {
    if f.isRepeated {
      var pb := GetItems(fields, f.name)[0];
      assert ReadsRef(env, scope, locals, f.typ, pb, depth);
    } else if f.isMap {
      if f.mapValue.Some? {
        var k :| k in GetEntries(fields, f.name);
        assert ReadsRef(env, scope, locals, f.mapValue.value, GetEntries(fields, f.name)[k], depth);
      }
    }
  }

  lemma RightMeansReads(env: Env, scope: Scope, t: PyType, fields: Fields, depth: nat)
    requires EnvOk(env) && t.PyMessage? && Shaped(t) && ReadsRight(env, scope, t, depth) && FromMessage(env, t, fields, depth).Some?
    ensures ReadsMessage(env, scope, t, fields, depth)
  {
    MessageAgrees(env, scope, t, fields, depth);
  }

  lemma MemberDecides(env: Env, scope: Scope, t: PyType, o: PyOneof, v: PyVariant, fields: Fields, depth: nat)
    requires t.PyMessage? && WhichOneof(o.variants, fields) == Some(v) && ReadsVariant(env, scope, t, o, fields, depth)
    requires FromOneof(env, o, fields, depth).Some?
    ensures QuietVariant(scope, t, o, v)
  {
  }

  lemma OneofWasRead(env: Env, t: PyType, o: PyOneof, fields: Fields, depth: nat)
    requires t.PyMessage? && Shaped(t) && o in t.oneofs && FromMessage(env, t, fields, depth).Some?
    ensures FromOneof(env, o, fields, depth).Some?
  {
    MessageGives(env, t, fields, depth);
  }

  lemma ExercisedVariant(env: Env, scope: Scope, t: PyType, o: PyOneof, v: PyVariant, depth: nat)
    requires EnvOk(env) && t.PyMessage? && Shaped(t) && ReadsRight(env, scope, t, depth) && o in t.oneofs
    requires ReadableWith(env, t, o, v, depth)
    ensures QuietVariant(scope, t, o, v)
  {
    var fields :| WhichOneof(o.variants, fields) == Some(v) && FromMessage(env, t, fields, depth).Some?;
    RightMeansReads(env, scope, t, fields, depth);
    OneofWasRead(env, t, o, fields, depth);
    MemberDecides(env, scope, t, o, v, fields, depth);
  }

  /** Reading a bare message gives UNSET for all that can be left out. */
  lemma BareDecides(env: Env, scope: Scope, t: PyType, depth: nat)
    requires EnvOk(env) && t.PyMessage? && Shaped(t) && ReadableBare(env, t, depth) && ReadsRight(env, scope, t, depth)
    ensures forall f | f in t.fields && UsesUnset(f) :: UnsetKept(scope)
    ensures t.oneofs != [] ==> UnsetKept(scope)
  {
    var bare :| Bare(t, bare) && FromMessage(env, t, bare, depth).Some?;
    RightMeansReads(env, scope, t, bare, depth);
    if t.oneofs != [] {
      assert t.oneofs[0] in t.oneofs;
    }
  }

  lemma RightIsQuiet(env: Env, scope: Scope, t: PyType, depth: nat)
    requires EnvOk(env) && t.PyMessage? && Shaped(t) && Exercised(env, t, depth) && ReadsRight(env, scope, t, depth)
    ensures ReadsQuietly(scope, t)
  {
    BareDecides(env, scope, t, depth);
    var full :| Full(t, full) && FromMessage(env, t, full, depth).Some?;
    RightMeansReads(env, scope, t, full, depth);
    forall f | f in t.fields && f.oneof.None? {
      FullFieldDecides(env, scope, LocalNames(t), f, full, depth);
    }
    forall o, v | o in t.oneofs && v in o.variants {
      ExercisedVariant(env, scope, t, o, v, depth);
    }
  }

  /**
   When a type has readable messages of all kinds, and the other types that it holds are
   quiet, its emitted from_pb is right on every message exactly when its module loads, its own
   names capture nothing and its classes are what their names stand for.
   */
  lemma NamesDecide(env: Env, scope: Scope, names: set<string>, n: string, depth: nat)
    requires EnvOk(env) && ClosedTypes(env, names) && n in names && Exercised(env, env[n], depth)
    requires forall m | m in names && m != n :: ReadsQuietly(scope, env[m])
    ensures ReadsRight(env, scope, env[n], depth) <==> ReadsQuietly(scope, env[n])
  {
    if ReadsQuietly(scope, env[n]) {
      forall fields | FromMessage(env, env[n], fields, depth).Some?
        ensures RunFromMessage(env, scope, env[n], fields, depth) == FromMessage(env, env[n], fields, depth)
      {
        MessageAgrees(env, scope, env[n], fields, depth);
        QuietMessageReads(env, scope, names, n, fields, depth);
      }
    }
    if ReadsRight(env, scope, env[n], depth) {
      RightIsQuiet(env, scope, env[n], depth);
    }
  }

  // Names that always fail.

  lemma RanMeansApart(env: Env, scope: Scope, t: PyType, fields: Fields, depth: nat)
    requires t.PyMessage? && OneofsShaped(t.oneofs) && RunOneofs(env, scope, t, t.oneofs, fields, depth).Some?
    ensures MESSAGE !in OneofNames(t.oneofs) && UNSET !in OneofNames(t.oneofs)
  {
    assert t.oneofs[..|t.oneofs|] == t.oneofs;
    OneofsRun(env, scope, t, |t.oneofs|, fields, depth);
    UnsetIsLocal(t);
    forall o | o in t.oneofs
      ensures o.name != MESSAGE && o.name != UNSET
    {
      var i :| 0 <= i < |t.oneofs| && t.oneofs[i] == o;
    }
  }

  /** A oneof called `message` or `UNSET` makes from_pb raise on every message. */
  lemma CapturedNeverReads(env: Env, scope: Scope, t: PyType, fields: Fields, depth: nat)
    requires t.PyMessage? && OneofsShaped(t.oneofs) && (MESSAGE in OneofNames(t.oneofs) || UNSET in OneofNames(t.oneofs))
    ensures RunFromMessage(env, scope, t, fields, depth).None?
  {
    if RunOneofs(env, scope, t, t.oneofs, fields, depth).Some? {
      RanMeansApart(env, scope, t, fields, depth);
    }
  }

  /** A oneof `x_case` before a oneof `x` loses its variable: no message comes out as it should. */
  lemma OverwrittenNeverRight(env: Env, scope: Scope, t: PyType, fields: Fields, i: nat, j: nat, depth: nat)
    requires EnvOk(env) && t.PyMessage? && Shaped(t) && i < j < |t.oneofs| && t.oneofs[i].name == CaseName(t.oneofs[j].name)
    requires FromMessage(env, t, fields, depth).Some?
    ensures RunFromMessage(env, scope, t, fields, depth) != FromMessage(env, t, fields, depth)
  {
    MessageAgrees(env, scope, t, fields, depth);
    assert Overwritten(t.oneofs, i);
  }

  /** A list of scalars in a message with a oneof called `list` makes from_pb raise on every message. */
  lemma {:induction false} ShadowedListNeverReads(env: Env, scope: Scope, t: PyType, f: PyField, fields: Fields, depth: nat)
    requires EnvOk(env) && t.PyMessage? && Shaped(t) && LIST in OneofNames(t.oneofs)
    requires f in t.fields && f.oneof.None? && f.isRepeated && f.typ.ScalarRef?
    requires FromMessage(env, t, fields, depth).Some?
    ensures RunFromMessage(env, scope, t, fields, depth) != FromMessage(env, t, fields, depth)
  {
    MessageAgrees(env, scope, t, fields, depth);
    var o :| o in t.oneofs && o.name == LIST;
    assert LIST in LocalNames(t);
    assert CallsBuiltin(f, LocalNames(t));
    assert !ReadsField(env, scope, LocalNames(t), f, fields, depth);
    assert !ReadsMessage(env, scope, t, fields, depth);
  }

  /** In a module that cannot be loaded no mapper works. */
  lemma UnloadedNeverWorks(env: Env, scope: Scope, t: PyType, fields: Fields, attrs: map<string, Attr>, depth: nat)
    requires !scope.loads && t.PyMessage?
    ensures RunFromMessage(env, scope, t, fields, depth).None? && RunToMessage(env, scope, t, attrs, depth).None?
    ensures forall ref, v :: ThereAndBack(env, scope, ref, v, depth).None?
  {
  }

  /** Nor do the mappers of a type whose class does not get the fields that it is to have. */
  lemma LostFieldsNeverWork(env: Env, scope: Scope, t: PyType, fields: Fields, attrs: map<string, Attr>, depth: nat)
    requires t.PyMessage? && !FieldsKept(t)
    ensures RunFromMessage(env, scope, t, fields, depth).None? && RunToMessage(env, scope, t, attrs, depth).None?
  {
  }

  /** The type has something that can be left out, and so needs UNSET. */
  predicate LeavesOut(t: PyType)
    requires t.PyMessage?
  {
    t.oneofs != [] || exists f | f in t.fields :: UsesUnset(f)
  }

  /** When a class has taken the name UNSET, a message with all left out that can be does not come out as it should. */
  lemma TakenUnsetNeverReads(env: Env, scope: Scope, t: PyType, fields: Fields, depth: nat)
    requires EnvOk(env) && t.PyMessage? && Shaped(t) && LeavesOut(t) && !UnsetKept(scope)
    requires Bare(t, fields) && FromMessage(env, t, fields, depth).Some?
    ensures RunFromMessage(env, scope, t, fields, depth) != FromMessage(env, t, fields, depth)
  {
    MessageAgrees(env, scope, t, fields, depth);
    if t.oneofs != [] {
      assert t.oneofs[0] in t.oneofs;
      assert !ReadsVariant(env, scope, t, t.oneofs[0], fields, depth);
    } else {
      var f :| f in t.fields && UsesUnset(f);
      assert !ReadsField(env, scope, LocalNames(t), f, fields, depth);
    }
  }

  // The smallest such type.

  const HOME := Owner("p.proto", true)
  const TEXT := ScalarRef(Text)

  /** `message Note { oneof message { string text = 1; } }` */
  const NOTE: PyType :=
    PyMessage(
      "p.Note", "Note", HOME,
      [PyField("text", "text", 1, TEXT, false, false, Unknown, None, true, false, Some("message"), "NoteMessageTextVariant")],
      [PyOneof("message", "NoteMessageVariant", [PyVariant("text", 1, "NoteMessageTextVariant", TEXT, true)])])

  const NOTE_REF := MessageRef("p.Note", "Note", HOME)

  /** What from_pb is to give for an empty message, and what the emitted mapper does instead. */
  lemma NoteNeverReads(scope: Scope, fields: Fields, depth: nat)
    ensures EnvOk(map["p.Note" := NOTE])
    ensures FromRef(map["p.Note" := NOTE], NOTE_REF, PbMessage("p.Note", map[]), depth + 1) ==
              Some(Object("p.Note", map["message" := Unset]))
    ensures RunFromRef(map["p.Note" := NOTE], scope, {}, NOTE_REF, PbMessage("p.Note", fields), depth).None?
  {
    var env := map["p.Note" := NOTE];
    assert NOTE.oneofs[0] in NOTE.oneofs;
    assert MESSAGE in OneofNames(NOTE.oneofs);
    assert PlainNames(NOTE.fields) == {};
    forall d: nat {
      CapturedNeverReads(env, scope, NOTE, fields, d);
    }
    assert FromFields(env, NOTE.fields, map[], depth) == Some(map[]) by {
      assert NOTE.fields[..0] == [];
    }
    assert FromOneofs(env, NOTE.oneofs, map[], map[], depth) == Some(map["message" := Unset]) by {
      assert NOTE.oneofs[..0] == [];
      assert WhichOneof(NOTE.oneofs[0].variants, map[]) == None by {
        NoMemberIsSet(NOTE.oneofs[0].variants, map[]);
      }
    }
  }
}
