/**
 The conditions on names written out: which names a mapper looks up, and what each must stand for,
 so that the mapper works for every message, and for every value, of its type.
 */
module HarmlessNames {
  import opened Wrappers
  import opened WellKnownTypes
  import opened PythonTypes
  import opened PythonMappers
  import opened PythonScopes
  import opened MapperRoundTrip
  import opened GeneratedMappers
  import opened MapperAgreement
  import opened MapperNames

  /** The mapper assigns the name somewhere, so that it is a variable of its own everywhere in it. */
  predicate IsVariable(t: PyType, s: string)
    requires t.PyMessage?
  {
    s == "message" || exists o | o in t.oneofs :: s == o.name || s == o.name + "_case"
  }

  /** Of the definitions of this name the last one is of this class. */
  predicate LastIs(defs: seq<Definition>, name: string, key: ClassKey) {
    exists i | 0 <= i < |defs| :: defs[i] == Definition(name, key) && forall j | i < j < |defs| :: defs[j].name != name
  }

  lemma {:induction false} LastIsResolved(defs: seq<Definition>, name: string, key: ClassKey)
    ensures LastIs(defs, name, key) <==> Resolve(defs, name) == Some(key)
  {
    if defs != [] {
      var n := |defs| - 1;
      LastIsResolved(defs[..n], name, key);
      if defs[n].name == name {
        if LastIs(defs, name, key) {
          var i :| 0 <= i < |defs| && defs[i] == Definition(name, key) && forall j | i < j < |defs| :: defs[j].name != name;
          assert i == n;
        }
      } else {
        LastIsShorter(defs, name, key);
      }
    }
  }

  lemma LastIsShorter(defs: seq<Definition>, name: string, key: ClassKey)
    requires defs != [] && defs[|defs| - 1].name != name
    ensures LastIs(defs, name, key) <==> LastIs(defs[..|defs| - 1], name, key)
  {
    var front := defs[..|defs| - 1];
    if i :| 0 <= i < |defs| && defs[i] == Definition(name, key) && forall j | i < j < |defs| :: defs[j].name != name {
      assert front[i] == Definition(name, key);
      assert forall j | i < j < |front| :: front[j] == defs[j];
    }
    if i :| 0 <= i < |front| && front[i] == Definition(name, key) && forall j | i < j < |front| :: front[j].name != name {
      assert defs[i] == Definition(name, key);
      assert forall j | i < j < |defs| :: defs[j].name != name;
    }
  }

  /** The class of a type, under its public name, in the module of its file. */
  predicate ClassThere(scope: Scope, owner: Owner, publicName: string, fullName: string) {
    if owner.isCurrentFile then LastIs(scope.own, publicName, TypeClass(fullName))
    else owner.protoPath in scope.imported && LastIs(scope.imported[owner.protoPath], publicName, TypeClass(fullName))
  }

  /** What the name of a class begins with: itself, or the alias of its module. */
  function FirstWord(scope: Scope, owner: Owner, publicName: string): string {
    if owner.isCurrentFile then publicName else if owner.protoPath in scope.aliases then scope.aliases[owner.protoPath] else ""
  }

  predicate HarmlessRef(scope: Scope, t: PyType, ref: TypeRef)
    requires t.PyMessage?
  {
    match ref
    case ScalarRef(_) => true
    case EnumRef(n, publicName, owner) =>
      && !IsVariable(t, "_enum_from_pb") && !IsVariable(t, FirstWord(scope, owner, publicName))
      && ClassThere(scope, owner, publicName, n)
    case WellKnownRef(n, _) =>
      && !IsVariable(t, "_from_pb_" + match WellKnownOf(n) case Some(k) => KnownSuffix(k) case None => "")
      && (WellKnownOf(n) == Some(EmptyType) ==> LastIs(scope.own, "Empty", Builtin("Empty")))
    case MessageRef(_, publicName, owner) =>
      if owner.isCurrentFile then !IsVariable(t, "_from_pb_" + SnakeCase(publicName))
      else !IsVariable(t, "_from_pb_" + (SnakeCase(FirstWord(scope, owner, publicName)) + "_") + SnakeCase(publicName))
  }

  predicate HarmlessField(scope: Scope, t: PyType, f: PyField)
    requires t.PyMessage?
  {
    if f.isRepeated then HarmlessRef(scope, t, f.typ) && (f.typ.ScalarRef? ==> !IsVariable(t, "list"))
    else if f.isMap then
      && (f.mapValue.None? || f.mapValue.value.ScalarRef? ==> !IsVariable(t, "dict"))
      && (f.mapValue.Some? ==> HarmlessRef(scope, t, f.mapValue.value))
    else HarmlessRef(scope, t, f.typ) && (f.hasPresence && !f.isSchemaRequired ==> LastIs(scope.own, "UNSET", Builtin("UNSET")))
  }

  /** Two underscores begin the name and do not end it. */
  predicate Mangled(s: string) {
    |s| > 2 && s[..2] == "__" && s[|s| - 2..] != "__"
  }

  /** A list or map called UNSET stands before a member that has UNSET for its default. */
  predicate HidesUnset(t: PyType)
    requires t.PyMessage?
  {
    exists i | 0 <= i < |t.fields| ::
      && t.fields[i].name == "UNSET" && t.fields[i].oneof.None? && (t.fields[i].isRepeated || t.fields[i].isMap)
      && (t.oneofs != [] || exists j | i < j < |t.fields| ::
            && t.fields[j].oneof.None? && !t.fields[j].isRepeated && !t.fields[j].isMap
            && t.fields[j].hasPresence && !t.fields[j].isSchemaRequired)
  }

  predicate HarmlessMembers(t: PyType)
    requires t.PyMessage?
  {
    && (forall f | f in t.fields && f.oneof.None? :: !Mangled(f.name))
    && (forall o | o in t.oneofs :: !Mangled(o.name))
    && !HidesUnset(t)
  }

  predicate HarmlessOneofs(scope: Scope, t: PyType)
    requires t.PyMessage?
  {
    && (forall o | o in t.oneofs :: o.name != "message" && o.name != "UNSET")
    && (forall i, j | 0 <= i < j < |t.oneofs| :: t.oneofs[j].name + "_case" != t.oneofs[i].name)
    && (t.oneofs != [] ==> LastIs(scope.own, "UNSET", Builtin("UNSET")))
    && (forall o, v | o in t.oneofs && v in o.variants ::
          && !IsVariable(t, v.wrapper) && !Mangled(v.name) && LastIs(scope.own, v.wrapper, VariantClass(t.fullName, o.name, v.name))
          && HarmlessRef(scope, t, v.typ))
  }

  // These are the conditions.

  lemma Variables(t: PyType, s: string)
    requires t.PyMessage?
    ensures s in LocalNames(t) <==> IsVariable(t, s)
  {
  }

  lemma MangledIsPrivate(s: string)
    ensures Mangled(s) <==> Private(s)
  {
    if |s| > 2 {
      assert s[..2] == [s[0], s[1]] && s[|s| - 2..] == [s[|s| - 2], s[|s| - 1]];
      assert "__" == ['_', '_'];
    }
  }

  lemma HelperPrefix()
    ensures "_" + "from_pb" + "_" == "_from_pb_"
  {
  }

  lemma HelperName(scope: Scope, owner: Owner, publicName: string)
    ensures owner.isCurrentFile ==> scope.Helper("from_pb", owner, publicName) == "_from_pb_" + SnakeCase(publicName)
    ensures !owner.isCurrentFile ==>
              scope.Helper("from_pb", owner, publicName) ==
              "_from_pb_" + (SnakeCase(FirstWord(scope, owner, publicName)) + "_") + SnakeCase(publicName)
  {
    HelperPrefix();
    assert "_from_pb_" + "" == "_from_pb_";
  }

  lemma ClassIs(scope: Scope, owner: Owner, publicName: string, fullName: string)
    ensures ClassThere(scope, owner, publicName, fullName) <==> scope.TypeNamed(owner, publicName) == Some(TypeClass(fullName))
    ensures FirstWord(scope, owner, publicName) == scope.Root(owner, publicName)
  {
    LastIsResolved(scope.own, publicName, TypeClass(fullName));
    if owner.protoPath in scope.imported {
      LastIsResolved(scope.imported[owner.protoPath], publicName, TypeClass(fullName));
    }
  }

  lemma KnownIs(scope: Scope, t: PyType, n: string, owner: Owner)
    requires t.PyMessage?
    ensures QuietRef(scope, LocalNames(t), WellKnownRef(n, owner)) <==> HarmlessRef(scope, t, WellKnownRef(n, owner))
  {
    HelperPrefix();
    Variables(t, scope.KnownHelper("from_pb", n));
    LastIsResolved(scope.own, "Empty", Builtin("Empty"));
  }

  lemma RefIs(scope: Scope, t: PyType, ref: TypeRef)
    requires t.PyMessage?
    ensures QuietRef(scope, LocalNames(t), ref) <==> HarmlessRef(scope, t, ref)
  {
    match ref
    case ScalarRef(_) =>
    case EnumRef(n, publicName, owner) =>
      Variables(t, "_enum_from_pb");
      Variables(t, FirstWord(scope, owner, publicName));
      ClassIs(scope, owner, publicName, n);
    case WellKnownRef(n, owner) => KnownIs(scope, t, n, owner);
    case MessageRef(_, publicName, owner) =>
      HelperName(scope, owner, publicName);
      Variables(t, scope.Helper("from_pb", owner, publicName));
  }

  lemma FieldIs(scope: Scope, t: PyType, f: PyField)
    requires t.PyMessage? && f.oneof.None?
    ensures QuietField(scope, LocalNames(t), f) <==> HarmlessField(scope, t, f)
  {
    Variables(t, "list");
    Variables(t, "dict");
    RefIs(scope, t, f.typ);
    if f.mapValue.Some? {
      RefIs(scope, t, f.mapValue.value);
    }
    LastIsResolved(scope.own, "UNSET", Builtin("UNSET"));
  }

  lemma MembersAre(t: PyType)
    requires t.PyMessage?
    ensures FieldsKept(t) <==> HarmlessMembers(t)
  {
    forall f | f in t.fields {
      MangledIsPrivate(f.name);
    }
    forall o | o in t.oneofs {
      MangledIsPrivate(o.name);
    }
    HidingIs(t);
  }

  lemma HidingIs(t: PyType)
    requires t.PyMessage?
    ensures UnsetHidden(t) <==> HidesUnset(t)
  {
    forall f | f in t.fields
      ensures UsesUnset(f) <==> f.oneof.None? && !f.isRepeated && !f.isMap && f.hasPresence && !f.isSchemaRequired
    {
    }
  }

  lemma OneofsAre(scope: Scope, t: PyType)
    requires t.PyMessage?
    ensures HarmlessOneofs(scope, t) <==>
              && VariablesApart(t.oneofs) && (t.oneofs != [] ==> UnsetKept(scope))
              && forall o, v | o in t.oneofs && v in o.variants :: QuietVariant(scope, t, o, v)
  {
    LastIsResolved(scope.own, "UNSET", Builtin("UNSET"));
    NamesApart(t.oneofs);
    forall o, v | o in t.oneofs && v in o.variants {
      VariantIs(scope, t, o, v);
    }
  }

  lemma NamesApart(os: seq<PyOneof>)
    ensures VariablesApart(os) <==>
              && (forall o | o in os :: o.name != "message" && o.name != "UNSET")
              && forall i, j | 0 <= i < j < |os| :: os[j].name + "_case" != os[i].name
  {
    assert forall n :: n in OneofNames(os) <==> exists o | o in os :: o.name == n;
    forall i, j | 0 <= i < j < |os|
      ensures os[j].name + "_case" == os[i].name ==> Overwritten(os, i)
    {
      assert CaseName(os[j].name) == os[j].name + "_case";
    }
  }

  lemma VariantIs(scope: Scope, t: PyType, o: PyOneof, v: PyVariant)
    requires t.PyMessage?
    ensures QuietVariant(scope, t, o, v) <==>
              && !IsVariable(t, v.wrapper) && !Mangled(v.name) && LastIs(scope.own, v.wrapper, VariantClass(t.fullName, o.name, v.name))
              && HarmlessRef(scope, t, v.typ)
  {
    Variables(t, v.wrapper);
    MangledIsPrivate(v.name);
    LastIsResolved(scope.own, v.wrapper, VariantClass(t.fullName, o.name, v.name));
    RefIs(scope, t, v.typ);
  }

  /**
   A type is harmless to read, that is from_pb works for all of its messages as far as names go, exactly
   when its module loads, its class is found under a name that is no variable, its members are kept, and
   every name that its fields and oneofs make the mapper look up is what it is meant to be.
   */
  lemma HarmlessToRead(scope: Scope, t: PyType)
    requires t.PyMessage?
    ensures ReadsQuietly(scope, t) <==>
              && scope.loads && !IsVariable(t, FirstWord(scope, t.owner, t.publicName))
              && ClassThere(scope, t.owner, t.publicName, t.fullName)
              && HarmlessMembers(t) && HarmlessOneofs(scope, t)
              && forall f | f in t.fields && f.oneof.None? :: HarmlessField(scope, t, f)
  {
    Variables(t, FirstWord(scope, t.owner, t.publicName));
    ClassIs(scope, t.owner, t.publicName, t.fullName);
    MembersAre(t);
    OneofsAre(scope, t);
    forall f | f in t.fields && f.oneof.None? {
      FieldIs(scope, t, f);
    }
  }

  // Writing.

  /** The name stands for a class that instances of the variant belong to: its own, or the class of its oneof. */
  predicate TakesInstance(scope: Scope, t: PyType, o: PyOneof, v: PyVariant, name: string) {
    LastIs(scope.own, name, VariantClass(t.fullName, o.name, v.name)) || LastIs(scope.own, name, BaseClass(t.fullName, o.name))
  }

  predicate StandsForSome(defs: seq<Definition>, name: string) {
    exists d | d in defs :: d.name == name
  }

  /** The branches before place `i` are tested in vain, and the one there, the variant's own, is taken. */
  predicate BranchAt(scope: Scope, t: PyType, o: PyOneof, variants: seq<PyVariant>, v: PyVariant, i: nat) {
    && i < |variants| && variants[i] == v && TakesInstance(scope, t, o, v, v.wrapper)
    && forall j | 0 <= j < i ::
         StandsForSome(scope.own, variants[j].wrapper) && !TakesInstance(scope, t, o, v, variants[j].wrapper)
  }

  ghost predicate OwnBranch(scope: Scope, t: PyType, o: PyOneof, variants: seq<PyVariant>, v: PyVariant) {
    exists i: nat :: BranchAt(scope, t, o, variants, v, i)
  }

  lemma TakesIs(scope: Scope, t: PyType, o: PyOneof, v: PyVariant, name: string)
    ensures TakesInstance(scope, t, o, v, name) <==>
              Resolve(scope.own, name).Some? && IsInstance(VariantClass(t.fullName, o.name, v.name), Resolve(scope.own, name).value)
    ensures StandsForSome(scope.own, name) <==> Resolve(scope.own, name).Some?
  {
    LastIsResolved(scope.own, name, VariantClass(t.fullName, o.name, v.name));
    LastIsResolved(scope.own, name, BaseClass(t.fullName, o.name));
    ResolveFinds(scope.own, name);
  }

  lemma BranchShifts(scope: Scope, t: PyType, o: PyOneof, variants: seq<PyVariant>, v: PyVariant, i: nat)
    requires variants != [] && StandsForSome(scope.own, variants[0].wrapper) && !TakesInstance(scope, t, o, v, variants[0].wrapper)
    ensures BranchAt(scope, t, o, variants, v, i + 1) <==> BranchAt(scope, t, o, variants[1..], v, i)
  {
    var rest := variants[1..];
    if BranchAt(scope, t, o, variants, v, i + 1) {
      forall j | 0 <= j < i
        ensures StandsForSome(scope.own, rest[j].wrapper) && !TakesInstance(scope, t, o, v, rest[j].wrapper)
      {
        assert rest[j] == variants[j + 1];
      }
    }
    if BranchAt(scope, t, o, rest, v, i) {
      forall j | 0 <= j < i + 1
        ensures StandsForSome(scope.own, variants[j].wrapper) && !TakesInstance(scope, t, o, v, variants[j].wrapper)
      {
        assert j > 0 ==> variants[j] == rest[j - 1];
      }
    }
  }

  lemma NotFirst(scope: Scope, t: PyType, o: PyOneof, variants: seq<PyVariant>, v: PyVariant)
    requires variants != [] && !TakesInstance(scope, t, o, v, variants[0].wrapper)
    ensures !BranchAt(scope, t, o, variants, v, 0)
  {
  }

  lemma BranchDown(scope: Scope, t: PyType, o: PyOneof, variants: seq<PyVariant>, v: PyVariant, i: nat, k: nat)
    requires variants != [] && StandsForSome(scope.own, variants[0].wrapper) && !TakesInstance(scope, t, o, v, variants[0].wrapper)
    requires k == i + 1 && BranchAt(scope, t, o, variants, v, k)
    ensures OwnBranch(scope, t, o, variants[1..], v)
  {
    BranchShifts(scope, t, o, variants, v, i);
    assert BranchAt(scope, t, o, variants[1..], v, i);
  }

  lemma BranchLater(scope: Scope, t: PyType, o: PyOneof, variants: seq<PyVariant>, v: PyVariant, k: nat)
    requires variants != [] && StandsForSome(scope.own, variants[0].wrapper) && !TakesInstance(scope, t, o, v, variants[0].wrapper)
    requires BranchAt(scope, t, o, variants, v, k)
    ensures OwnBranch(scope, t, o, variants[1..], v)
  {
    if k == 0 {
      NotFirst(scope, t, o, variants, v);
    } else {
      BranchDown(scope, t, o, variants, v, k - 1, k);
    }
  }

  lemma BranchInRest(scope: Scope, t: PyType, o: PyOneof, variants: seq<PyVariant>, v: PyVariant)
    requires variants != [] && StandsForSome(scope.own, variants[0].wrapper) && !TakesInstance(scope, t, o, v, variants[0].wrapper)
    ensures OwnBranch(scope, t, o, variants, v) <==> OwnBranch(scope, t, o, variants[1..], v)
  {
    forall i: nat | BranchAt(scope, t, o, variants, v, i)
      ensures OwnBranch(scope, t, o, variants[1..], v)
    {
      BranchLater(scope, t, o, variants, v, i);
    }
    forall i: nat | BranchAt(scope, t, o, variants[1..], v, i)
      ensures OwnBranch(scope, t, o, variants, v)
    {
      BranchShifts(scope, t, o, variants, v, i);
    }
  }

  lemma BranchIsFirst(scope: Scope, t: PyType, o: PyOneof, variants: seq<PyVariant>, v: PyVariant)
    requires variants != [] && (!StandsForSome(scope.own, variants[0].wrapper) || TakesInstance(scope, t, o, v, variants[0].wrapper))
    ensures OwnBranch(scope, t, o, variants, v) <==> variants[0] == v && TakesInstance(scope, t, o, v, v.wrapper)
  {
    if i: nat :| BranchAt(scope, t, o, variants, v, i) {
      assert i == 0;
    }
    if variants[0] == v && TakesInstance(scope, t, o, v, v.wrapper) {
      assert BranchAt(scope, t, o, variants, v, 0);
    }
  }

  lemma {:induction false} TakenIs(scope: Scope, t: PyType, o: PyOneof, variants: seq<PyVariant>, v: PyVariant)
    ensures OwnBranch(scope, t, o, variants, v) <==>
              TakenBranch(scope, variants, VariantClass(t.fullName, o.name, v.name)) == Some(v)
    decreases |variants|
  {
    if variants != [] {
      TakesIs(scope, t, o, v, variants[0].wrapper);
      TakenIs(scope, t, o, variants[1..], v);
      if StandsForSome(scope.own, variants[0].wrapper) && !TakesInstance(scope, t, o, v, variants[0].wrapper) {
        BranchInRest(scope, t, o, variants, v);
      } else {
        BranchIsFirst(scope, t, o, variants, v);
      }
    }
  }

  /**
   A type is harmless to write exactly when its module loads, its members are kept, UNSET is the module's
   own where it is looked at, every variant's class is told from those before it, and the protobuf library's
   modules are not hidden by the file's own.
   */
  lemma HarmlessToWrite(scope: Scope, t: PyType)
    requires t.PyMessage?
    ensures WritesQuietly(scope, t) <==>
              && scope.loads && HarmlessMembers(t)
              && (t.oneofs != [] ==> LastIs(scope.own, "UNSET", Builtin("UNSET")))
              && (forall f | f in t.fields && f.oneof.None? ::
                    && (!f.isRepeated && !f.isMap && f.hasPresence && !f.isSchemaRequired ==> LastIs(scope.own, "UNSET", Builtin("UNSET")))
                    && (if !f.isRepeated && f.isMap then f.mapValue.Some? ==> RefModuleKept(scope, f.mapValue.value)
                        else RefModuleKept(scope, f.typ)))
              && (forall o, v | o in t.oneofs && v in o.variants ::
                    !Mangled(v.name) && OwnBranch(scope, t, o, o.variants, v) && RefModuleKept(scope, v.typ))
  {
    MembersAre(t);
    LastIsResolved(scope.own, "UNSET", Builtin("UNSET"));
    forall o, v | o in t.oneofs && v in o.variants
      ensures BranchTaken(scope, t, o, v) <==> !Mangled(v.name) && OwnBranch(scope, t, o, o.variants, v)
    {
      MangledIsPrivate(v.name);
      TakenIs(scope, t, o, o.variants, v);
    }
  }
}
