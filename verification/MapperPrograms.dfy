/**
 The emitted mappers as the programs they are: to_pb fills a fresh message field by field,
 from_pb runs through assignments to local variables.
 */
module MapperPrograms {
  import opened Wrappers
  import opened PythonTypes
  import opened PythonMappers
  import opened PythonScopes
  import opened MapperRoundTrip
  import opened MapperFill
  import opened GeneratedMappers

  class Message {
    const name: string
    var fields: Fields

    constructor (name: string)
      ensures this.name == name && fields == map[]
    {
      this.name := name;
      fields := map[];
    }

    method AssignSingle(f: PyField, pb: Pb)
      modifies this
      ensures fields == SetSingle(old(fields), f, pb)
    {
      if !f.hasPresence && IsScalarDefault(pb) {
        fields := fields - {f.name};
      } else {
        fields := fields[f.name := PSingle(pb)];
      }
    }

    method Extend(field: string, items: seq<Pb>)
      modifies this
      requires field !in fields
      ensures fields == SetItems(old(fields), field, items)
    {
      if items != [] {
        fields := fields[field := PItems(items)];
      }
    }

    /** `field[key].CopyFrom(...)`, or one entry of an update. */
    method PutEntry(field: string, key: Leaf, pb: Pb)
      modifies this
      ensures fields == old(fields)[field := PEntries(GetEntries(old(fields), field)[key := pb])]
    {
      fields := fields[field := PEntries(GetEntries(fields, field)[key := pb])];
    }

    method AssignMember(o: PyOneof, member: string, pb: Pb)
      modifies this
      ensures fields == (old(fields) - VariantNames(o.variants))[member := PSingle(pb)]
    {
      fields := (fields - VariantNames(o.variants))[member := PSingle(pb)];
    }
  }

  method RefToPb(env: Env, scope: Scope, ref: TypeRef, v: Value, depth: nat) returns (result: Option<Pb>)
    requires EnvOk(env)
    ensures result == RunToRef(env, scope, ref, v, depth)
    decreases depth, 0
  {
    match ref
    case ScalarRef(s) =>
      return if v.Plain? && v.leaf.scalar == s then Some(PbPlain(v.leaf)) else None;
    case EnumRef(n, _, _) =>
      return if v.Member? && v.enumName == n then Some(PbEnum(v.number)) else None;
    case WellKnownRef(n, _) =>
      if !KnownModuleKept(scope, n) {
        return None;
      }
      return if v.WellKnownValue? && v.typeName == n then Some(PbKnown(n, v.payload)) else None;
    case MessageRef(n, _, _) =>
      if depth > 0 && v.Object? && v.name == n && IsMessage(env, n) {
        result := MessageToPb(env, scope, env[n], v.attrs, depth - 1);
      } else {
        return None;
      }
  }

  method ItemsToPb(env: Env, scope: Scope, ref: TypeRef, items: seq<Value>, depth: nat) returns (result: Option<seq<Pb>>)
    requires EnvOk(env)
    ensures result == RunToItems(env, scope, ref, items, depth)
    decreases depth, 1
  {
    var pbs := [];
    for i := 0 to |items|
      invariant RunToItems(env, scope, ref, items[..i], depth) == Some(pbs)
    {
      assert items[..i + 1][..i] == items[..i];
      var pb := RefToPb(env, scope, ref, items[i], depth);
      if pb.None? {
        NoItems(env, scope, ref, items, i, depth);
        return None;
      }
      pbs := pbs + [pb.value];
    }
    assert items[..|items|] == items;
    return Some(pbs);
  }

  lemma {:induction false} NoItems(env: Env, scope: Scope, ref: TypeRef, items: seq<Value>, i: nat, depth: nat)
    requires i < |items| && RunToRef(env, scope, ref, items[i], depth).None?
    ensures RunToItems(env, scope, ref, items, depth).None?
    decreases |items|
  {
    if i < |items| - 1 {
      NoItems(env, scope, ref, items[..|items| - 1], i, depth);
    }
  }

  /** The loop over a map's items; `message[field]` starts without entries. */
  method PutEntries(message: Message, env: Env, scope: Scope, field: string, ref: TypeRef, entries: map<Leaf, Value>, depth: nat)
    returns (ok: bool)
    requires EnvOk(env) && field !in message.fields
    modifies message
    ensures ok <==> RunToEntries(env, scope, ref, entries, depth).Some?
    ensures ok ==> message.fields == SetEntries(old(message.fields), field, RunToEntries(env, scope, ref, entries, depth).value)
    decreases depth, 1
  {
    var left := entries.Keys;
    while left != {}
      invariant left <= entries.Keys
      invariant forall k | k in entries.Keys - left :: RunToRef(env, scope, ref, entries[k], depth).Some?
      invariant message.fields == SetEntries(old(message.fields), field, Converted(env, scope, ref, entries, entries.Keys - left, depth))
    {
      var key :| key in left;
      var pb := RefToPb(env, scope, ref, entries[key], depth);
      if pb.None? {
        return false;
      }
      ConvertedStep(env, scope, ref, entries, left, key, depth);
      ghost var done := Converted(env, scope, ref, entries, entries.Keys - left, depth);
      PutOnSet(old(message.fields), field, done, key, pb.value);
      message.PutEntry(field, key, pb.value);
      left := left - {key};
    }
    assert entries.Keys - left == entries.Keys;
    assert Converted(env, scope, ref, entries, entries.Keys, depth) == RunToEntries(env, scope, ref, entries, depth).value;
    return true;
  }

  lemma PutOnSet(before: Fields, field: string, done: map<Leaf, Pb>, key: Leaf, pb: Pb)
    requires field !in before
    ensures GetEntries(SetEntries(before, field, done), field) == done
    ensures SetEntries(before, field, done)[field := PEntries(done[key := pb])] == SetEntries(before, field, done[key := pb])
  {
    assert key in done[key := pb];
  }

  function Converted(env: Env, scope: Scope, ref: TypeRef, entries: map<Leaf, Value>, keys: set<Leaf>, depth: nat): map<Leaf, Pb>
    requires forall k | k in keys :: k in entries && RunToRef(env, scope, ref, entries[k], depth).Some?
  {
    map k | k in keys :: RunToRef(env, scope, ref, entries[k], depth).value
  }

  lemma ConvertedStep(env: Env, scope: Scope, ref: TypeRef, entries: map<Leaf, Value>, left: set<Leaf>, key: Leaf, depth: nat)
    requires left <= entries.Keys && key in left && RunToRef(env, scope, ref, entries[key], depth).Some?
    requires forall k | k in entries.Keys - left :: RunToRef(env, scope, ref, entries[k], depth).Some?
    ensures forall k | k in entries.Keys - (left - {key}) :: RunToRef(env, scope, ref, entries[k], depth).Some?
    ensures Converted(env, scope, ref, entries, entries.Keys - (left - {key}), depth)
         == Converted(env, scope, ref, entries, entries.Keys - left, depth)[key := RunToRef(env, scope, ref, entries[key], depth).value]
  {
  }

  method AssignField(message: Message, env: Env, scope: Scope, f: PyField, a: Attr, depth: nat) returns (ok: bool)
    requires EnvOk(env) && f.name !in message.fields
    modifies message
    ensures ok <==> RunToField(env, scope, f, a, old(message.fields), depth).Some?
    ensures ok ==> message.fields == RunToField(env, scope, f, a, old(message.fields), depth).value
    decreases depth, 2
  {
    if f.isRepeated {
      if !a.Items? {
        return false;
      }
      var items := ItemsToPb(env, scope, f.typ, a.items, depth);
      if items.None? {
        return false;
      }
      message.Extend(f.name, items.value);
      return true;
    }
    if f.isMap {
      if f.mapValue.None? {
        return true;
      }
      if !a.Entries? {
        return false;
      }
      ok := PutEntries(message, env, scope, f.name, f.mapValue.value, a.entries, depth);
      return;
    }
    if UsesUnset(f) && a.Unset? {
      return UnsetKept(scope);
    }
    var pb := None;
    if a.Single? {
      pb := RefToPb(env, scope, f.typ, a.value, depth);
    } else if IsForeignUnset(a) {
      pb := RunToStray(env, scope, f.typ, depth);
    }
    if pb.None? {
      return false;
    }
    message.AssignSingle(f, pb.value);
    return true;
  }

  /** The if-elif chain of class tests over a oneof's variants; its else branch raises. */
  method AssignOneof(message: Message, env: Env, scope: Scope, t: PyType, o: PyOneof, a: Attr, depth: nat) returns (ok: bool)
    requires EnvOk(env)
    modifies message
    ensures ok <==> RunToOneof(env, scope, t, o, a, old(message.fields), depth).Some?
    ensures ok ==> message.fields == RunToOneof(env, scope, t, o, a, old(message.fields), depth).value
    decreases depth, 2
  {
    if a.Unset? {
      return UnsetKept(scope);
    }
    if !a.Chosen? || VariantOf(o.variants, a.wrapper).None? {
      return false;
    }
    var own := VariantOf(o.variants, a.wrapper).value.name;
    var instance := VariantClass(t.fullName, o.name, own);
    for i := 0 to |o.variants|
      invariant message.fields == old(message.fields)
      invariant TakenBranch(scope, o.variants, instance) == TakenBranch(scope, o.variants[i..], instance)
    {
      var variant := o.variants[i];
      var key := Resolve(scope.own, variant.wrapper);
      if key.None? {
        return false;
      }
      if IsInstance(instance, key.value) {
        if variant.name != own || Private(variant.name) {
          return false;
        }
        var pb := RefToPb(env, scope, variant.typ, a.value, depth);
        if pb.None? {
          return false;
        }
        message.AssignMember(o, variant.name, pb.value);
        return true;
      }
      assert o.variants[i..][1..] == o.variants[i + 1..];
    }
    return false;
  }

  method AssignFields(message: Message, env: Env, scope: Scope, fs: seq<PyField>, attrs: map<string, Attr>, depth: nat) returns (ok: bool)
    requires EnvOk(env) && FieldsShaped(fs) && message.fields == map[]
    modifies message
    ensures ok <==> RunToFields(env, scope, fs, attrs, depth).Some?
    ensures ok ==> message.fields == RunToFields(env, scope, fs, attrs, depth).value
    decreases depth, 3
  {
    for i := 0 to |fs|
      invariant RunToFields(env, scope, fs[..i], attrs, depth) == Some(message.fields)
    {
      var f := fs[i];
      assert fs[..i + 1][..i] == fs[..i];
      if f.oneof.None? {
        if f.name !in attrs {
          NoFields(env, scope, fs, attrs, i + 1, depth);
          return false;
        }
        SetNames(env, scope, fs[..i], attrs, depth);
        NameIsNew(fs, i);
        ok := AssignField(message, env, scope, f, attrs[f.name], depth);
        if !ok {
          NoFields(env, scope, fs, attrs, i + 1, depth);
          return;
        }
      }
    }
    assert fs[..|fs|] == fs;
    return true;
  }

  method AssignOneofs(message: Message, env: Env, scope: Scope, t: PyType, os: seq<PyOneof>, attrs: map<string, Attr>, depth: nat)
    returns (ok: bool)
    requires EnvOk(env)
    modifies message
    ensures ok <==> RunToOneofs(env, scope, t, os, attrs, old(message.fields), depth).Some?
    ensures ok ==> message.fields == RunToOneofs(env, scope, t, os, attrs, old(message.fields), depth).value
    decreases depth, 3
  {
    for i := 0 to |os|
      invariant RunToOneofs(env, scope, t, os[..i], attrs, old(message.fields), depth) == Some(message.fields)
    {
      var o := os[i];
      assert os[..i + 1][..i] == os[..i];
      if o.name !in attrs {
        NoOneofs(env, scope, t, os, attrs, old(message.fields), i + 1, depth);
        return false;
      }
      ok := AssignOneof(message, env, scope, t, o, attrs[o.name], depth);
      if !ok {
        NoOneofs(env, scope, t, os, attrs, old(message.fields), i + 1, depth);
        return;
      }
    }
    assert os[..|os|] == os;
    return true;
  }

  /** A whole to_pb mapper. */
  method MessageToPb(env: Env, scope: Scope, t: PyType, attrs: map<string, Attr>, depth: nat) returns (result: Option<Pb>)
    requires EnvOk(env) && t.PyMessage? && Shaped(t)
    ensures result == RunToMessage(env, scope, t, attrs, depth)
    decreases depth, 4
  {
    if !scope.loads || !FieldsKept(t) {
      return None;
    }
    var message := new Message(t.fullName);
    var ok := AssignFields(message, env, scope, t.fields, attrs, depth);
    if !ok {
      return None;
    }
    ok := AssignOneofs(message, env, scope, t, t.oneofs, attrs, depth);
    if !ok {
      return None;
    }
    return Some(PbMessage(message.name, message.fields));
  }

  /** Only fields that had their turn are set. */
  lemma {:induction false} SetNames(env: Env, scope: Scope, fs: seq<PyField>, attrs: map<string, Attr>, depth: nat)
    requires RunToFields(env, scope, fs, attrs, depth).Some?
    ensures RunToFields(env, scope, fs, attrs, depth).value.Keys <= PlainNames(fs)
    decreases |fs|
  {
    if fs != [] {
      SetNames(env, scope, fs[..|fs| - 1], attrs, depth);
      assert PlainNames(fs[..|fs| - 1]) <= PlainNames(fs);
      assert fs[|fs| - 1] in fs;
    }
  }

  /** An exception ends the mapper, whatever comes later. */
  lemma {:induction false} NoFields(env: Env, scope: Scope, fs: seq<PyField>, attrs: map<string, Attr>, k: nat, depth: nat)
    requires k <= |fs| && RunToFields(env, scope, fs[..k], attrs, depth).None?
    ensures RunToFields(env, scope, fs, attrs, depth).None?
    decreases |fs|
  {
    if k < |fs| {
      assert fs[..|fs| - 1][..k] == fs[..k];
      NoFields(env, scope, fs[..|fs| - 1], attrs, k, depth);
    } else {
      assert fs[..k] == fs;
    }
  }

  lemma {:induction false} NoOneofs(env: Env, scope: Scope, t: PyType, os: seq<PyOneof>, attrs: map<string, Attr>, fields: Fields,
                                    k: nat, depth: nat)
    requires k <= |os| && RunToOneofs(env, scope, t, os[..k], attrs, fields, depth).None?
    ensures RunToOneofs(env, scope, t, os, attrs, fields, depth).None?
    decreases |os|
  {
    if k < |os| {
      assert os[..|os| - 1][..k] == os[..k];
      NoOneofs(env, scope, t, os[..|os| - 1], attrs, fields, k, depth);
    } else {
      assert os[..k] == os;
    }
  }

  // from_pb.

  method RefFromPb(env: Env, scope: Scope, locals: set<string>, ref: TypeRef, pb: Pb, depth: nat) returns (result: Option<Value>)
    requires EnvOk(env)
    ensures result == RunFromRef(env, scope, locals, ref, pb, depth)
    decreases depth, 0
  {
    match ref
    case ScalarRef(s) =>
      return if pb.PbPlain? && pb.leaf.scalar == s then Some(Plain(pb.leaf)) else None;
    case EnumRef(n, publicName, owner) =>
      if ENUM_HELPER in locals || scope.Root(owner, publicName) in locals {
        return None;
      }
      if scope.TypeNamed(owner, publicName) != Some(TypeClass(n)) {
        return None;
      }
      return if pb.PbEnum? && IsMember(env, n, pb.number) then Some(Member(n, pb.number)) else None;
    case WellKnownRef(n, _) =>
      if scope.KnownHelper("from_pb", n) in locals || !EmptyClassKept(scope, n) {
        return None;
      }
      return if pb.PbKnown? && pb.typeName == n then Some(WellKnownValue(n, pb.payload)) else None;
    case MessageRef(n, publicName, owner) =>
      if scope.Helper("from_pb", owner, publicName) in locals {
        return None;
      }
      if depth > 0 && pb.PbMessage? && pb.name == n && IsMessage(env, n) {
        result := MessageFromPb(env, scope, env[n], pb.fields, depth - 1);
      } else {
        return None;
      }
  }

  /** A list comprehension. */
  method ItemsFromPb(env: Env, scope: Scope, locals: set<string>, ref: TypeRef, items: seq<Pb>, depth: nat)
    returns (result: Option<seq<Value>>)
    requires EnvOk(env)
    ensures result == RunFromItems(env, scope, locals, ref, items, depth)
    decreases depth, 1
  {
    var values := [];
    for i := 0 to |items|
      invariant RunFromItems(env, scope, locals, ref, items[..i], depth) == Some(values)
    {
      assert items[..i + 1][..i] == items[..i];
      var value := RefFromPb(env, scope, locals, ref, items[i], depth);
      if value.None? {
        NoValues(env, scope, locals, ref, items, i, depth);
        return None;
      }
      values := values + [value.value];
    }
    assert items[..|items|] == items;
    return Some(values);
  }

  lemma {:induction false} NoValues(env: Env, scope: Scope, locals: set<string>, ref: TypeRef, items: seq<Pb>, i: nat, depth: nat)
    requires i < |items| && RunFromRef(env, scope, locals, ref, items[i], depth).None?
    ensures RunFromItems(env, scope, locals, ref, items, depth).None?
    decreases |items|
  {
    if i < |items| - 1 {
      NoValues(env, scope, locals, ref, items[..|items| - 1], i, depth);
    }
  }

  /** A dictionary comprehension. */
  method EntriesFromPb(env: Env, scope: Scope, locals: set<string>, ref: TypeRef, entries: map<Leaf, Pb>, depth: nat)
    returns (result: Option<map<Leaf, Value>>)
    requires EnvOk(env)
    ensures result == RunFromEntries(env, scope, locals, ref, entries, depth)
    decreases depth, 1
  {
    var left, values := entries.Keys, map[];
    while left != {}
      invariant left <= entries.Keys && AllRead(env, scope, locals, ref, entries, entries.Keys - left, depth)
      invariant values == ReadValues(env, scope, locals, ref, entries, entries.Keys - left, depth)
    {
      var key :| key in left;
      var value := RefFromPb(env, scope, locals, ref, entries[key], depth);
      if value.None? {
        return None;
      }
      ReadStep(env, scope, locals, ref, entries, left, key, depth);
      values := values[key := value.value];
      left := left - {key};
    }
    assert entries.Keys - left == entries.Keys;
    assert values == RunFromEntries(env, scope, locals, ref, entries, depth).value;
    return Some(values);
  }

  predicate AllRead(env: Env, scope: Scope, locals: set<string>, ref: TypeRef, entries: map<Leaf, Pb>, keys: set<Leaf>, depth: nat) {
    forall k | k in keys :: k in entries && RunFromRef(env, scope, locals, ref, entries[k], depth).Some?
  }

  function ReadValues(env: Env, scope: Scope, locals: set<string>, ref: TypeRef, entries: map<Leaf, Pb>, keys: set<Leaf>, depth: nat)
    : map<Leaf, Value>
    requires AllRead(env, scope, locals, ref, entries, keys, depth)
  {
    map k | k in keys :: RunFromRef(env, scope, locals, ref, entries[k], depth).value
  }

  lemma ReadStep(env: Env, scope: Scope, locals: set<string>, ref: TypeRef, entries: map<Leaf, Pb>, left: set<Leaf>, key: Leaf, depth: nat)
    requires left <= entries.Keys && key in left && AllRead(env, scope, locals, ref, entries, entries.Keys - left, depth)
    requires RunFromRef(env, scope, locals, ref, entries[key], depth).Some?
    ensures AllRead(env, scope, locals, ref, entries, entries.Keys - (left - {key}), depth)
    ensures ReadValues(env, scope, locals, ref, entries, entries.Keys - (left - {key}), depth)
         == ReadValues(env, scope, locals, ref, entries, entries.Keys - left, depth)[
              key := RunFromRef(env, scope, locals, ref, entries[key], depth).value]
  {
  }

  /** The keyword argument of one field outside oneofs. */
  method FieldFromPb(env: Env, scope: Scope, locals: set<string>, f: PyField, fields: Fields, depth: nat) returns (result: Option<Attr>)
    requires EnvOk(env)
    ensures result == RunFromField(env, scope, locals, f, fields, depth)
    decreases depth, 2
  {
    if CallsBuiltin(f, locals) {
      return None;
    }
    if f.isRepeated {
      var items := ItemsFromPb(env, scope, locals, f.typ, GetItems(fields, f.name), depth);
      return if items.Some? then Some(Items(items.value)) else None;
    }
    if f.isMap {
      if f.mapValue.None? {
        return Some(Entries(RawEntries(GetEntries(fields, f.name))));
      }
      var entries := EntriesFromPb(env, scope, locals, f.mapValue.value, GetEntries(fields, f.name), depth);
      return if entries.Some? then Some(Entries(entries.value)) else None;
    }
    if UsesUnset(f) && f.name !in fields {
      return if UNSET in locals || !UnsetKept(scope) then None else Some(Unset);
    }
    var value := RefFromPb(env, scope, locals, f.typ, GetSingle(fields, f), depth);
    return if value.Some? then Some(Single(value.value)) else None;
  }

  /**
   The statements of one oneof over the mapper's variables: the assignment of UNSET, the
   question which member is set, and the if-elif chain on the answer.
   */
  method OneofFromPb(env: Env, scope: Scope, t: PyType, o: PyOneof, fields: Fields, before: Locals, depth: nat)
    returns (ok: bool, vars: Locals)
    requires EnvOk(env) && t.PyMessage? && MESSAGE in before
    ensures ok <==> RunOneof(env, scope, t, o, fields, before, depth).Some?
    ensures ok ==> vars == RunOneof(env, scope, t, o, fields, before, depth).value && MESSAGE in vars
    decreases depth, 2
  {
    vars := before;
    if UNSET in LocalNames(t) {
      return false, vars;
    }
    vars := vars[o.name := Holds(Unset)];
    if vars[MESSAGE] != Argument {
      return false, vars;
    }
    vars := vars[CaseName(o.name) := CaseOf(MemberName(o, fields))];
    ghost var asked := vars;
    for i := 0 to |o.variants|
      invariant vars == asked && WhichOneof(o.variants, fields) == WhichOneof(o.variants[i..], fields)
    {
      var v := o.variants[i];
      MemberHere(o, fields, i);
      if vars[CaseName(o.name)] == CaseOf(Some(v.name)) {
        if !fields[v.name].PSingle? || !VariantCallable(scope, t, o, v) {
          return false, vars;
        }
        var value := RefFromPb(env, scope, LocalNames(t), v.typ, fields[v.name].value, depth);
        if value.None? {
          return false, vars;
        }
        vars := vars[o.name := Holds(Chosen(v.wrapper, value.value))];
        return true, vars;
      }
    }
    return UnsetKept(scope), vars;
  }

  /** Of the variants from `i` on, the first is the member that is set exactly when its field is there. */
  lemma MemberHere(o: PyOneof, fields: Fields, i: nat)
    requires i < |o.variants| && WhichOneof(o.variants, fields) == WhichOneof(o.variants[i..], fields)
    ensures MemberName(o, fields) == Some(o.variants[i].name) ==>
              o.variants[i].name in fields && WhichOneof(o.variants, fields) == Some(o.variants[i])
    ensures MemberName(o, fields) != Some(o.variants[i].name) ==>
              o.variants[i].name !in fields && WhichOneof(o.variants[i..], fields) == WhichOneof(o.variants[i + 1..], fields)
  {
    assert o.variants[i..][1..] == o.variants[i + 1..];
    if o.variants[i].name !in fields && WhichOneof(o.variants, fields).Some? {
      WhichIn(o.variants, fields);
    }
  }

  method OneofsFromPb(env: Env, scope: Scope, t: PyType, fields: Fields, depth: nat) returns (ok: bool, vars: Locals)
    requires EnvOk(env) && t.PyMessage?
    ensures ok <==> RunOneofs(env, scope, t, t.oneofs, fields, depth).Some?
    ensures ok ==> vars == RunOneofs(env, scope, t, t.oneofs, fields, depth).value
    decreases depth, 3
  {
    var os := t.oneofs;
    vars := map[MESSAGE := Argument];
    for i := 0 to |os|
      invariant RunOneofs(env, scope, t, os[..i], fields, depth) == Some(vars) && MESSAGE in vars
    {
      RunOneofsStep(env, scope, t, os, i, fields, depth);
      ok, vars := OneofFromPb(env, scope, t, os[i], fields, vars, depth);
      if !ok {
        NoVariables(env, scope, t, os, fields, i + 1, depth);
        return;
      }
    }
    assert os[..|os|] == os;
    return true, vars;
  }

  lemma RunOneofsStep(env: Env, scope: Scope, t: PyType, os: seq<PyOneof>, i: nat, fields: Fields, depth: nat)
    requires t.PyMessage? && i < |os| && RunOneofs(env, scope, t, os[..i], fields, depth).Some?
    ensures var before := RunOneofs(env, scope, t, os[..i], fields, depth).value;
            RunOneofs(env, scope, t, os[..i + 1], fields, depth) == RunOneof(env, scope, t, os[i], fields, before, depth)
  {
    assert os[..i + 1][..i] == os[..i];
  }

  lemma {:induction false} NoVariables(env: Env, scope: Scope, t: PyType, os: seq<PyOneof>, fields: Fields, k: nat, depth: nat)
    requires t.PyMessage? && k <= |os| && RunOneofs(env, scope, t, os[..k], fields, depth).None?
    ensures RunOneofs(env, scope, t, os, fields, depth).None?
    decreases |os|
  {
    if k < |os| {
      assert os[..|os| - 1][..k] == os[..k];
      NoVariables(env, scope, t, os[..|os| - 1], fields, k, depth);
    } else {
      assert os[..k] == os;
    }
  }

  method FieldsFromPb(env: Env, scope: Scope, t: PyType, fields: Fields, depth: nat) returns (result: Option<map<string, Attr>>)
    requires EnvOk(env) && t.PyMessage?
    ensures result == RunFromFields(env, scope, LocalNames(t), t.fields, fields, depth)
    decreases depth, 3
  {
    var fs, attrs := t.fields, map[];
    for i := 0 to |fs|
      invariant RunFromFields(env, scope, LocalNames(t), fs[..i], fields, depth) == Some(attrs)
    {
      assert fs[..i + 1][..i] == fs[..i];
      if fs[i].oneof.None? {
        var a := FieldFromPb(env, scope, LocalNames(t), fs[i], fields, depth);
        if a.None? {
          NoArguments(env, scope, LocalNames(t), fs, fields, i + 1, depth);
          return None;
        }
        attrs := attrs[fs[i].name := a.value];
      }
    }
    assert fs[..|fs|] == fs;
    return Some(attrs);
  }

  lemma {:induction false} NoArguments(env: Env, scope: Scope, locals: set<string>, fs: seq<PyField>, fields: Fields, k: nat, depth: nat)
    requires k <= |fs| && RunFromFields(env, scope, locals, fs[..k], fields, depth).None?
    ensures RunFromFields(env, scope, locals, fs, fields, depth).None?
    decreases |fs|
  {
    if k < |fs| {
      assert fs[..|fs| - 1][..k] == fs[..k];
      NoArguments(env, scope, locals, fs[..|fs| - 1], fields, k, depth);
    } else {
      assert fs[..k] == fs;
    }
  }

  /** A whole from_pb mapper: the oneofs' statements, then one call with all the arguments. */
  method MessageFromPb(env: Env, scope: Scope, t: PyType, fields: Fields, depth: nat) returns (result: Option<Value>)
    requires EnvOk(env) && t.PyMessage?
    ensures result == RunFromMessage(env, scope, t, fields, depth)
    decreases depth, 4
  {
    var ok, vars := OneofsFromPb(env, scope, t, fields, depth);
    if !ok || !scope.loads || !ClassCallable(scope, t) {
      return None;
    }
    var attrs := FieldsFromPb(env, scope, t, fields, depth);
    if attrs.None? {
      return None;
    }
    var arguments := attrs.value;
    for i := 0 to |t.oneofs|
      invariant PassOneofs(t.oneofs[..i], vars, attrs.value) == Some(arguments)
    {
      assert t.oneofs[..i + 1][..i] == t.oneofs[..i];
      var name := t.oneofs[i].name;
      if name !in vars {
        NothingPassed(t.oneofs, vars, attrs.value, i);
        return None;
      }
      arguments := arguments[name := Passed(vars[name])];
    }
    assert t.oneofs[..|t.oneofs|] == t.oneofs;
    return Some(Object(t.fullName, arguments));
  }

  lemma {:induction false} NothingPassed(os: seq<PyOneof>, vars: Locals, attrs: map<string, Attr>, i: nat)
    requires i < |os| && os[i].name !in vars
    ensures PassOneofs(os, vars, attrs).None?
    decreases |os|
  {
    if i < |os| - 1 {
      NothingPassed(os[..|os| - 1], vars, attrs, i);
    }
  }
}
