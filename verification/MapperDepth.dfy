/** When from_pb succeeds at all: the recursion that default instances of required messages cause. */
module MapperDepth {
  import opened Wrappers
  import opened Reachability
  import opened PythonTypes
  import opened PythonMappers
  import opened MapperRoundTrip
  import opened MapperFill

  // More recursion depth never changes a result.

  lemma {:induction false} FromRefDeeper(env: Env, ref: TypeRef, pb: Pb, depth: nat)
    requires EnvOk(env) && FromRef(env, ref, pb, depth).Some?
    ensures FromRef(env, ref, pb, depth + 1) == FromRef(env, ref, pb, depth)
    decreases depth, 0
  {
    if ref.MessageRef? {
      FromMessageDeeper(env, env[ref.fullName], pb.fields, depth - 1);
    }
  }

  lemma {:induction false} FromItemsDeeper(env: Env, ref: TypeRef, items: seq<Pb>, depth: nat)
    requires EnvOk(env) && FromItems(env, ref, items, depth).Some?
    ensures FromItems(env, ref, items, depth + 1) == FromItems(env, ref, items, depth)
    decreases depth, 1, |items|
  {
    if items != [] {
      FromItemsDeeper(env, ref, items[..|items| - 1], depth);
      FromRefDeeper(env, ref, items[|items| - 1], depth);
    }
  }

  lemma FromFieldDeeper(env: Env, f: PyField, fields: Fields, depth: nat)
    requires EnvOk(env) && FromField(env, f, fields, depth).Some?
    ensures FromField(env, f, fields, depth + 1) == FromField(env, f, fields, depth)
    decreases depth, 2
  {
    if f.isRepeated {
      FromItemsDeeper(env, f.typ, GetItems(fields, f.name), depth);
    } else if f.isMap {
      if f.mapValue.Some? {
        FromEntriesDeeper(env, f.mapValue.value, GetEntries(fields, f.name), depth);
      }
    } else if !(UsesUnset(f) && f.name !in fields) {
      FromRefDeeper(env, f.typ, GetSingle(fields, f), depth);
    }
  }

  lemma FromEntriesDeeper(env: Env, ref: TypeRef, entries: map<Leaf, Pb>, depth: nat)
    requires EnvOk(env) && FromEntries(env, ref, entries, depth).Some?
    ensures FromEntries(env, ref, entries, depth + 1) == FromEntries(env, ref, entries, depth)
    decreases depth, 1
  {
    forall k | k in entries
      ensures FromRef(env, ref, entries[k], depth + 1) == FromRef(env, ref, entries[k], depth)
    {
      FromRefDeeper(env, ref, entries[k], depth);
    }
    assert FromEntries(env, ref, entries, depth + 1).value == FromEntries(env, ref, entries, depth).value;
  }

  lemma {:induction false} FromFieldsDeeper(env: Env, fs: seq<PyField>, fields: Fields, depth: nat)
    requires EnvOk(env) && FromFields(env, fs, fields, depth).Some?
    ensures FromFields(env, fs, fields, depth + 1) == FromFields(env, fs, fields, depth)
    decreases depth, 3, |fs|
  {
    if fs != [] {
      FromFieldsDeeper(env, fs[..|fs| - 1], fields, depth);
      if fs[|fs| - 1].oneof.None? {
        FromFieldDeeper(env, fs[|fs| - 1], fields, depth);
      }
    }
  }

  lemma {:induction false} FromOneofsDeeper(env: Env, os: seq<PyOneof>, fields: Fields, attrs: map<string, Attr>, depth: nat)
    requires EnvOk(env) && FromOneofs(env, os, fields, attrs, depth).Some?
    ensures FromOneofs(env, os, fields, attrs, depth + 1) == FromOneofs(env, os, fields, attrs, depth)
    decreases depth, 3, |os|
  {
    if os != [] {
      FromOneofsDeeper(env, os[..|os| - 1], fields, attrs, depth);
      var which := WhichOneof(os[|os| - 1].variants, fields);
      if which.Some? {
        FromRefDeeper(env, which.value.typ, fields[which.value.name].value, depth);
      }
    }
  }

  lemma FromMessageDeeper(env: Env, t: PyType, fields: Fields, depth: nat)
    requires EnvOk(env) && t.PyMessage? && FromMessage(env, t, fields, depth).Some?
    ensures FromMessage(env, t, fields, depth + 1) == FromMessage(env, t, fields, depth)
    decreases depth, 4
  {
    FromFieldsDeeper(env, t.fields, fields, depth);
    FromOneofsDeeper(env, t.oneofs, fields, FromFields(env, t.fields, fields, depth).value, depth);
  }

  lemma {:induction false} FromFieldUpTo(env: Env, f: PyField, fields: Fields, depth: nat, more: nat)
    requires EnvOk(env) && FromField(env, f, fields, depth).Some?
    ensures FromField(env, f, fields, depth + more) == FromField(env, f, fields, depth)
    decreases more
  {
    if more > 0 {
      FromFieldUpTo(env, f, fields, depth, more - 1);
      FromFieldDeeper(env, f, fields, depth + more - 1);
    }
  }

  // Reading an empty message.

  /** from_pb turns an empty message of this type into a dataclass. */
  predicate Ready(env: Env, n: string, depth: nat) {
    depth > 0 && IsMessage(env, n) && FromMessage(env, env[n], map[], depth - 1).Some?
  }

  predicate AlwaysRead(f: PyField) {
    f.oneof.None? && !f.isRepeated && !f.isMap && !UsesUnset(f)
  }

  /** The message types of fields that are read even when absent. */
  function Required(t: PyType): set<string>
    requires t.PyMessage?
  {
    set f | f in t.fields && AlwaysRead(f) && f.typ.MessageRef? :: f.typ.fullName
  }

  /** An enum field that is read even when absent needs a visible zero. */
  predicate ZeroesVisible(env: Env, t: PyType)
    requires t.PyMessage?
  {
    forall f | f in t.fields && AlwaysRead(f) && f.typ.EnumRef? :: IsMember(env, f.typ.fullName, 0)
  }

  lemma {:induction false} FieldsReadable(env: Env, fs: seq<PyField>, fields: Fields, depth: nat)
    ensures FromFields(env, fs, fields, depth).Some? <==>
            forall f | f in fs && f.oneof.None? :: FromField(env, f, fields, depth).Some?
    decreases |fs|
  {
    if fs != [] {
      FieldsReadable(env, fs[..|fs| - 1], fields, depth);
      assert fs == fs[..|fs| - 1] + [fs[|fs| - 1]];
    }
  }

  lemma {:induction false} OneofsReadable(env: Env, os: seq<PyOneof>, fields: Fields, attrs: map<string, Attr>, depth: nat)
    requires forall o | o in os :: FromOneof(env, o, fields, depth).Some?
    ensures FromOneofs(env, os, fields, attrs, depth).Some?
    decreases |os|
  {
    if os != [] {
      OneofsReadable(env, os[..|os| - 1], fields, attrs, depth);
    }
  }

  lemma EmptyOneofs(env: Env, os: seq<PyOneof>, attrs: map<string, Attr>, depth: nat)
    ensures FromOneofs(env, os, map[], attrs, depth).Some?
  {
    forall o | o in os
      ensures FromOneof(env, o, map[], depth).Some?
    {
      NoMemberIsSet(o.variants, map[]);
    }
    OneofsReadable(env, os, map[], attrs, depth);
  }

  lemma EmptyField(env: Env, f: PyField, depth: nat)
    requires f.oneof.None? && (f.isMap ==> f.mapValue.Some?)
    ensures FromField(env, f, map[], depth).Some? <==>
            (AlwaysRead(f) && f.typ.EnumRef? ==> IsMember(env, f.typ.fullName, 0))
            && (AlwaysRead(f) && f.typ.MessageRef? ==> Ready(env, f.typ.fullName, depth))
  {
  }

  lemma EmptyFieldsReadable(env: Env, t: PyType, depth: nat)
    requires EnvOk(env) && t.PyMessage? && Shaped(t)
    ensures FromFields(env, t.fields, map[], depth).Some? <==>
            ZeroesVisible(env, t) && forall c | c in Required(t) :: Ready(env, c, depth)
  {
    FieldsReadable(env, t.fields, map[], depth);
    forall f | f in t.fields && f.oneof.None?
      ensures FromField(env, f, map[], depth).Some? <==>
              (AlwaysRead(f) && f.typ.EnumRef? ==> IsMember(env, f.typ.fullName, 0))
              && (AlwaysRead(f) && f.typ.MessageRef? ==> f.typ.fullName in Required(t) && Ready(env, f.typ.fullName, depth))
    {
      EmptyField(env, f, depth);
    }
  }

  /** One unfolding: zeroes visible here, and every required message ready one call further down. */
  lemma ReadyStep(env: Env, n: string, depth: nat)
    requires EnvOk(env)
    ensures Ready(env, n, depth) <==>
            depth > 0 && IsMessage(env, n) && ZeroesVisible(env, env[n])
            && forall c | c in Required(env[n]) :: Ready(env, c, depth - 1)
  {
    if depth > 0 && IsMessage(env, n) {
      EmptyFieldsReadable(env, env[n], depth - 1);
      if FromFields(env, env[n].fields, map[], depth - 1).Some? {
        EmptyOneofs(env, env[n].oneofs, FromFields(env, env[n].fields, map[], depth - 1).value, depth - 1);
      }
    }
  }

  lemma NotReadyStep(env: Env, n: string, c: string, depth: nat)
    requires EnvOk(env) && depth > 0 && IsMessage(env, n) && c in Required(env[n]) && !Ready(env, c, depth - 1)
    ensures !Ready(env, n, depth)
  {
    ReadyStep(env, n, depth);
  }

  lemma {:induction false} ReadyDeeper(env: Env, n: string, depth: nat)
    requires EnvOk(env) && Ready(env, n, depth)
    ensures Ready(env, n, depth + 1)
  {
    FromMessageDeeper(env, env[n], map[], depth - 1);
  }

  /** Message types each of which requires one of them: a cycle of required message fields. */
  ghost predicate Trap(env: Env, s: set<string>) {
    forall n {:trigger LeadsInside(env, s, n)} | n in s :: LeadsInside(env, s, n)
  }

  predicate LeadsInside(env: Env, s: set<string>, n: string) {
    IsMessage(env, n) && Required(env[n]) * s != {}
  }

  /** Inside such a cycle from_pb of an empty message recurses without end. */
  lemma {:induction false} TrapNeverReady(env: Env, s: set<string>, n: string, depth: nat)
    requires EnvOk(env) && Trap(env, s) && n in s
    ensures !Ready(env, n, depth)
    decreases depth
  {
    assert LeadsInside(env, s, n);
    if depth > 0 {
      var c :| c in Required(env[n]) * s;
      TrapNeverReady(env, s, c, depth - 1);
      NotReadyStep(env, n, c, depth);
    }
  }

  function Messages(env: Env): set<string> {
    set n | n in env && IsMessage(env, n)
  }

  /** These message types require no other. */
  predicate RequireOnly(env: Env, names: set<string>) {
    names <= Messages(env) && forall n | n in names :: Required(env[n]) <= names
  }

  ghost function Unready(env: Env, names: set<string>, depth: nat): set<string> {
    set n | n in names && !Ready(env, n, depth)
  }

  predicate AllZeroesVisible(env: Env, names: set<string>)
    requires names <= Messages(env)
  {
    forall n | n in names :: ZeroesVisible(env, env[n])
  }

  ghost predicate InTrap(env: Env, n: string) {
    exists s :: n in s && Trap(env, s)
  }

  ghost predicate TrapFree(env: Env, names: set<string>) {
    forall n | n in names :: !InTrap(env, n)
  }

  lemma UnreadyShrinks(env: Env, names: set<string>, depth: nat)
    requires EnvOk(env) && RequireOnly(env, names) && AllZeroesVisible(env, names)
    ensures Unready(env, names, depth + 1) <= Unready(env, names, depth)
    ensures Unready(env, names, depth + 1) == Unready(env, names, depth) ==> Trap(env, Unready(env, names, depth))
  {
    forall n | n in names && Ready(env, n, depth) {
      ReadyDeeper(env, n, depth);
    }
    if Unready(env, names, depth + 1) == Unready(env, names, depth) {
      forall n | n in Unready(env, names, depth)
        ensures LeadsInside(env, Unready(env, names, depth), n)
      {
        assert n in Unready(env, names, depth + 1);
        ReadyStep(env, n, depth + 1);
        var c :| c in Required(env[n]) && !Ready(env, c, depth);
        assert c in Required(env[n]) * Unready(env, names, depth);
      }
    }
  }

  lemma {:induction false} UnreadyBound(env: Env, names: set<string>, depth: nat)
    requires EnvOk(env) && RequireOnly(env, names) && AllZeroesVisible(env, names) && TrapFree(env, names)
    ensures Unready(env, names, depth) == {} || |Unready(env, names, depth)| + depth <= |names|
  {
    if depth == 0 {
      assert Unready(env, names, 0) <= names;
      SubsetSize(Unready(env, names, 0), names);
    } else {
      UnreadyBound(env, names, depth - 1);
      UnreadyShrinks(env, names, depth - 1);
      if n :| n in Unready(env, names, depth) {
        assert Unready(env, names, depth) != Unready(env, names, depth - 1) by {
          assert !InTrap(env, n);
        }
        SmallerSize(Unready(env, names, depth), Unready(env, names, depth - 1));
      }
    }
  }

  lemma {:induction false} SubsetSize<T>(a: set<T>, b: set<T>)
    requires a <= b
    ensures |a| <= |b|
  {
    if a != {} {
      var x :| x in a;
      SubsetSize(a - {x}, b - {x});
    }
  }

  lemma SmallerSize<T>(a: set<T>, b: set<T>)
    requires a < b
    ensures |a| < |b|
  {
    var x :| x in b && x !in a;
    SubsetSize(a, b - {x});
  }

  ghost predicate AllReady(env: Env, names: set<string>, depth: nat) {
    forall n | n in names :: Ready(env, n, depth)
  }

  lemma ReadyIsTrapFree(env: Env, n: string, depth: nat)
    requires EnvOk(env) && Ready(env, n, depth)
    ensures IsMessage(env, n) && ZeroesVisible(env, env[n]) && !InTrap(env, n)
  {
    ReadyStep(env, n, depth);
    forall s | n in s && Trap(env, s)
      ensures false
    {
      TrapNeverReady(env, s, n, depth);
    }
  }

  lemma TrapFreeIsReady(env: Env, names: set<string>)
    requires EnvOk(env) && RequireOnly(env, names) && AllZeroesVisible(env, names) && TrapFree(env, names)
    ensures AllReady(env, names, |names|)
  {
    UnreadyBound(env, names, |names|);
    forall n | n in names
      ensures Ready(env, n, |names|)
    {
      assert n !in Unready(env, names, |names|);
    }
  }

  /** The message types that reading an empty message leads to. */
  function RequiredEdges(env: Env): map<string, set<string>> {
    map n | n in Messages(env) :: Required(env[n])
  }

  ghost predicate Requires(env: Env, n: string, m: string) {
    Reach(RequiredEdges(env), {n}, m)
  }

  /** Every type that `n` requires, directly or not, has a mapper, shows its zeroes and is in no required cycle. */
  ghost predicate Fillable(env: Env, n: string) {
    forall m | Requires(env, n, m) :: IsMessage(env, m) && ZeroesVisible(env, env[m]) && !InTrap(env, m)
  }

  lemma {:induction false} ReadyBelow(env: Env, p: seq<string>, depth: nat) returns (less: nat)
    requires EnvOk(env) && |p| > 0 && IsPath(RequiredEdges(env), p) && Ready(env, p[0], depth)
    ensures Ready(env, p[|p| - 1], less)
    decreases |p|
  {
    less := depth;
    if |p| > 1 {
      assert Edge(RequiredEdges(env), p[0], p[1]);
      ReadyStep(env, p[0], depth);
      forall i, j | 0 <= i < j < |p[1..]| && j == i + 1
        ensures Edge(RequiredEdges(env), p[1..][i], p[1..][j])
      {
        assert Edge(RequiredEdges(env), p[i + 1], p[j + 1]);
      }
      less := ReadyBelow(env, p[1..], depth - 1);
    }
  }

  ghost function Below(env: Env, n: string): set<string> {
    set m | m in Messages(env) && Requires(env, n, m)
  }

  lemma BelowIsClosed(env: Env, n: string)
    requires Fillable(env, n)
    ensures n in Below(env, n) && RequireOnly(env, Below(env, n))
  {
    ReachRoot(RequiredEdges(env), {n}, n);
    assert Requires(env, n, n);
    forall m, c | m in Below(env, n) && c in Required(env[m])
      ensures c in Below(env, n)
    {
      assert Edge(RequiredEdges(env), m, c);
      ReachStep(RequiredEdges(env), {n}, m, c);
      assert Requires(env, n, c);
    }
  }

  /**
   An empty message of type `n` can be read, with enough recursion depth, exactly when no
   enum that reading it meets hides a zero and no message type that it requires, directly
   or not, requires itself; the number of required types is then depth enough.
   */
  lemma EmptyMessageReadable(env: Env, n: string)
    requires EnvOk(env)
    ensures (exists depth: nat :: Ready(env, n, depth)) <==> Fillable(env, n)
    ensures Fillable(env, n) ==> Ready(env, n, |Below(env, n)|)
  {
    if Fillable(env, n) {
      BelowIsClosed(env, n);
      TrapFreeIsReady(env, Below(env, n));
    }
    if depth: nat :| Ready(env, n, depth) {
      forall m | Requires(env, n, m)
        ensures IsMessage(env, m) && ZeroesVisible(env, env[m]) && !InTrap(env, m)
      {
        var p: seq<string> :| |p| > 0 && p[0] in {n} && p[|p| - 1] == m && IsPath(RequiredEdges(env), p);
        var less := ReadyBelow(env, p, depth);
        ReadyIsTrapFree(env, m, less);
      }
    }
  }

  // The message types that a message of some type can hold.

  predicate RefWithin(names: set<string>, ref: TypeRef) {
    ref.MessageRef? ==> ref.fullName in names
  }

  predicate FieldWithin(names: set<string>, f: PyField) {
    && (f.isRepeated || !f.isMap ==> RefWithin(names, f.typ))
    && (f.isMap && f.mapValue.Some? ==> RefWithin(names, f.mapValue.value))
  }

  predicate HoldsOnly(names: set<string>, t: PyType)
    requires t.PyMessage?
  {
    && (forall f | f in t.fields && f.oneof.None? :: FieldWithin(names, f))
    && (forall o, v | o in t.oneofs && v in o.variants :: RefWithin(names, v.typ))
  }

  /** These message types hold no other. */
  predicate ClosedTypes(env: Env, names: set<string>) {
    names <= Messages(env) && forall n | n in names :: HoldsOnly(names, env[n])
  }

  lemma ClosedRequireOnly(env: Env, names: set<string>)
    requires ClosedTypes(env, names)
    ensures RequireOnly(env, names)
  {
  }

  // Reading any well-formed message.

  lemma {:induction false} SoundReads(env: Env, names: set<string>, ref: TypeRef, pb: Pb, height: nat, base: nat)
    requires EnvOk(env) && ClosedTypes(env, names) && AllReady(env, names, base) && RefWithin(names, ref) && Sound(env, ref, pb, height)
    ensures FromRef(env, ref, pb, height + base).Some?
    decreases height, 0
  {
    if ref.MessageRef? {
      SoundMessageReads(env, names, ref.fullName, pb.fields, height - 1, base);
    }
  }

  lemma {:induction false} SoundItemsRead(env: Env, names: set<string>, ref: TypeRef, items: seq<Pb>, height: nat, base: nat)
    requires EnvOk(env) && ClosedTypes(env, names) && AllReady(env, names, base) && RefWithin(names, ref)
    requires forall pb | pb in items :: Sound(env, ref, pb, height)
    ensures FromItems(env, ref, items, height + base).Some?
    decreases height, 1, |items|
  {
    if items != [] {
      SoundItemsRead(env, names, ref, items[..|items| - 1], height, base);
      SoundReads(env, names, ref, items[|items| - 1], height, base);
    }
  }

  lemma PresentReads(env: Env, names: set<string>, f: PyField, fields: Fields, height: nat, base: nat)
    requires EnvOk(env) && ClosedTypes(env, names) && AllReady(env, names, base) && FieldWithin(names, f)
    requires f.oneof.None? && f.name in fields && SoundPiece(env, f, fields[f.name], height)
    ensures FromField(env, f, fields, height + base).Some?
    decreases height, 2
  {
    if f.isRepeated {
      SoundItemsRead(env, names, f.typ, fields[f.name].items, height, base);
    } else if f.isMap {
      forall k | k in fields[f.name].entries {
        SoundReads(env, names, f.mapValue.value, fields[f.name].entries[k], height, base);
      }
    } else {
      SoundReads(env, names, f.typ, fields[f.name].value, height, base);
    }
  }

  lemma AbsentReads(env: Env, names: set<string>, n: string, f: PyField, fields: Fields, height: nat, base: nat)
    requires EnvOk(env) && AllReady(env, names, base) && n in names
    requires f in env[n].fields && f.oneof.None? && f.name !in fields
    ensures FromField(env, f, fields, height + base).Some?
  {
    assert Ready(env, n, base);
    FieldsReadable(env, env[n].fields, map[], base - 1);
    FromFieldUpTo(env, f, map[], base - 1, height + 1);
    FromFieldLocal(env, f, fields, map[], height + base);
  }

  lemma MemberReads(env: Env, names: set<string>, t: PyType, o: PyOneof, fields: Fields, height: nat, base: nat)
    requires EnvOk(env) && ClosedTypes(env, names) && AllReady(env, names, base) && t.PyMessage? && HoldsOnly(names, t)
    requires SoundMessage(env, t, fields, height) && o in t.oneofs
    ensures FromOneof(env, o, fields, height + base).Some?
    decreases height, 2
  {
    if WhichOneof(o.variants, fields).Some? {
      WhichIn(o.variants, fields);
      var v := WhichOneof(o.variants, fields).value;
      assert SoundMember(env, v, fields[v.name], height);
      SoundReads(env, names, v.typ, fields[v.name].value, height, base);
    }
  }

  lemma {:induction false} SoundMessageReads(env: Env, names: set<string>, n: string, fields: Fields, height: nat, base: nat)
    requires EnvOk(env) && ClosedTypes(env, names) && AllReady(env, names, base) && n in names && SoundMessage(env, env[n], fields, height)
    ensures FromMessage(env, env[n], fields, height + base).Some?
    decreases height, 3
  {
    var t := env[n];
    forall f | f in t.fields && f.oneof.None?
      ensures FromField(env, f, fields, height + base).Some?
    {
      if f.name in fields {
        PresentReads(env, names, f, fields, height, base);
      } else {
        AbsentReads(env, names, n, f, fields, height, base);
      }
    }
    FieldsReadable(env, t.fields, fields, height + base);
    forall o | o in t.oneofs
      ensures FromOneof(env, o, fields, height + base).Some?
    {
      MemberReads(env, names, t, o, fields, height, base);
    }
    OneofsReadable(env, t.oneofs, fields, FromFields(env, t.fields, fields, height + base).value, height + base);
  }

  /**
   When the message types that a reference can lead to have no required cycle and no hidden
   zero, every well-formed message goes through from_pb and to_pb and comes out filled; the
   filled message goes through unchanged. Other types of the file play no part.
   */
  lemma FillsAndSettles(env: Env, names: set<string>, ref: TypeRef, pb: Pb, height: nat)
    requires EnvOk(env) && ClosedTypes(env, names) && RefWithin(names, ref)
    requires AllZeroesVisible(env, names) && TrapFree(env, names) && Sound(env, ref, pb, height)
    ensures var depth := height + |names|;
            var v := FromRef(env, ref, pb, depth);
            && v.Some? && ToRef(env, ref, v.value, depth).Some?
            && Filled(env, ref, pb, ToRef(env, ref, v.value, depth).value, depth)
            && FromRef(env, ref, ToRef(env, ref, v.value, depth).value, depth) == v
  {
    ClosedRequireOnly(env, names);
    TrapFreeIsReady(env, names);
    SoundReads(env, names, ref, pb, height, |names|);
    FillTrip(env, ref, pb, height, height + |names|);
    SecondTripIsIdle(env, ref, pb, height + |names|);
  }
}
