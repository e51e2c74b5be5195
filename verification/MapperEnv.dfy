/** What the collector checks is what the mappers rely on. */
module MapperEnv {
  import opened Wrappers
  import opened Reachability
  import opened PythonTypes
  import opened PythonCollector
  import opened PythonGraphs
  import opened TypeGraphs
  import opened CrossFile
  import opened PythonScopes
  import opened PythonModules
  import opened ClassNames
  import opened PythonMappers
  import opened MapperRoundTrip
  import opened MapperFill
  import opened MapperDepth
  import opened GeneratedMappers
  import opened MapperAgreement
  import opened MapperNames
  import opened MapperValues

  predicate IsEntry(w: World, k: Kind)
    requires KindKnown(w, k)
  {
    k.MessageKind? && w.messages[k.messageName].isMapEntry
  }

  /**
   What the protobuf compiler guarantees of a message: one scope for field and oneof names,
   no map in a oneof or in a map.
   */
  predicate WellScoped(w: World, m: MessageDesc)
    requires MessageKnown(w, m)
  {
    && (forall i, j | 0 <= i < j < |m.fields| :: m.fields[i].name != m.fields[j].name)
    && (forall i, j | 0 <= i < j < |m.oneofs| :: m.oneofs[i].name != m.oneofs[j].name)
    && (forall o, f | o in m.oneofs && f in m.fields :: o.name != f.name)
    && (forall o, f | o in m.oneofs && f in o.fields :: f in m.fields && f.oneof == Some(o.name))
    && (forall o | o in m.oneofs :: forall i, j | 0 <= i < j < |o.fields| :: o.fields[i].name != o.fields[j].name)
    && (forall f | f in m.fields && f.isMap :: MapEntry(w, f).Some?)
    && (forall f | f in m.fields && IsEntry(w, f.kind) :: f.isMap && !f.isList && f.oneof.None?)
    && (forall f | f in m.fields && MapEntry(w, f).Some? ::
          KindKnown(w, MapEntry(w, f).value.1.kind) && !IsEntry(w, MapEntry(w, f).value.1.kind))
  }

  predicate AllWellScoped(w: World)
    requires Known(w)
  {
    forall n | n in w.messages :: MessageKnown(w, w.messages[n]) && WellScoped(w, w.messages[n])
  }

  /** Two variants of a oneof whose classes had one name would have been reported. */
  lemma VariantClassesDistinct(w: World, current: string, name: string, o: OneofDesc, i: nat, j: nat)
    requires Known(w) && name in w.messages && !Disagree(w, current, MessageNode(name), MessageNode(name))
    requires o in w.messages[name].oneofs
    requires i < j < |o.fields| && o.fields[i].name != o.fields[j].name
    ensures o.fields[i].variantWrapper != o.fields[j].variantWrapper
  {
    var n, c, d := MessageNode(name), VariantClaim(w, name, o, o.fields[i]), VariantClaim(w, name, o, o.fields[j]);
    assert o.fields[i] in o.fields && o.fields[j] in o.fields;
    assert c in NameClaims(w, n) && d in NameClaims(w, n);
    assert ClaimedBy(w, current, n, c) && ClaimedBy(w, current, n, d);
    KeysDiffer(name + "." + o.name + ".", o.fields[i].name, o.fields[j].name);
  }

  lemma KeysDiffer(prefix: string, a: string, b: string)
    requires a != b
    ensures prefix + a != prefix + b
  {
    assert a == (prefix + a)[|prefix|..];
    assert b == (prefix + b)[|prefix|..];
  }

  lemma FieldsAreShaped(w: World, current: string, m: MessageDesc)
    requires Known(w) && MessageKnown(w, m) && WellScoped(w, m)
    ensures FieldsShaped(FieldsFor(w, current, m.fields))
  {
    var fs := FieldsFor(w, current, m.fields);
    forall f | f in fs && f.isMap
      ensures f.mapValue.Some?
    {
      var i :| 0 <= i < |fs| && fs[i] == f;
      assert m.fields[i] in m.fields;
    }
  }

  lemma VariantsAreShaped(w: World, current: string, name: string, o: OneofDesc)
    requires Known(w) && name in w.messages && !Disagree(w, current, MessageNode(name), MessageNode(name))
    requires o in w.messages[name].oneofs
    requires MessageKnown(w, w.messages[name]) && WellScoped(w, w.messages[name])
    ensures VariantsShaped(OneofFor(w, current, o).variants)
    ensures VariantNames(OneofFor(w, current, o).variants) == set f | f in o.fields :: f.name
  {
    var vs := VariantsFor(w, current, o.fields);
    forall i, j | 0 <= i < j < |vs|
      ensures vs[i].name != vs[j].name && vs[i].wrapper != vs[j].wrapper
    {
      VariantClassesDistinct(w, current, name, o, i, j);
    }
    forall f | f in o.fields
      ensures f.name in VariantNames(vs)
    {
      var i :| 0 <= i < |o.fields| && o.fields[i] == f;
      assert vs[i] in vs && vs[i].name == f.name;
    }
  }

  lemma OneofsApart(w: World, m: MessageDesc, o: OneofDesc, p: OneofDesc, f: FieldDesc, g: FieldDesc)
    requires MessageKnown(w, m) && WellScoped(w, m) && o in m.oneofs && p in m.oneofs && f in o.fields && g in p.fields
    requires f.name == g.name
    ensures o.name == p.name
  {
    var i :| 0 <= i < |m.fields| && m.fields[i] == f;
    var j :| 0 <= j < |m.fields| && m.fields[j] == g;
  }

  lemma OneofsAreShaped(w: World, current: string, name: string)
    requires Known(w) && name in w.messages && !Disagree(w, current, MessageNode(name), MessageNode(name))
    requires MessageKnown(w, w.messages[name]) && WellScoped(w, w.messages[name])
    ensures OneofsShaped(OneofsFor(w, current, w.messages[name].oneofs))
  {
    var m := w.messages[name];
    var os := OneofsFor(w, current, m.oneofs);
    forall o | o in os
      ensures VariantsShaped(o.variants)
    {
      var i :| 0 <= i < |os| && os[i] == o;
      assert m.oneofs[i] in m.oneofs;
      VariantsAreShaped(w, current, name, m.oneofs[i]);
    }
    forall i, j | 0 <= i < j < |os|
      ensures os[i].name != os[j].name && VariantNames(os[i].variants) !! VariantNames(os[j].variants)
    {
      assert m.oneofs[i] in m.oneofs && m.oneofs[j] in m.oneofs;
      VariantsAreShaped(w, current, name, m.oneofs[i]);
      VariantsAreShaped(w, current, name, m.oneofs[j]);
      forall f, g | f in m.oneofs[i].fields && g in m.oneofs[j].fields
        ensures f.name != g.name
      {
        if f.name == g.name {
          OneofsApart(w, m, m.oneofs[i], m.oneofs[j], f, g);
        }
      }
    }
  }

  lemma PlainNamesFrom(w: World, current: string, m: MessageDesc, n: string)
    requires Known(w) && MessageKnown(w, m) && n in PlainNames(FieldsFor(w, current, m.fields))
    ensures exists f | f in m.fields :: f.name == n && f.oneof.None?
  {
    var fs := FieldsFor(w, current, m.fields);
    var p :| p in fs && p.oneof.None? && p.name == n;
    var i :| 0 <= i < |fs| && fs[i] == p;
    assert m.fields[i] in m.fields;
  }

  lemma TypeIsShaped(w: World, current: string, name: string)
    requires Known(w) && name in w.messages && !Disagree(w, current, MessageNode(name), MessageNode(name)) && AllWellScoped(w)
    ensures Shaped(TypeFor(w, current, MessageNode(name)))
  {
    var m, t := w.messages[name], TypeFor(w, current, MessageNode(name));
    FieldsAreShaped(w, current, m);
    OneofsAreShaped(w, current, name);
    forall n | n in PlainNames(t.fields)
      ensures n !in OneofNames(t.oneofs)
      ensures forall o | o in t.oneofs :: n !in VariantNames(o.variants)
    {
      PlainNamesFrom(w, current, m, n);
      var f :| f in m.fields && f.name == n && f.oneof.None?;
      forall i | 0 <= i < |t.oneofs|
        ensures t.oneofs[i].name != n && n !in VariantNames(t.oneofs[i].variants)
      {
        assert m.oneofs[i] in m.oneofs;
        VariantsAreShaped(w, current, name, m.oneofs[i]);
        if g :| g in m.oneofs[i].fields && g.name == n {
          SameField(m.fields, f, g);
        }
      }
    }
  }

  lemma SameField(fields: seq<FieldDesc>, f: FieldDesc, g: FieldDesc)
    requires forall i, j | 0 <= i < j < |fields| :: fields[i].name != fields[j].name
    requires f in fields && g in fields && f.name == g.name
    ensures f == g
  {
    var i :| 0 <= i < |fields| && fields[i] == f;
    var j :| 0 <= j < |fields| && fields[j] == g;
  }

  // The types of a graph by full name.

  function TypesByName(types: seq<PyType>): Env {
    if types == [] then map[] else TypesByName(types[..|types| - 1])[types[|types| - 1].fullName := types[|types| - 1]]
  }

  lemma {:induction false} TypesByNameHolds(types: seq<PyType>)
    ensures forall n | n in TypesByName(types) :: TypesByName(types)[n] in types && TypesByName(types)[n].fullName == n
    ensures forall t | t in types :: t.fullName in TypesByName(types)
  {
    if types != [] {
      TypesByNameHolds(types[..|types| - 1]);
      assert types == types[..|types| - 1] + [types[|types| - 1]];
    }
  }

  /** No type lays claim to one name under two keys, as two variants of one oneof would. */
  ghost predicate SelfConsistent(w: World, current: string, roots: set<Node>)
    requires Known(w)
  {
    forall n | Reached(w, roots, n) :: !Disagree(w, current, n, n)
  }

  /** A graph of such types is one over which the mappers are inverse. */
  lemma CollectedEnvOk(w: World, current: string, roots: set<Node>, g: PyGraph)
    requires Known(w) && AllWellScoped(w) && Collected(w, current, roots, g) && SelfConsistent(w, current, roots)
    ensures EnvOk(TypesByName(g.types))
  {
    var env := TypesByName(g.types);
    TypesByNameHolds(g.types);
    forall n | n in env
      ensures Shaped(env[n])
    {
      if env[n].PyMessage? {
        assert env[n].Node() in Nodes(g.types);
        TypeIsShaped(w, current, n);
      }
    }
  }

  /** A kind that a type mentions, and that is no map entry, is a type of the graph. */
  lemma MentionedInGraph(w: World, current: string, roots: set<Node>, g: PyGraph, n: Node, k: Kind)
    requires Known(w) && Collected(w, current, roots, g) && n in Nodes(g.types) && KindIn(w, n, k) && !IsEntry(w, k)
    ensures RefWithin(Messages(TypesByName(g.types)), RefFor(w, current, k))
  {
    var ref := RefFor(w, current, k);
    if ref.MessageRef? {
      var env, b := TypesByName(g.types), MessageNode(ref.fullName);
      assert b in KindTargets(w, k);
      KindTargetReached(w, roots, n, k, b);
      assert b in Nodes(g.types);
      var u :| u in g.types && u.Node() == b;
      TypesByNameHolds(g.types);
      OneTypePerName(w, current, g.types, env[u.fullName], u);
    }
  }

  lemma FieldInGraph(w: World, current: string, roots: set<Node>, g: PyGraph, name: string, f: FieldDesc)
    requires Known(w) && AllWellScoped(w) && Collected(w, current, roots, g) && MessageNode(name) in Nodes(g.types)
    requires name in w.messages && f in w.messages[name].fields
    ensures KindKnown(w, f.kind) && FieldWithin(Messages(TypesByName(g.types)), FieldFor(w, current, f))
  {
    FieldKindIn(w, name, f);
    if !IsEntry(w, f.kind) {
      MentionedInGraph(w, current, roots, g, MessageNode(name), f.kind);
    }
    if MapEntry(w, f).Some? {
      MentionedInGraph(w, current, roots, g, MessageNode(name), MapEntry(w, f).value.1.kind);
    }
  }

  lemma VariantInGraph(w: World, current: string, roots: set<Node>, g: PyGraph, name: string, o: OneofDesc, f: FieldDesc)
    requires Known(w) && AllWellScoped(w) && Collected(w, current, roots, g) && MessageNode(name) in Nodes(g.types)
    requires name in w.messages && o in w.messages[name].oneofs && f in o.fields
    ensures KindKnown(w, f.kind) && RefWithin(Messages(TypesByName(g.types)), RefFor(w, current, f.kind))
  {
    VariantKindIn(w, name, o, f);
    assert MessageKnown(w, w.messages[name]) && WellScoped(w, w.messages[name]);
    MentionedInGraph(w, current, roots, g, MessageNode(name), f.kind);
  }

  lemma TypeHoldsOnly(w: World, current: string, roots: set<Node>, g: PyGraph, name: string)
    requires Known(w) && AllWellScoped(w) && Collected(w, current, roots, g) && MessageNode(name) in Nodes(g.types)
    requires name in w.messages
    ensures HoldsOnly(Messages(TypesByName(g.types)), TypeFor(w, current, MessageNode(name)))
  {
    var t, names, m := TypeFor(w, current, MessageNode(name)), Messages(TypesByName(g.types)), w.messages[name];
    forall p | p in t.fields
      ensures FieldWithin(names, p)
    {
      var i :| 0 <= i < |t.fields| && t.fields[i] == p;
      FieldInGraph(w, current, roots, g, name, m.fields[i]);
    }
    forall o, v | o in t.oneofs && v in o.variants
      ensures RefWithin(names, v.typ)
    {
      var desc := MessageOneof(w, current, name, o);
      var j :| 0 <= j < |o.variants| && o.variants[j] == v;
      VariantInGraph(w, current, roots, g, name, desc, desc.fields[j]);
    }
  }

  /** Every message type that a message of the graph can hold is in the graph, so it has a mapper. */
  lemma CollectedClosed(w: World, current: string, roots: set<Node>, g: PyGraph)
    requires Known(w) && AllWellScoped(w) && Collected(w, current, roots, g)
    ensures ClosedTypes(TypesByName(g.types), Messages(TypesByName(g.types)))
  {
    var env := TypesByName(g.types);
    TypesByNameHolds(g.types);
    forall n | n in Messages(env)
      ensures HoldsOnly(Messages(env), env[n])
    {
      assert env[n].Node() == MessageNode(n) && MessageNode(n) in Nodes(g.types);
      TypeHoldsOnly(w, current, roots, g, n);
    }
  }

  lemma OneTypePerName(w: World, current: string, types: seq<PyType>, t: PyType, u: PyType)
    requires Known(w) && Faithful(w, current, types) && t in types && u in types && t.fullName == u.fullName
    ensures t == u
  {
  }

  // The whole way: from a successful run of the generator to mappers that undo each other.

  lemma FinalSelfConsistent(w: World, files: seq<FileDesc>, f: FileDesc)
    requires Known(w) && FilesOk(w, files) && f in files && Buildable(w, files)
    ensures SelfConsistent(w, f.path, FinalRoots(w, files, f))
  {
    forall n | Reached(w, FinalRoots(w, files, f), n)
      ensures !Disagree(w, f.path, n, n)
    {
      ReachedFromEither(w, OwnRoots(w, f), NeededNodes(w, files, f.path), n);
    }
  }

  // The modules of a run.

  function TypesOf(models: map<string, PyGraph>, path: string): seq<PyType> {
    if path in models then models[path].types else []
  }

  function ModuleOf(models: map<string, PyGraph>, handlers: map<string, seq<Handler>>, path: string): seq<Definition> {
    ModuleDefinitions(TypesOf(models, path), HandlersOf(handlers, path))
  }

  /** A module with messages of its own file imports that file's protobuf module, after the library's. */
  function OwnProtobufModule(w: World, types: seq<PyType>, path: string): string {
    if path in w.files && exists t | t in types :: t.PyMessage? && t.owner.isCurrentFile then w.files[path].protobufModule else ""
  }

  /** What names stand for in the module of one file; `handlers` has the classes that come after the types, file by file. */
  ghost function ScopeOf(w: World, models: map<string, PyGraph>, handlers: map<string, seq<Handler>>, path: string): Scope {
    Scope(
      ModuleOf(models, handlers, path),
      map p | p in models :: ModuleOf(models, handlers, p),
      map p | p in w.files :: w.files[p].publicAlias,
      OwnProtobufModule(w, TypesOf(models, path), path),
      Loads(w, models, handlers, path))
  }

  /**
   After a successful run, a well-typed dataclass value of a generated file goes through
   that file's to_pb and from_pb unchanged exactly when Python can load the file's final module
   and no name read on the way is captured by a variable of a mapper or stands for another
   class.
   */
  lemma GeneratedRoundTrip(w: World, files: seq<FileDesc>, models: map<string, PyGraph>, handlers: map<string, seq<Handler>>,
                           f: FileDesc, ref: TypeRef, v: Value, depth: nat)
    requires Known(w) && AllWellScoped(w) && FilesOk(w, files) && f in files
    requires Buildable(w, files) && FinalGraphs(w, files, models)
    requires f.path in models && Fits(TypesByName(models[f.path].types), ref, v, depth)
    ensures var env, scope := TypesByName(models[f.path].types), ScopeOf(w, models, handlers, f.path);
            && EnvOk(env)
            && ToRef(env, ref, v, depth).Some?
            && FromRef(env, ref, ToRef(env, ref, v, depth).value, depth) == Some(v)
            && (ThereAndBack(env, scope, ref, v, depth) == Some(v) <==> CleanTrip(env, scope, ref, v, depth))
  {
    var env := TypesByName(models[f.path].types);
    assert FinalAt(w, files, models, f);
    FinalSelfConsistent(w, files, f);
    CollectedEnvOk(w, f.path, FinalRoots(w, files, f), models[f.path]);
    RoundTrip(env, ref, v, depth);
    RunRoundTrip(env, ScopeOf(w, models, handlers, f.path), ref, v, depth);
  }

  /**
   After a successful run, when the message types that a file's mappers are for have values of
   all kinds: all their well-typed values come back from the emitted mappers exactly when all
   names in them are harmless.
   */
  lemma FileComesBack(w: World, files: seq<FileDesc>, models: map<string, PyGraph>, handlers: map<string, seq<Handler>>, f: FileDesc)
    requires Known(w) && AllWellScoped(w) && FilesOk(w, files) && f in files
    requires Buildable(w, files) && FinalGraphs(w, files, models) && f.path in models
    requires var env := TypesByName(models[f.path].types); AllSampled(env, Messages(env))
    ensures var env, scope := TypesByName(models[f.path].types), ScopeOf(w, models, handlers, f.path);
            AllComeBack(env, scope, Messages(env)) <==> QuietTypes(env, scope, Messages(env))
  {
    var env, scope := TypesByName(models[f.path].types), ScopeOf(w, models, handlers, f.path);
    assert FinalAt(w, files, models, f);
    FinalSelfConsistent(w, files, f);
    CollectedEnvOk(w, f.path, FinalRoots(w, files, f), models[f.path]);
    CollectedClosed(w, f.path, FinalRoots(w, files, f), models[f.path]);
    ComeBackIffQuiet(env, scope, Messages(env));
  }

  // Names that Python does not take.

  /** A keyword among the names that a file's module spells stops all its mappers. */
  lemma KeywordStopsFile(w: World, models: map<string, PyGraph>, handlers: map<string, seq<Handler>>, path: string,
                         t: PyType, s: string, env: Env, ref: TypeRef, v: Value, depth: nat)
    requires path in models && t in models[path].types && t.owner.protoPath in w.files
    requires s in Spelled(w, t) && Keyword(s)
    ensures ThereAndBack(env, ScopeOf(w, models, handlers, path), ref, v, depth).None?
  {
    ReachRoot(ImportGraph(models), {path}, path);
    KeywordNeverLoads(w, models, handlers, path, path, t, s);
  }

  /** `message Transfer { string from = 1; }` */
  const TRANSFER: PyType :=
    PyMessage("p.Transfer", "Transfer", HOME, [PyField("from", "from", 1, TEXT, false, false, Unknown, None, false, true, None, "")], [])

  const TRANSFER_REF := MessageRef("p.Transfer", "Transfer", HOME)

  /** A value of that type is well typed and is to come back. */
  lemma TransferIsToComeBack(leaf: Leaf, depth: nat)
    requires leaf.scalar == Text
    ensures var env, v := map["p.Transfer" := TRANSFER], Object("p.Transfer", map["from" := Single(Plain(leaf))]);
            && EnvOk(env) && ToRef(env, TRANSFER_REF, v, depth + 1).Some?
            && FromRef(env, TRANSFER_REF, ToRef(env, TRANSFER_REF, v, depth + 1).value, depth + 1) == Some(v)
  {
    var env, v := map["p.Transfer" := TRANSFER], Object("p.Transfer", map["from" := Single(Plain(leaf))]);
    assert TRANSFER.fields[0] in TRANSFER.fields;
    assert PlainNames(TRANSFER.fields) == {"from"};
    assert OneofNames(TRANSFER.oneofs) == {};
    assert Shaped(TRANSFER);
    assert v.attrs.Keys == PlainNames(TRANSFER.fields) + OneofNames(TRANSFER.oneofs);
    assert FitsAttr(env, TRANSFER.fields[0], v.attrs["from"], depth);
    assert FitsMessage(env, TRANSFER, v.attrs, depth);
    RoundTrip(env, TRANSFER_REF, v, depth + 1);
  }

  /** It does not, in any run with that type. */
  lemma TransferNeverComesBack(w: World, models: map<string, PyGraph>, handlers: map<string, seq<Handler>>, path: string,
                               v: Value, depth: nat)
    requires path in models && TRANSFER in models[path].types && HOME.protoPath in w.files
    ensures ThereAndBack(map["p.Transfer" := TRANSFER], ScopeOf(w, models, handlers, path), TRANSFER_REF, v, depth).None?
  {
    assert TRANSFER.fields[0] in TRANSFER.fields;
    assert "from" in PlainNames(TRANSFER.fields);
    KeywordStopsFile(w, models, handlers, path, TRANSFER, "from", map["p.Transfer" := TRANSFER], TRANSFER_REF, v, depth);
  }

  // When the names are the generator's.

  lemma {:induction false} ResolveAppend(defs: seq<Definition>, more: seq<Definition>, name: string)
    ensures Resolve(defs + more, name) == if Resolve(more, name).Some? then Resolve(more, name) else Resolve(defs, name)
    decreases |more|
  {
    if more == [] {
      assert defs + more == defs;
    } else {
      assert (defs + more)[..|defs + more| - 1] == defs + more[..|more| - 1];
      ResolveAppend(defs, more[..|more| - 1], name);
    }
  }

  predicate NamesHandler(handlers: seq<Handler>, name: string) {
    exists h | h in handlers :: h.name == name
  }

  lemma {:induction false} HandlersDefine(handlers: seq<Handler>)
    ensures forall d | d in HandlerDefinitions(handlers) :: d.key.HandlerClass? && NamesHandler(handlers, d.name)
    ensures forall h | h in handlers :: Definition(h.name, HandlerClass(h.name)) in HandlerDefinitions(handlers)
  {
    if handlers != [] {
      HandlersDefine(handlers[1..]);
      assert handlers == [handlers[0]] + handlers[1..];
    }
  }

  /** A class of the file is found in the finished module when it is found among the file's classes and no handler replaces it. */
  lemma FoundInModule(types: seq<PyType>, handlers: seq<Handler>, d: Definition)
    requires d in ClassDefinitions(types) && !d.key.Builtin? && !d.key.HandlerClass?
    ensures Found(ModuleDefinitions(types, handlers), d) <==> Found(ClassDefinitions(types), d) && !NamesHandler(handlers, d.name)
  {
    var own, later := ClassDefinitions(types), HandlerDefinitions(handlers);
    var first := [Definition(UNSET, Builtin(UNSET)), Definition(EMPTY_CLASS, Builtin(EMPTY_CLASS))];
    ResolveAppend(first + own, later, d.name);
    ResolveAppend(first, own, d.name);
    ResolveFinds(later, d.name);
    ResolveFinds(own, d.name);
    HandlersDefine(handlers);
  }

  /** The name UNSET keeps its meaning exactly when no class of the file and no handler is called UNSET. */
  lemma UnsetKeptIff(types: seq<PyType>, handlers: seq<Handler>)
    ensures Found(ModuleDefinitions(types, handlers), Definition(UNSET, Builtin(UNSET))) <==>
              (forall d | d in ClassDefinitions(types) :: d.name != UNSET) && !NamesHandler(handlers, UNSET)
  {
    var own, later := ClassDefinitions(types), HandlerDefinitions(handlers);
    var first := [Definition(UNSET, Builtin(UNSET)), Definition(EMPTY_CLASS, Builtin(EMPTY_CLASS))];
    assert UNSET != EMPTY_CLASS by { assert UNSET[0] != EMPTY_CLASS[0]; }
    assert first[..1] == [Definition(UNSET, Builtin(UNSET))];
    assert Resolve(first, UNSET) == Some(Builtin(UNSET));
    ResolveAppend(first + own, later, UNSET);
    ResolveAppend(first, own, UNSET);
    ResolveFinds(later, UNSET);
    ResolveFinds(own, UNSET);
    HandlersDefine(handlers);
    forall d | d in own {
      OwnClassKeys(types, d);
    }
  }

  lemma OwnClassKeys(types: seq<PyType>, d: Definition)
    requires d in ClassDefinitions(types)
    ensures !d.key.Builtin? && !d.key.HandlerClass?
    ensures exists t | t in types :: t.owner.isCurrentFile && t.fullName == d.key.fullName
  {
    ClassDefinitionsExact(types);
    var t :| t in types && t.owner.isCurrentFile && d in TypeDefinitions(t);
    TypeDefinitionCases(t, d);
  }

  /**
   In the module of a generated file every class of the file is found under its own name
   exactly when no two of its types claim a class name for different symbols and no handler
   has one of the names.
   */
  lemma ClassesFound(w: World, files: seq<FileDesc>, models: map<string, PyGraph>, handlers: map<string, seq<Handler>>, f: FileDesc)
    requires Known(w) && SymbolsUnique(w) && FilesOk(w, files) && f in files && FinalGraphs(w, files, models)
    requires f.path in models
    ensures (forall d | d in ClassDefinitions(models[f.path].types) :: Found(ModuleOf(models, handlers, f.path), d)) <==>
              && ClassNamesDisjoint(w, f.path, FinalRoots(w, files, f))
              && forall d | d in ClassDefinitions(models[f.path].types) :: !NamesHandler(HandlersOf(handlers, f.path), d.name)
  {
    var types := models[f.path].types;
    DistinctIffDisjoint(w, files, models, f);
    AllFoundIffApart(ClassDefinitions(types));
    forall d | d in ClassDefinitions(types)
      ensures Found(ModuleOf(models, handlers, f.path), d) <==>
                Found(ClassDefinitions(types), d) && !NamesHandler(HandlersOf(handlers, f.path), d.name)
    {
      OwnClassKeys(types, d);
      FoundInModule(types, HandlersOf(handlers, f.path), d);
    }
  }

  lemma VariantIsDefined(t: PyType, o: PyOneof, v: PyVariant)
    requires t.PyMessage? && o in t.oneofs && v in o.variants
    ensures Definition(v.wrapper, VariantClass(t.fullName, o.name, v.name)) in TypeDefinitions(t)
  {
    var d := Definition(v.wrapper, VariantClass(t.fullName, o.name, v.name));
    assert DefinedByOneof(t, o, d);
    TypeDefinitionCases(t, d);
  }

  lemma {:induction false} OwnBranchTaken(scope: Scope, t: PyType, o: PyOneof, variants: seq<PyVariant>, v: PyVariant)
    requires VariantsShaped(variants) && v in variants
    requires forall u | u in variants :: Resolve(scope.own, u.wrapper) == Some(VariantClass(t.fullName, o.name, u.name))
    ensures TakenBranch(scope, variants, VariantClass(t.fullName, o.name, v.name)) == Some(v)
  {
    if v != variants[0] {
      var i :| 0 <= i < |variants| && variants[i] == v;
      OwnBranchTaken(scope, t, o, variants[1..], v);
    }
  }

  /** The names that the from_pb mapper of a type reads from its module, or from Python. */
  function NamesRead(scope: Scope, t: PyType): set<string>
    requires t.PyMessage?
  {
    {scope.Root(t.owner, t.publicName), LIST, DICT, ENUM_HELPER}
    + (set o, v | o in t.oneofs && v in o.variants :: v.wrapper)
    + (set f, n | f in t.fields && n in FieldNamesRead(scope, f) :: n)
    + (set o, v, n | o in t.oneofs && v in o.variants && n in RefNamesRead(scope, v.typ) :: n)
  }

  function RefNamesRead(scope: Scope, ref: TypeRef): set<string> {
    match ref
    case ScalarRef(_) => {}
    case EnumRef(_, publicName, owner) => {scope.Root(owner, publicName)}
    case WellKnownRef(n, _) => {scope.KnownHelper("from_pb", n)}
    case MessageRef(_, publicName, owner) => {scope.Helper("from_pb", owner, publicName)}
  }

  function FieldNamesRead(scope: Scope, f: PyField): set<string> {
    RefNamesRead(scope, f.typ) + if f.mapValue.Some? then RefNamesRead(scope, f.mapValue.value) else {}
  }

  /** What a reference stands for is there: an enum class under its name, the class for Empty and the library's module kept. */
  predicate RefResolved(scope: Scope, ref: TypeRef) {
    && RefModuleKept(scope, ref)
    && (ref.EnumRef? ==> scope.TypeNamed(ref.owner, ref.publicName) == Some(TypeClass(ref.fullName)))
    && (ref.WellKnownRef? ==> EmptyClassKept(scope, ref.fullName))
  }

  predicate RefsResolved(scope: Scope, t: PyType)
    requires t.PyMessage?
  {
    && (forall f | f in t.fields && f.oneof.None? ::
          (f.isRepeated || !f.isMap ==> RefResolved(scope, f.typ)) && (f.mapValue.Some? ==> RefResolved(scope, f.mapValue.value)))
    && (forall o, v | o in t.oneofs && v in o.variants :: RefResolved(scope, v.typ))
  }

  lemma UncapturedRef(scope: Scope, locals: set<string>, ref: TypeRef)
    requires RefNamesRead(scope, ref) !! locals && ENUM_HELPER !in locals && RefResolved(scope, ref)
    ensures QuietRef(scope, locals, ref)
  {
  }

  lemma UncapturedField(scope: Scope, t: PyType, f: PyField)
    requires t.PyMessage? && f in t.fields && f.oneof.None? && NamesRead(scope, t) !! LocalNames(t) && RefsResolved(scope, t)
    requires UsesUnset(f) ==> UnsetKept(scope)
    ensures QuietField(scope, LocalNames(t), f)
  {
    assert LIST in NamesRead(scope, t) && DICT in NamesRead(scope, t) && ENUM_HELPER in NamesRead(scope, t);
    assert FieldNamesRead(scope, f) <= NamesRead(scope, t);
    if f.isRepeated || !f.isMap {
      UncapturedRef(scope, LocalNames(t), f.typ);
    } else if f.mapValue.Some? {
      UncapturedRef(scope, LocalNames(t), f.mapValue.value);
    }
  }

  /**
   A type of the file whose classes are all found is quiet when the module loads, class bodies
   keep the names of its members, its oneofs' variables stay apart and none of them has a name
   that its mapper reads.
   */
  lemma OwnTypeIsQuiet(scope: Scope, t: PyType)
    requires t.PyMessage? && Shaped(t) && t.owner.isCurrentFile
    requires scope.loads && FieldsKept(t) && forall o, v | o in t.oneofs && v in o.variants :: !Private(v.name)
    requires LeavesOut(t) ==> UnsetKept(scope)
    requires forall d | d in TypeDefinitions(t) :: Found(scope.own, d)
    requires VariablesApart(t.oneofs) && NamesRead(scope, t) !! LocalNames(t) && RefsResolved(scope, t)
    ensures ReadsQuietly(scope, t) && WritesQuietly(scope, t)
  {
    TypeDefinitionCases(t, Definition(t.publicName, TypeClass(t.fullName)));
    assert scope.Root(t.owner, t.publicName) in NamesRead(scope, t);
    forall f | f in t.fields && f.oneof.None? {
      UncapturedField(scope, t, f);
    }
    forall o, v | o in t.oneofs && v in o.variants
      ensures QuietVariant(scope, t, o, v) && VariantWritesQuietly(scope, t, o, v)
    {
      assert v.wrapper in NamesRead(scope, t) && ENUM_HELPER in NamesRead(scope, t);
      assert RefNamesRead(scope, v.typ) <= NamesRead(scope, t);
      forall u | u in o.variants
        ensures Resolve(scope.own, u.wrapper) == Some(VariantClass(t.fullName, o.name, u.name))
      {
        VariantIsDefined(t, o, u);
        assert Found(scope.own, Definition(u.wrapper, VariantClass(t.fullName, o.name, u.name)));
      }
      OwnBranchTaken(scope, t, o, o.variants, v);
      UncapturedRef(scope, LocalNames(t), v.typ);
    }
  }

  // Classes that are not found.

  /** When a variant's class is not what its name stands for, no message with that member set can be read. */
  lemma LostVariantNeverReads(env: Env, scope: Scope, t: PyType, o: PyOneof, v: PyVariant, fields: Fields, depth: nat)
    requires t.PyMessage? && OneofsShaped(t.oneofs) && o in t.oneofs && WhichOneof(o.variants, fields) == Some(v)
    requires !Found(scope.own, Definition(v.wrapper, VariantClass(t.fullName, o.name, v.name)))
    ensures RunFromMessage(env, scope, t, fields, depth).None?
  {
    assert t.oneofs[..|t.oneofs|] == t.oneofs;
    var i :| 0 <= i < |t.oneofs| && t.oneofs[i] == o;
    assert RunFromVariant(env, scope, t, t.oneofs[i], fields, depth).None?;
    if RunOneofs(env, scope, t, t.oneofs, fields, depth).Some? {
      OneofsRun(env, scope, t, |t.oneofs|, fields, depth);
    }
  }

  /**
   The classes of an imported type's oneofs are called by their bare names, which the
   importing module does not have: a message of such a type with a member set cannot be read.
   */
  lemma ImportedOneofNeverReads(env: Env, scope: Scope, types: seq<PyType>, handlers: seq<Handler>, t: PyType, o: PyOneof,
                                v: PyVariant, fields: Fields, depth: nat)
    requires scope.own == ModuleDefinitions(types, handlers) && NamesOnce(types)
    requires t in types && !t.owner.isCurrentFile && t.PyMessage? && OneofsShaped(t.oneofs) && o in t.oneofs
    requires WhichOneof(o.variants, fields) == Some(v)
    ensures RunFromMessage(env, scope, t, fields, depth).None?
  {
    var d := Definition(v.wrapper, VariantClass(t.fullName, o.name, v.name));
    if Found(scope.own, d) {
      NotOwnDefinition(types, handlers, t, d);
    }
    LostVariantNeverReads(env, scope, t, o, v, fields, depth);
  }

  lemma NotOwnDefinition(types: seq<PyType>, handlers: seq<Handler>, t: PyType, d: Definition)
    requires NamesOnce(types) && t in types && !t.owner.isCurrentFile && d.key.VariantClass? && d.key.fullName == t.fullName
    ensures !Found(ModuleDefinitions(types, handlers), d)
  {
    var defs := ModuleDefinitions(types, handlers);
    ResolveFinds(defs, d.name);
    HandlersDefine(handlers);
    forall u | u in types && u.owner.isCurrentFile
      ensures u.fullName != t.fullName
    {
      var i :| 0 <= i < |types| && types[i] == t;
      var j :| 0 <= j < |types| && types[j] == u;
    }
    if d in ClassDefinitions(types) {
      OwnClassKeys(types, d);
    }
  }
}
