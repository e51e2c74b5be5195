/**
 The pass over all generated files: each file's own graph, then, once, the types that
 other files need of it.
 */
module CrossFile {
  import opened Wrappers
  import opened Reachability
  import opened PythonTypes
  import opened PythonCollector
  import opened PythonGraphs
  import opened TypeGraphs

  datatype Input = Input(desc: FileDesc, generate: bool)

  function Generated(files: seq<Input>): seq<FileDesc> {
    if files == [] then []
    else
      var front := Generated(files[..|files| - 1]);
      if files[|files| - 1].generate then front + [files[|files| - 1].desc] else front
  }

  ghost predicate FileOk(w: World, f: FileDesc) {
    AllDescribed(w, MethodNodes(f.methods)) && AllDescribed(w, DeclaredNodes(f))
  }

  /** What the compiler guarantees of its input. */
  ghost predicate FilesOk(w: World, files: seq<FileDesc>) {
    && (forall f | f in files :: AllDescribed(w, MethodNodes(f.methods)) && AllDescribed(w, DeclaredNodes(f)))
    && (forall i, j | 0 <= i < j < |files| :: files[i].path != files[j].path)
  }

  /** A file without tool methods starts from its own declarations. */
  function Starts(f: FileDesc): set<Node> {
    StartNodes(f, |f.methods| == 0)
  }

  ghost function OwnRoots(w: World, f: FileDesc): set<Node>
    requires FileOk(w, f)
  {
    Roots(w, Starts(f))
  }

  // What other files need of a file, said of the descriptors alone.

  ghost predicate Needs(w: World, f: FileDesc, file: string, n: Node)
    requires Known(w) && FileOk(w, f)
  {
    f.path != file && Reached(w, OwnRoots(w, f), n) && OwnFile(w, n) == file
  }

  ghost function NeededNodes(w: World, files: seq<FileDesc>, file: string): set<Node>
    requires Known(w) && FilesOk(w, files)
  {
    set n | n in AllNodes(w) && exists f | f in files :: Needs(w, f, file, n)
  }

  /** The roots of a file's final graph. */
  ghost function FinalRoots(w: World, files: seq<FileDesc>, f: FileDesc): set<Node>
    requires Known(w) && FilesOk(w, files) && f in files
  {
    OwnRoots(w, f) + NeededNodes(w, files, f.path)
  }

  ghost predicate OwnGraphs(w: World, files: seq<FileDesc>, models: map<string, PyGraph>)
    requires Known(w) && FilesOk(w, files)
  {
    forall f | f in files :: f.path in models && Collected(w, f.path, OwnRoots(w, f), models[f.path])
  }

  ghost predicate FinalAt(w: World, files: seq<FileDesc>, models: map<string, PyGraph>, f: FileDesc)
    requires Known(w) && FilesOk(w, files) && f in files
  {
    f.path in models && Collected(w, f.path, FinalRoots(w, files, f), models[f.path]) && ClassesDistinct(models[f.path].types)
  }

  ghost predicate FinalGraphs(w: World, files: seq<FileDesc>, models: map<string, PyGraph>)
    requires Known(w) && FilesOk(w, files)
  {
    forall f | f in files :: FinalAt(w, files, models, f)
  }

  // One pass is enough.

  /** Whatever is reached from what others need of a file is reached by one of those others. */
  lemma NeededReach(w: World, files: seq<FileDesc>, file: string, n: Node)
    requires Known(w) && FilesOk(w, files) && Reached(w, NeededNodes(w, files, file), n)
    ensures exists f | f in files :: Reached(w, OwnRoots(w, f), n)
  {
    var succ, roots := Graph(w), NeededNodes(w, files, file);
    var p: seq<Node> :| |p| > 0 && p[0] in roots && p[|p| - 1] == n && IsPath(succ, p);
    var f :| f in files && Needs(w, f, file, p[0]);
    ReachRoot(succ, {p[0]}, p[0]);
    assert p[0] in {p[0]};
    ReachTransitive(succ, OwnRoots(w, f), {p[0]}, n);
  }

  lemma FinalReach(w: World, files: seq<FileDesc>, f: FileDesc, n: Node)
    requires Known(w) && FilesOk(w, files) && f in files && Reached(w, FinalRoots(w, files, f), n)
    ensures exists g | g in files :: Reached(w, OwnRoots(w, g), n)
  {
    ReachedFromEither(w, OwnRoots(w, f), NeededNodes(w, files, f.path), n);
    if Reached(w, NeededNodes(w, files, f.path), n) {
      NeededReach(w, files, f.path, n);
    }
  }

  lemma NeededIsFinal(w: World, files: seq<FileDesc>, f: FileDesc, g: FileDesc, n: Node)
    requires Known(w) && FilesOk(w, files) && f in files && g in files
    requires Reached(w, FinalRoots(w, files, f), n) && OwnFile(w, n) == g.path
    ensures Reached(w, FinalRoots(w, files, g), n)
  {
    FinalReach(w, files, f, n);
    var h :| h in files && Reached(w, OwnRoots(w, h), n);
    ReachedFromEither(w, OwnRoots(w, g), NeededNodes(w, files, g.path), n);
    if h.path == g.path {
      SamePath(w, files, g, h);
    } else {
      assert Needs(w, h, g.path, n);
      assert n in AllNodes(w);
      ReachRoot(Graph(w), NeededNodes(w, files, g.path), n);
    }
  }

  lemma SamePath(w: World, files: seq<FileDesc>, g: FileDesc, h: FileDesc)
    requires FilesOk(w, files) && g in files && h in files && g.path == h.path
    ensures g == h
  {
    var i :| 0 <= i < |files| && files[i] == g;
    var j :| 0 <= j < |files| && files[j] == h;
  }

  /**
     After one augmentation pass no reference between generated files dangles: a type in
     the final graph of `f` that belongs to `g` is in the final graph of `g`.
   */
  lemma OnePassSuffices(w: World, files: seq<FileDesc>, models: map<string, PyGraph>, f: FileDesc, g: FileDesc, t: PyType)
    requires Known(w) && FilesOk(w, files) && FinalGraphs(w, files, models)
    requires f in files && g in files && f.path in models && t in models[f.path].types && t.owner.protoPath == g.path
    ensures g.path in models && TypeFor(w, g.path, t.Node()) in models[g.path].types
    ensures TypeFor(w, g.path, t.Node()).owner.isCurrentFile
  {
    var n := t.Node();
    assert FinalAt(w, files, models, f) && FinalAt(w, files, models, g);
    assert n in Nodes(models[f.path].types);
    NeededIsFinal(w, files, f, g, n);
    assert n in Nodes(models[g.path].types);
    var u :| u in models[g.path].types && u.Node() == n;
  }

  /** What is reached from types that are there already is reached from the final roots. */
  lemma ReachedFromFinal(w: World, files: seq<FileDesc>, models: map<string, PyGraph>, g: FileDesc, refs: set<Node>, n: Node)
    requires Known(w) && FilesOk(w, files) && FinalGraphs(w, files, models) && g in files
    requires forall m | m in refs ::
               Described(w, m) && OwnFile(w, m) == g.path && exists f | f in files && f.path in models :: m in Nodes(models[f.path].types)
    requires Reached(w, refs, n)
    ensures Reached(w, FinalRoots(w, files, g), n)
  {
    forall m | m in refs
      ensures Reach(Graph(w), FinalRoots(w, files, g), m)
    {
      var f :| f in files && f.path in models && m in Nodes(models[f.path].types);
      assert FinalAt(w, files, models, f);
      NeededIsFinal(w, files, f, g, m);
    }
    ReachTransitive(Graph(w), FinalRoots(w, files, g), refs, n);
  }

  /** A second pass finds nothing to add: merging any graph collected from types already there changes nothing. */
  lemma SecondPassIsIdle(w: World, files: seq<FileDesc>, models: map<string, PyGraph>, g: FileDesc, refs: set<Node>, extra: PyGraph)
    requires Known(w) && FilesOk(w, files) && FinalGraphs(w, files, models) && g in files
    requires forall n | n in refs ::
               Described(w, n) && OwnFile(w, n) == g.path && exists f | f in files && f.path in models :: n in Nodes(models[f.path].types)
    requires Collected(w, g.path, refs, extra)
    ensures MergeGraphs(models[g.path], extra) == models[g.path]
  {
    assert FinalAt(w, files, models, g);
    var base := models[g.path].types;
    forall t | t in extra.types
      ensures t.fullName in Names(base)
    {
      assert t.Node() in Nodes(extra.types);
      ReachedFromFinal(w, files, models, g, refs, t.Node());
      assert t.Node() in Nodes(base);
      var u :| u in base && u.Node() == t.Node();
    }
    MergeNothing(base, extra.types);
    forall p | p in extra.imports
      ensures p in models[g.path].imports
    {
      var n :| Reached(w, refs, n) && p in FilesOf(w, n);
      ReachedFromFinal(w, files, models, g, refs, n);
      assert Imported(w, FinalRoots(w, files, g), p);
    }
    ImportNothing(models[g.path].imports, extra.imports);
  }

  lemma {:induction false} ImportNothing(base: seq<string>, extra: seq<string>)
    requires forall p | p in extra :: p in base
    ensures MergeImports(base, extra) == base
  {
    if extra != [] {
      assert extra[|extra| - 1] in extra;
      ImportNothing(base, extra[..|extra| - 1]);
    }
  }

  lemma {:induction false} MergeNothing(base: seq<PyType>, extra: seq<PyType>)
    requires forall t | t in extra :: t.fullName in Names(base)
    ensures MergeTypes(base, extra) == base
  {
    if extra != [] {
      assert extra[|extra| - 1] in extra;
      MergeNothing(base, extra[..|extra| - 1]);
    }
  }

  // What the references collected by the pass stand for.

  /** Full names of the types in the graphs of `files` that belong to the file `path`, another one. */
  function RefsTo(files: seq<FileDesc>, models: map<string, PyGraph>, path: string): set<string> {
    set f, t | f in files && f.path in models && t in models[f.path].types
               && !t.owner.isCurrentFile && t.owner.protoPath == path :: t.fullName
  }

  lemma RefIsNeeded(w: World, files: seq<FileDesc>, models: map<string, PyGraph>, path: string, n: Node)
    requires Known(w) && FilesOk(w, files) && OwnGraphs(w, files, models) && Described(w, n)
    requires n.name in RefsTo(files, models, path)
    ensures n in NeededNodes(w, files, path)
  {
    var f, t :| f in files && f.path in models && t in models[f.path].types
                && !t.owner.isCurrentFile && t.owner.protoPath == path && t.fullName == n.name;
    assert t.Node() in Nodes(models[f.path].types);
    NodeByName(w, t.Node(), n);
    assert Needs(w, f, path, n);
    assert n in AllNodes(w);
  }

  lemma NeededIsRef(w: World, files: seq<FileDesc>, models: map<string, PyGraph>, path: string, n: Node)
    requires Known(w) && FilesOk(w, files) && OwnGraphs(w, files, models) && n in NeededNodes(w, files, path)
    ensures n.name in RefsTo(files, models, path)
  {
    var f :| f in files && Needs(w, f, path, n);
    assert n in Nodes(models[f.path].types);
    var t :| t in models[f.path].types && t.Node() == n;
  }

  lemma RefsAreNeeds(w: World, files: seq<FileDesc>, models: map<string, PyGraph>, path: string, n: Node)
    requires Known(w) && FilesOk(w, files) && OwnGraphs(w, files, models) && Described(w, n)
    ensures n.name in RefsTo(files, models, path) <==> n in NeededNodes(w, files, path)
  {
    if n.name in RefsTo(files, models, path) {
      RefIsNeeded(w, files, models, path, n);
    }
    if n in NeededNodes(w, files, path) {
      NeededIsRef(w, files, models, path, n);
    }
  }

  lemma RefsAreDescribed(w: World, files: seq<FileDesc>, models: map<string, PyGraph>, path: string, ref: string)
    requires Known(w) && FilesOk(w, files) && OwnGraphs(w, files, models) && ref in RefsTo(files, models, path)
    ensures exists n | n in NeededNodes(w, files, path) :: n.name == ref
  {
    var f, t :| f in files && f.path in models && t in models[f.path].types
                && !t.owner.isCurrentFile && t.owner.protoPath == path && t.fullName == ref;
    RefsAreNeeds(w, files, models, path, t.Node());
  }

  /** Only classes are reached: no map entry and no well-known type. */
  lemma ReachedWanted(w: World, starts: set<Node>, n: Node)
    requires Known(w) && AllDescribed(w, starts) && Reached(w, Roots(w, starts), n)
    ensures Wanted(w, n)
  {
    var s := set m | m in AllNodes(w) && Described(w, m) && Wanted(w, m);
    forall a, b | a in s && Edge(Graph(w), a, b)
      ensures b in s
    {
      SuccessorWanted(w, a, b);
    }
    ReachInClosed(Graph(w), Roots(w, starts), s, n);
  }

  lemma SuccessorWanted(w: World, a: Node, b: Node)
    requires Known(w) && Described(w, a) && b in Successors(w, a)
    ensures Described(w, b) && Wanted(w, b) && b in AllNodes(w)
  {
    SuccessorsDescribed(w, a, b);
  }

  lemma NeededWanted(w: World, files: seq<FileDesc>, path: string, n: Node)
    requires Known(w) && FilesOk(w, files) && n in NeededNodes(w, files, path)
    ensures Described(w, n) && Wanted(w, n) && !StartRejected(w, n)
  {
    var f :| f in files && Needs(w, f, path, n);
    ReachedWanted(w, Starts(f), n);
  }

  /** The name of a needed type stands for that type, if its file declares it. */
  predicate StandsFor(f: FileDesc, refs: set<string>, n: Node) {
    && n.name in refs
    && (RefNode(f, n.name).Some? <==> n in DeclaredNodes(f))
    && (RefNode(f, n.name).Some? ==> RefNode(f, n.name).value == n)
  }

  lemma NeededStandsFor(w: World, files: seq<FileDesc>, models: map<string, PyGraph>, f: FileDesc, n: Node)
    requires Known(w) && FilesOk(w, files) && OwnGraphs(w, files, models) && f in files
    requires n in NeededNodes(w, files, f.path)
    ensures StandsFor(f, RefsTo(files, models, f.path), n)
  {
    NeededWanted(w, files, f.path, n);
    RefsAreNeeds(w, files, models, f.path, n);
    if RefNode(f, n.name).Some? {
      NodeByName(w, n, RefNode(f, n.name).value);
    }
  }

  lemma RefNodesMatch(f: FileDesc, refs: set<string>, needed: set<Node>)
    requires forall n | n in needed :: StandsFor(f, refs, n)
    requires forall ref | ref in refs :: exists n | n in needed :: n.name == ref
    ensures AllFound(f, refs) <==> needed <= DeclaredNodes(f)
    ensures AllFound(f, refs) ==> RefNodes(f, refs) == needed
  {
    if AllFound(f, refs) {
      forall n
        ensures n in RefNodes(f, refs) <==> n in needed
      {
        if n in RefNodes(f, refs) {
          var ref :| ref in refs && RefNode(f, ref).Some? && RefNode(f, ref).value == n;
          var m :| m in needed && m.name == ref;
          assert StandsFor(f, refs, m);
        }
        if n in needed {
          assert StandsFor(f, refs, n);
        }
      }
    }
    if needed <= DeclaredNodes(f) {
      forall ref | ref in refs
        ensures RefNode(f, ref).Some?
      {
        var m :| m in needed && m.name == ref;
        assert StandsFor(f, refs, m);
      }
    }
  }

  /** When all are declared where they are said to be, the references are the needed types. */
  lemma RefNodesAreNeeded(w: World, files: seq<FileDesc>, models: map<string, PyGraph>, f: FileDesc)
    requires Known(w) && FilesOk(w, files) && OwnGraphs(w, files, models) && f in files
    ensures AllFound(f, RefsTo(files, models, f.path)) <==> NeededNodes(w, files, f.path) <= DeclaredNodes(f)
    ensures AllFound(f, RefsTo(files, models, f.path)) ==>
              RefNodes(f, RefsTo(files, models, f.path)) == NeededNodes(w, files, f.path)
  {
    var refs, needed := RefsTo(files, models, f.path), NeededNodes(w, files, f.path);
    forall n | n in needed
      ensures StandsFor(f, refs, n)
    {
      NeededStandsFor(w, files, models, f, n);
    }
    forall ref | ref in refs
      ensures exists n | n in needed :: n.name == ref
    {
      RefsAreDescribed(w, files, models, f.path, ref);
    }
    RefNodesMatch(f, refs, needed);
  }

  lemma NeededAreRoots(w: World, files: seq<FileDesc>, path: string)
    requires Known(w) && FilesOk(w, files)
    ensures AllDescribed(w, NeededNodes(w, files, path))
    ensures Roots(w, NeededNodes(w, files, path)) == NeededNodes(w, files, path)
    ensures Workable(w, path, NeededNodes(w, files, path)) <==> !Fails(w, path, NeededNodes(w, files, path))
  {
    forall n | n in NeededNodes(w, files, path)
      ensures Described(w, n) && Wanted(w, n) && !StartRejected(w, n)
    {
      NeededWanted(w, files, path, n);
    }
  }

  // When the pass succeeds.

  function PublicName(w: World, n: Node): string
    requires Described(w, n)
  {
    match n
    case MessageNode(name) => w.messages[name].publicName
    case EnumNode(name) => w.enums[name].publicName
  }

  /** Two types of the current file with one public name. */
  predicate Twins(w: World, current: string, a: Node, b: Node)
    requires Described(w, a) && Described(w, b)
  {
    a != b && OwnFile(w, a) == current && OwnFile(w, b) == current && PublicName(w, a) == PublicName(w, b)
  }

  ghost predicate TwinFree(w: World, current: string, roots: set<Node>)
    requires Known(w)
  {
    forall a, b | Reached(w, roots, a) && Reached(w, roots, b) :: !Twins(w, current, a, b)
  }

  lemma TwinsAreSameClass(w: World, current: string, types: seq<PyType>, t: PyType, u: PyType)
    requires Known(w) && Faithful(w, current, types) && t in types && u in types
    ensures SameClass(t, u) <==> Twins(w, current, t.Node(), u.Node())
  {
    if t.fullName == u.fullName {
      NodeByName(w, t.Node(), u.Node());
    }
  }

  lemma TwinFreeIsDistinct(w: World, current: string, roots: set<Node>, g: PyGraph)
    requires Known(w) && Collected(w, current, roots, g)
    ensures TwinFree(w, current, roots) <==> ClassesDistinct(g.types)
  {
    if TwinFree(w, current, roots) {
      forall t, u | t in g.types && u in g.types
        ensures !SameClass(t, u)
      {
        TwinsAreSameClass(w, current, g.types, t, u);
        assert t.Node() in Nodes(g.types) && u.Node() in Nodes(g.types);
      }
    } else {
      var a, b :| Reached(w, roots, a) && Reached(w, roots, b) && Twins(w, current, a, b);
      assert a in Nodes(g.types) && b in Nodes(g.types);
      var t :| t in g.types && t.Node() == a;
      var u :| u in g.types && u.Node() == b;
      TwinsAreSameClass(w, current, g.types, t, u);
    }
  }

  /** What the pass asks of one file, beyond that its own types can be collected. */
  ghost predicate Augmentable(w: World, files: seq<FileDesc>, f: FileDesc)
    requires Known(w) && FilesOk(w, files) && f in files
  {
    && NeededNodes(w, files, f.path) <= DeclaredNodes(f)
    && !Fails(w, f.path, NeededNodes(w, files, f.path))
    && TwinFree(w, f.path, FinalRoots(w, files, f))
  }

  ghost predicate Buildable(w: World, files: seq<FileDesc>)
    requires Known(w) && FilesOk(w, files)
  {
    forall f | f in files :: Workable(w, f.path, Starts(f)) && Augmentable(w, files, f)
  }

  /** With nothing needed there is nothing to do, and nothing that could fail. */
  lemma NothingNeeded(w: World, files: seq<FileDesc>, f: FileDesc, g: PyGraph)
    requires Known(w) && FilesOk(w, files) && f in files && NeededNodes(w, files, f.path) == {}
    requires Collected(w, f.path, OwnRoots(w, f), g) && ClassesDistinct(g.types)
    ensures Augmentable(w, files, f) && FinalRoots(w, files, f) == OwnRoots(w, f)
  {
    TwinFreeIsDistinct(w, f.path, OwnRoots(w, f), g);
    assert FinalRoots(w, files, f) == OwnRoots(w, f);
    forall n
      ensures !Reached(w, {}, n)
    {
    }
  }

  // The pass itself.

  method CollectOwn(w: KnownWorld, inputs: seq<Input>) returns (result: Result<(map<string, PyGraph>, seq<FileDesc>), GraphError>)
    requires FilesOk(w, Generated(inputs))
    ensures result.Ok? <==> forall f | f in Generated(inputs) :: Workable(w, f.path, Starts(f))
    ensures result.Ok? ==> result.value.1 == Generated(inputs) && OwnGraphs(w, Generated(inputs), result.value.0)
    ensures result.Ok? ==> result.value.0.Keys == Paths(Generated(inputs))
  {
    var models, ordered := map[], [];
    for i := 0 to |inputs|
      invariant ordered == Generated(inputs[..i]) && ordered <= Generated(inputs) && models.Keys == Paths(ordered)
      invariant forall f | f in ordered :: Workable(w, f.path, Starts(f))
      invariant forall f | f in ordered :: f.path in models && Collected(w, f.path, OwnRoots(w, f), models[f.path])
    {
      GeneratedStep(inputs, i);
      if inputs[i].generate {
        var f := inputs[i].desc;
        assert f == Generated(inputs)[|ordered|];
        var graph := CollectFromMethods(w, f, |f.methods| == 0);
        if graph.Err? {
          return Err(graph.error);
        }
        forall g | g in ordered
          ensures g.path != f.path
        {
        }
        models := models[f.path := graph.value];
        PathsStep(ordered, f);
        ordered := ordered + [f];
      }
    }
    assert inputs[..|inputs|] == inputs;
    return Ok((models, ordered));
  }

  function Paths(files: seq<FileDesc>): set<string> {
    set f | f in files :: f.path
  }

  lemma PathsStep(files: seq<FileDesc>, f: FileDesc)
    ensures Paths(files + [f]) == Paths(files) + {f.path}
  {
    forall p | p in Paths(files) + {f.path}
      ensures p in Paths(files + [f])
    {
      if p in Paths(files) {
        var g :| g in files && g.path == p;
        assert g in files + [f];
      } else {
        assert f in files + [f];
      }
    }
  }

  lemma {:induction false} GeneratedPrefix(inputs: seq<Input>, i: nat)
    requires i <= |inputs|
    ensures Generated(inputs[..i]) <= Generated(inputs)
  {
    if i == |inputs| {
      assert inputs[..i] == inputs;
    } else {
      GeneratedPrefix(inputs[..|inputs| - 1], i);
      assert inputs[..|inputs| - 1][..i] == inputs[..i];
    }
  }

  lemma GeneratedStep(inputs: seq<Input>, i: nat)
    requires i < |inputs|
    ensures Generated(inputs[..i + 1]) == Generated(inputs[..i]) + if inputs[i].generate then [inputs[i].desc] else []
    ensures Generated(inputs[..i + 1]) <= Generated(inputs)
  {
    assert inputs[..i + 1][..i] == inputs[..i];
    GeneratedPrefix(inputs, i + 1);
  }

  function RefsAt(refs: map<string, set<string>>, path: string): set<string> {
    if path in refs then refs[path] else {}
  }

  /** One file's share of the references, on top of those found before. */
  method GatherFrom(types: seq<PyType>, found: map<string, set<string>>) returns (refs: map<string, set<string>>)
    ensures forall path :: RefsAt(refs, path) == RefsAt(found, path) + TypeRefs(types, path)
  {
    refs := found;
    for j := 0 to |types|
      invariant forall path :: RefsAt(refs, path) == RefsAt(found, path) + TypeRefs(types[..j], path)
    {
      var t := types[j];
      ghost var before := refs;
      if !t.owner.isCurrentFile {
        refs := refs[t.owner.protoPath := RefsAt(refs, t.owner.protoPath) + {t.fullName}];
      }
      forall path
        ensures RefsAt(refs, path) == RefsAt(found, path) + TypeRefs(types[..j + 1], path)
      {
        TypeRefsStep(types, j, path);
        assert RefsAt(before, path) == RefsAt(found, path) + TypeRefs(types[..j], path);
      }
    }
    assert types[..|types|] == types;
  }

  method GatherRefs(files: seq<FileDesc>, models: map<string, PyGraph>) returns (refs: map<string, set<string>>)
    requires forall f | f in files :: f.path in models
    ensures forall path :: RefsAt(refs, path) == RefsTo(files, models, path)
  {
    refs := map[];
    for i := 0 to |files|
      invariant forall path :: RefsAt(refs, path) == RefsTo(files[..i], models, path)
    {
      ghost var before := refs;
      refs := GatherFrom(models[files[i].path].types, refs);
      forall path
        ensures RefsAt(refs, path) == RefsTo(files[..i + 1], models, path)
      {
        RefsToStep(files, models, path, i);
        assert RefsAt(before, path) == RefsTo(files[..i], models, path);
      }
    }
    assert files[..|files|] == files;
  }

  function TypeRefs(types: seq<PyType>, path: string): set<string> {
    set t | t in types && !t.owner.isCurrentFile && t.owner.protoPath == path :: t.fullName
  }

  lemma TypeRefsStep(types: seq<PyType>, j: nat, path: string)
    requires j < |types|
    ensures TypeRefs(types[..j + 1], path) == TypeRefs(types[..j], path) + TypeRefs([types[j]], path)
  {
    assert types[..j + 1] == types[..j] + [types[j]];
  }

  lemma RefsToStep(files: seq<FileDesc>, models: map<string, PyGraph>, path: string, i: nat)
    requires i < |files| && files[i].path in models
    ensures RefsTo(files[..i + 1], models, path) == RefsTo(files[..i], models, path) + TypeRefs(models[files[i].path].types, path)
  {
    assert files[..i + 1] == files[..i] + [files[i]];
  }

  /** A merge that goes through, or does not, seen from the descriptors. */
  lemma MergeOutcome(w: World, files: seq<FileDesc>, f: FileDesc, base: PyGraph, extra: PyGraph)
    requires Known(w) && FilesOk(w, files) && f in files
    requires Collected(w, f.path, OwnRoots(w, f), base) && ClassesDistinct(base.types)
    requires Collected(w, f.path, NeededNodes(w, files, f.path), extra)
    ensures Collected(w, f.path, FinalRoots(w, files, f), MergeGraphs(base, extra))
    ensures !Clash(base.types, extra.types) <==> TwinFree(w, f.path, FinalRoots(w, files, f))
    ensures !Clash(base.types, extra.types) ==> ClassesDistinct(MergeTypes(base.types, extra.types))
  {
    MergeCollected(w, f.path, OwnRoots(w, f), NeededNodes(w, files, f.path), base, extra);
    TwinFreeIsDistinct(w, f.path, FinalRoots(w, files, f), MergeGraphs(base, extra));
    ClashIffNotDistinct(w, f.path, base.types, extra.types);
  }

  /** augmentPythonModelWithCurrentTypeRefs, for a file that has a graph. */
  method Augment(w: KnownWorld, ghost files: seq<FileDesc>, ghost models: map<string, PyGraph>, f: FileDesc,
                 graph: PyGraph, refs: set<string>)
    returns (result: Result<PyGraph, GraphError>)
    requires FilesOk(w, files) && OwnGraphs(w, files, models) && f in files && refs == RefsTo(files, models, f.path)
    requires Collected(w, f.path, OwnRoots(w, f), graph) && ClassesDistinct(graph.types)
    ensures result.Ok? <==> Augmentable(w, files, f)
    ensures result.Ok? ==> Collected(w, f.path, FinalRoots(w, files, f), result.value) && ClassesDistinct(result.value.types)
  {
    RefNodesAreNeeded(w, files, models, f);
    NeededAreRoots(w, files, f.path);
    if refs == {} {
      NothingNeeded(w, files, f, graph);
      return Ok(graph);
    }
    var extra := CollectFromRefs(w, f, refs);
    if extra.Err? {
      return Err(extra.error);
    }
    MergeOutcome(w, files, f, graph, extra.value);
    var base := new TypeGraph(graph);
    var merged := base.Merge(extra.value);
    if merged.Fail? {
      return Err(merged.error);
    }
    return Ok(base.Value());
  }

  lemma OwnDistinct(w: World, f: FileDesc, g: PyGraph)
    requires Known(w) && FileOk(w, f) && Workable(w, f.path, Starts(f)) && Collected(w, f.path, OwnRoots(w, f), g)
    ensures ClassesDistinct(g.types)
  {
    CollectedClassesDistinct(w, f.path, OwnRoots(w, f), g);
  }

  ghost predicate DoneTo(w: World, files: seq<FileDesc>, models: map<string, PyGraph>, k: nat)
    requires Known(w) && FilesOk(w, files) && k <= |files|
  {
    forall j | 0 <= j < k :: Augmentable(w, files, files[j]) && FinalAt(w, files, models, files[j])
  }

  lemma DoneStep(w: World, files: seq<FileDesc>, models: map<string, PyGraph>, i: nat, g: PyGraph)
    requires Known(w) && FilesOk(w, files) && i < |files| && DoneTo(w, files, models, i) && Augmentable(w, files, files[i])
    requires Collected(w, files[i].path, FinalRoots(w, files, files[i]), g) && ClassesDistinct(g.types)
    ensures DoneTo(w, files, models[files[i].path := g], i + 1)
  {
    forall j | 0 <= j < i
      ensures Augmentable(w, files, files[j]) && FinalAt(w, files, models[files[i].path := g], files[j])
    {
      assert FinalAt(w, files, models, files[j]);
      assert files[j].path != files[i].path;
    }
  }

  lemma AllDone(w: World, files: seq<FileDesc>, models: map<string, PyGraph>)
    requires Known(w) && FilesOk(w, files) && DoneTo(w, files, models, |files|)
    ensures (forall f | f in files :: Augmentable(w, files, f)) && FinalGraphs(w, files, models)
  {
    forall f | f in files
      ensures Augmentable(w, files, f) && FinalAt(w, files, models, f)
    {
      var j :| 0 <= j < |files| && files[j] == f;
    }
  }

  method AugmentAll(w: KnownWorld, files: seq<FileDesc>, own: map<string, PyGraph>, refs: map<string, set<string>>)
    returns (result: Result<map<string, PyGraph>, GraphError>)
    requires FilesOk(w, files) && OwnGraphs(w, files, own)
    requires forall f | f in files :: Workable(w, f.path, Starts(f))
    requires forall path :: RefsAt(refs, path) == RefsTo(files, own, path)
    ensures result.Ok? <==> forall f | f in files :: Augmentable(w, files, f)
    ensures result.Ok? ==> FinalGraphs(w, files, result.value) && result.value.Keys == own.Keys
  {
    var models := own;
    for i := 0 to |files|
      invariant models.Keys == own.Keys
      invariant DoneTo(w, files, models, i)
      invariant forall j | i <= j < |files| :: files[j].path in models && models[files[j].path] == own[files[j].path]
    {
      var f := files[i];
      OwnDistinct(w, f, own[f.path]);
      var graph := Augment(w, files, own, f, models[f.path], RefsAt(refs, f.path));
      if graph.Err? {
        return Err(graph.error);
      }
      DoneStep(w, files, models, i, graph.value);
      models := models[f.path := graph.value];
    }
    AllDone(w, files, models);
    return Ok(models);
  }

  /**
     collectPythonModels: succeeds exactly when every file can be collected and augmented,
     and then every file's graph holds what is reachable from its own starts and from
     what the other files need of it.
   */
  method CollectModels(w: KnownWorld, inputs: seq<Input>) returns (result: Result<map<string, PyGraph>, GraphError>)
    requires FilesOk(w, Generated(inputs))
    ensures result.Ok? <==> Buildable(w, Generated(inputs))
    ensures result.Ok? ==> FinalGraphs(w, Generated(inputs), result.value) && result.value.Keys == Paths(Generated(inputs))
  {
    var own := CollectOwn(w, inputs);
    if own.Err? {
      return Err(own.error);
    }
    var (models, files) := own.value;
    var refs := GatherRefs(files, models);
    result := AugmentAll(w, files, models, refs);
  }
}
