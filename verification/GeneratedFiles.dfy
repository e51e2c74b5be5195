/** What a pass over the files of a run generates, in terms of what the files declare. */
module GeneratedFiles {
  import opened Wrappers
  import opened Reachability
  import opened WellKnownTypes
  import opened PythonTypes
  import opened PythonCollector
  import opened PythonGraphs
  import opened TypeGraphs
  import opened CrossFile

  /** The files of the pass are those marked for generation, in their order. */
  lemma {:induction false} GeneratedInOrder(inputs: seq<Input>) returns (places: seq<nat>)
    ensures |places| == |Generated(inputs)|
    ensures forall k | 0 <= k < |places| :: places[k] < |inputs| && Generated(inputs)[k] == inputs[places[k]].desc
    ensures forall k, l | 0 <= k < l < |places| :: places[k] < places[l]
    ensures forall i: nat | i < |inputs| :: i in places <==> inputs[i].generate
  {
    places := [];
    if inputs != [] {
      var n := |inputs| - 1;
      var before := GeneratedInOrder(inputs[..n]);
      places := before + if inputs[n].generate then [n] else [];
      forall i: nat | i < |inputs|
        ensures i in places <==> inputs[i].generate
      {
        if i < n {
          assert inputs[..n][i] == inputs[i];
          assert i in places <==> i in before;
        } else {
          assert i !in before;
        }
      }
    }
  }

  /** The type becomes a class of its own: it is no type of Google's and no map entry. */
  predicate Becomes(w: World, n: Node) {
    match n
    case EnumNode(name) => name in w.enums
    case MessageNode(name) => name in w.messages && !IsGoogleName(name) && !w.messages[name].isMapEntry
  }

  predicate DeclaredIn(t: MessageTree, n: Node) {
    n == MessageNode(t.name) || (n.EnumNode? && n.name in t.enums) || exists c | c in t.nested :: DeclaredIn(c, n)
  }

  /** Declared anywhere in the file, at its top or in a message. */
  predicate DeclaredBy(f: FileDesc, n: Node) {
    (n.EnumNode? && n.name in f.enums) || exists t | t in f.messages :: DeclaredIn(t, n)
  }

  /** Where the file's collection starts: its methods' types, or, without methods, all that it declares. */
  predicate IsStart(w: World, f: FileDesc, n: Node) {
    && Becomes(w, n)
    && if f.methods != [] then n.MessageNode? && exists m | m in f.methods :: n.name == m.input || n.name == m.output
       else DeclaredBy(f, n)
  }

  lemma {:induction false} DeclaredInTree(t: MessageTree, n: Node)
    ensures n in TreeNodes(t) <==> DeclaredIn(t, n)
    decreases t
  {
    forall c | c in t.nested
      ensures n in TreeNodes(c) <==> DeclaredIn(c, n)
    {
      DeclaredInTree(c, n);
    }
  }

  lemma DeclaredByFile(f: FileDesc, n: Node)
    ensures n in DeclaredNodes(f) <==> DeclaredBy(f, n)
  {
    forall t | t in f.messages
      ensures n in TreeNodes(t) <==> DeclaredIn(t, n)
    {
      DeclaredInTree(t, n);
    }
  }

  lemma BecomesWanted(w: World, n: Node)
    requires Described(w, n) && !(n.MessageNode? && Classify(n.name).Unsupported? && !w.messages[n.name].isMapEntry)
    ensures Wanted(w, n) <==> Becomes(w, n)
  {
  }

  lemma StartsAre(w: World, f: FileDesc, n: Node)
    requires FileOk(w, f) && forall m | m in Starts(f) :: !StartRejected(w, m)
    ensures n in OwnRoots(w, f) <==> IsStart(w, f, n)
  {
    DeclaredByFile(f, n);
    if n in Starts(f) {
      BecomesWanted(w, n);
    }
  }

  /** Everything that a file starts from is in the module of that file. */
  lemma StartsAreGenerated(w: World, files: seq<FileDesc>, models: map<string, PyGraph>, f: FileDesc, n: Node)
    requires Known(w) && FilesOk(w, files) && Buildable(w, files) && FinalGraphs(w, files, models) && f in files
    requires IsStart(w, f, n)
    ensures f.path in models && n in Nodes(models[f.path].types)
  {
    assert FinalAt(w, files, models, f);
    assert Workable(w, f.path, Starts(f));
    StartsAre(w, f, n);
    ReachRoot(Graph(w), FinalRoots(w, files, f), n);
  }

  lemma {:induction false} ReachedFromOne(w: World, roots: set<Node>, n: Node) returns (s: Node)
    requires Known(w) && Reached(w, roots, n)
    ensures s in roots && Reached(w, {s}, n)
  {
    var succ := Graph(w);
    var p: seq<Node> :| |p| > 0 && p[0] in roots && p[|p| - 1] == n && IsPath(succ, p);
    s := p[0];
    assert p[0] in {s};
  }

  /** The type is reached from something that the file starts from. */
  ghost predicate Uses(w: World, f: FileDesc, n: Node)
    requires Known(w)
  {
    exists s :: IsStart(w, f, s) && Reached(w, {s}, n)
  }

  lemma OwnReachedIsUsed(w: World, f: FileDesc, n: Node)
    requires Known(w) && FileOk(w, f) && Workable(w, f.path, Starts(f)) && Reached(w, OwnRoots(w, f), n)
    ensures Uses(w, f, n)
  {
    var s := ReachedFromOne(w, OwnRoots(w, f), n);
    StartsAre(w, f, s);
  }

  /**
   Nothing else is: a type of the module is used by its own file, or by way of a type that the file
   declares itself and another file of the pass uses.
   */
  lemma GeneratedIsUsed(w: World, files: seq<FileDesc>, models: map<string, PyGraph>, f: FileDesc, n: Node)
    requires Known(w) && FilesOk(w, files) && Buildable(w, files) && FinalGraphs(w, files, models) && f in files
    requires f.path in models && n in Nodes(models[f.path].types)
    ensures || Uses(w, f, n)
            || exists g, s :: g in files && g.path != f.path && Described(w, s) && OwnFile(w, s) == f.path
                              && Uses(w, g, s) && Reached(w, {s}, n)
  {
    assert FinalAt(w, files, models, f);
    var s := ReachedFromOne(w, FinalRoots(w, files, f), n);
    if s in OwnRoots(w, f) {
      assert Workable(w, f.path, Starts(f));
      StartsAre(w, f, s);
    } else {
      var g := NeededIsUsed(w, files, f, s);
    }
  }

  lemma NeededIsUsed(w: World, files: seq<FileDesc>, f: FileDesc, s: Node) returns (g: FileDesc)
    requires Known(w) && FilesOk(w, files) && Buildable(w, files) && f in files && s in NeededNodes(w, files, f.path)
    ensures g in files && g.path != f.path && Described(w, s) && OwnFile(w, s) == f.path && Uses(w, g, s)
  {
    g :| g in files && Needs(w, g, f.path, s);
    assert Workable(w, g.path, Starts(g));
    OwnReachedIsUsed(w, g, s);
  }

  /** And what another file of the pass uses of a file is in that file's module. */
  lemma UsedIsGenerated(w: World, files: seq<FileDesc>, models: map<string, PyGraph>, f: FileDesc, g: FileDesc, n: Node)
    requires Known(w) && FilesOk(w, files) && Buildable(w, files) && FinalGraphs(w, files, models) && f in files && g in files
    requires Uses(w, g, n) && Described(w, n) && OwnFile(w, n) == f.path
    ensures f.path in models && n in Nodes(models[f.path].types)
  {
    var s :| IsStart(w, g, s) && Reached(w, {s}, n);
    assert Workable(w, g.path, Starts(g));
    StartsAre(w, g, s);
    ReachRoot(Graph(w), OwnRoots(w, g), s);
    ReachTransitive(Graph(w), OwnRoots(w, g), {s}, n);
    assert FinalAt(w, files, models, f) && FinalAt(w, files, models, g);
    ReachedFromEither(w, OwnRoots(w, g), NeededNodes(w, files, g.path), n);
    NeededIsFinal(w, files, g, f, n);
  }
}
