/**
 Type graphs of whole files: where collection starts, and what the finished graph is.
 */
module PythonGraphs {
  import opened Wrappers
  import opened Reachability
  import opened PythonTypes
  import opened PythonCollector

  datatype PyGraph = PyGraph(types: seq<PyType>, imports: seq<string>)

  /** A message declaration with the declarations nested in it. */
  datatype MessageTree = MessageTree(name: string, nested: seq<MessageTree>, enums: seq<string>)

  datatype Method = Method(input: string, output: string)

  /** A proto file: its tool methods, which are the included ones, and its declarations. */
  datatype FileDesc = FileDesc(path: string, methods: seq<Method>, messages: seq<MessageTree>, enums: seq<string>)

  datatype GraphError =
    | Uncollectable(error: CollectError)
    | TypeNotFound(name: string)
    | NameClash(name: string, existing: string, other: string)

  // Where collection starts.

  function TreeNodes(t: MessageTree): set<Node> {
    {MessageNode(t.name)}
    + (set c, n | c in t.nested && n in TreeNodes(c) :: n)
    + EnumNodes(t.enums)
  }

  function DeclaredNodes(f: FileDesc): set<Node> {
    ForestNodes(f.messages) + EnumNodes(f.enums)
  }

  function MethodNodes(methods: seq<Method>): set<Node> {
    (set m | m in methods :: MessageNode(m.input)) + (set m | m in methods :: MessageNode(m.output))
  }

  function StartNodes(f: FileDesc, includeDeclared: bool): set<Node> {
    MethodNodes(f.methods) + if includeDeclared then DeclaredNodes(f) else {}
  }

  ghost predicate AllDescribed(w: World, nodes: set<Node>) {
    forall n | n in nodes :: Described(w, n)
  }

  /** A start that becomes a class of its own, unlike map entries and well-known types. */
  predicate Wanted(w: World, n: Node)
    requires Described(w, n)
  {
    n.MessageNode? ==> Collectable(w, n.name)
  }

  ghost function Roots(w: World, starts: set<Node>): set<Node>
    requires AllDescribed(w, starts)
  {
    set n | n in starts && Wanted(w, n)
  }

  predicate StartRejected(w: World, n: Node)
    requires Described(w, n)
  {
    n.MessageNode? && Classify(n.name).Unsupported? && !w.messages[n.name].isMapEntry
  }

  /** Nothing stands in the way of collecting from these starts. */
  ghost predicate Workable(w: World, current: string, starts: set<Node>)
    requires Known(w) && AllDescribed(w, starts)
  {
    !Fails(w, current, Roots(w, starts)) && forall n | n in starts :: !StartRejected(w, n)
  }

  // What the finished graph is.

  ghost predicate Imported(w: World, roots: set<Node>, file: string)
    requires Known(w)
  {
    exists n :: Reached(w, roots, n) && file in FilesOf(w, n)
  }

  predicate Faithful(w: World, current: string, types: seq<PyType>)
    requires Known(w)
  {
    forall t | t in types :: Described(w, t.Node()) && t == TypeFor(w, current, t.Node())
  }

  predicate NoDuplicates<T(==)>(s: seq<T>) {
    forall i, j | 0 <= i < j < |s| :: s[i] != s[j]
  }

  predicate NoTypeTwice(types: seq<PyType>) {
    forall i, j | 0 <= i < j < |types| :: types[i].Node() != types[j].Node()
  }

  /** Exactly the reachable types, each once and rightly translated, with exactly the imports they need. */
  ghost predicate Collected(w: World, current: string, roots: set<Node>, g: PyGraph)
    requires Known(w)
  {
    && Faithful(w, current, g.types) && NoTypeTwice(g.types)
    && (forall n :: n in Nodes(g.types) <==> Reached(w, roots, n))
    && NoDuplicates(g.imports)
    && (forall p :: p in g.imports <==> p != current && Imported(w, roots, p))
  }

  lemma FinishedReachesAll(w: World, current: string, roots: set<Node>, st: State, n: Node)
    requires Known(w) && st in States(w, current, roots, {}) && (forall r | r in roots :: Seen(st, r))
    ensures n in Nodes(st.types) <==> Reached(w, roots, n)
    ensures n in Nodes(st.types) <==> Seen(st, n)
  {
    if Reached(w, roots, n) {
      var s := Nodes(st.types);
      forall a, b | a in s && Edge(Graph(w), a, b)
        ensures b in s
      {
        assert Complete(w, current, st, a);
        assert Seen(st, b);
      }
      ReachInClosed(Graph(w), roots, s, n);
    }
  }

  lemma FinishedImports(w: World, current: string, roots: set<Node>, st: State, p: string)
    requires Known(w) && st in States(w, current, roots, {}) && (forall r | r in roots :: Seen(st, r))
    ensures p in st.imports <==> p != current && Imported(w, roots, p)
  {
    if p in st.imports {
      assert HasImporter(w, st, p);
      var n :| Seen(st, n) && Described(w, n) && p in FilesOf(w, n);
      assert Reached(w, roots, n);
    }
    if p != current && Imported(w, roots, p) {
      var n :| Reached(w, roots, n) && p in FilesOf(w, n);
      FinishedReachesAll(w, current, roots, st, n);
      assert Complete(w, current, st, n);
      assert Noted(w, current, st, p);
    }
  }

  lemma FinishedHolds(w: World, current: string, roots: set<Node>, st: State, n: Node, c: Claim)
    requires Known(w) && st in States(w, current, roots, {}) && (forall r | r in roots :: Seen(st, r))
    requires Reached(w, roots, n) && ClaimedBy(w, current, n, c)
    ensures Held(st, c)
  {
    FinishedReachesAll(w, current, roots, st, n);
    assert Complete(w, current, st, n);
    if c !in NameClaims(w, n) {
      var p :| p in FilesOf(w, n) && p in w.files && p != current && c in AliasClaims(w, p);
      assert Noted(w, current, st, p);
    }
  }

  lemma FinishedRenders(w: World, current: string, roots: set<Node>, st: State)
    requires Known(w) && st in States(w, current, roots, {}) && (forall r | r in roots :: Seen(st, r))
    ensures !Unrenderable(w, roots)
  {
    forall n | Reached(w, roots, n)
      ensures !Rejected(w, n)
    {
      FinishedReachesAll(w, current, roots, st, n);
      assert Complete(w, current, st, n);
    }
  }

  lemma FinishedAgree(w: World, current: string, roots: set<Node>, st: State, a: Node, b: Node)
    requires Known(w) && st in States(w, current, roots, {}) && (forall r | r in roots :: Seen(st, r))
    requires Reached(w, roots, a) && Reached(w, roots, b)
    ensures !Disagree(w, current, a, b)
  {
    forall c, d | ClaimedBy(w, current, a, c) && ClaimedBy(w, current, b, d)
      ensures c.slot == d.slot ==> c.key == d.key
    {
      FinishedHolds(w, current, roots, st, a, c);
      FinishedHolds(w, current, roots, st, b, d);
    }
  }

  lemma FinishedHasNoConflict(w: World, current: string, roots: set<Node>, st: State)
    requires Known(w) && st in States(w, current, roots, {}) && (forall r | r in roots :: Seen(st, r))
    ensures !Conflict(w, current, roots)
  {
    forall a, b | Reached(w, roots, a) && Reached(w, roots, b)
      ensures !Disagree(w, current, a, b)
    {
      FinishedAgree(w, current, roots, st, a, b);
    }
  }

  lemma FinishedTypes(w: World, current: string, st: State, frames: set<Node>)
    requires Known(w) && TypesOk(w, current, st, frames)
    ensures Faithful(w, current, st.types) && NoTypeTwice(st.types)
  {
  }

  /** When no frame is open and every root was seen, the work is done and nothing was in conflict. */
  lemma Finished(w: World, current: string, roots: set<Node>, st: State)
    requires Known(w) && st in States(w, current, roots, {}) && (forall r | r in roots :: Seen(st, r))
    ensures Collected(w, current, roots, PyGraph(st.types, st.imports))
    ensures !Fails(w, current, roots)
  {
    forall n
      ensures n in Nodes(st.types) <==> Reached(w, roots, n)
    {
      FinishedReachesAll(w, current, roots, st, n);
    }
    forall p
      ensures p in st.imports <==> p != current && Imported(w, roots, p)
    {
      FinishedImports(w, current, roots, st, p);
    }
    FinishedTypes(w, current, st, {});
    FinishedHasNoConflict(w, current, roots, st);
    FinishedRenders(w, current, roots, st);
  }

  // The runs over a collector.

  /** A start has been dealt with: skipped, or seen. */
  predicate Handled(w: World, st: State, n: Node)
    requires Described(w, n)
  {
    !StartRejected(w, n) && (Wanted(w, n) ==> Seen(st, n))
  }

  ghost predicate AllHandled(w: World, st: State, nodes: set<Node>) {
    forall n | n in nodes :: Described(w, n) && Handled(w, st, n)
  }

  lemma AllHandledGrows(w: World, before: State, after: State, nodes: set<Node>)
    requires AllHandled(w, before, nodes) && Grows(before, after)
    ensures AllHandled(w, after, nodes)
  {
    forall n | n in nodes
      ensures Described(w, n) && Handled(w, after, n)
    {
      assert Handled(w, before, n);
    }
  }

  lemma RootReached(w: World, starts: set<Node>, n: Node)
    requires Known(w) && AllDescribed(w, starts) && n in starts && Wanted(w, n)
    ensures Reached(w, Roots(w, starts), n)
  {
    ReachRoot(Graph(w), Roots(w, starts), n);
  }

  method CollectStart(c: Collector, n: Node, ghost starts: set<Node>) returns (result: Outcome<CollectError>)
    requires AllDescribed(c.w, starts) && c.roots == Roots(c.w, starts) && c.Valid({}) && n in starts
    modifies c
    ensures result.Fail? ==> !Workable(c.w, c.current, starts)
    ensures result.Pass? ==> c.Valid({}) && Grows(old(c.St()), c.St()) && Handled(c.w, c.St(), n)
  {
    if Wanted(c.w, n) {
      RootReached(c.w, starts, n);
    }
    match n
    case MessageNode(name) =>
      result := c.CollectMessage(name, {});
      if result.Fail? && StartRejected(c.w, n) {
        assert n in starts;
      }
    case EnumNode(name) =>
      EnumStepInv(c.w, c.current, c.roots, c.St(), {}, name);
      result := c.CollectEnum(name);
  }

  method CollectMethods(c: Collector, methods: seq<Method>, ghost starts: set<Node>) returns (result: Outcome<CollectError>)
    requires AllDescribed(c.w, starts) && c.roots == Roots(c.w, starts) && c.Valid({}) && MethodNodes(methods) <= starts
    modifies c
    ensures result.Fail? ==> !Workable(c.w, c.current, starts)
    ensures result.Pass? ==> c.Valid({}) && Grows(old(c.St()), c.St()) && AllHandled(c.w, c.St(), MethodNodes(methods))
  {
    ghost var before := c.St();
    for i := 0 to |methods|
      invariant c.Valid({}) && Grows(before, c.St())
      invariant AllHandled(c.w, c.St(), MethodNodes(methods[..i]))
    {
      assert methods[i] in methods;
      ghost var s0 := c.St();
      var first := CollectStart(c, MessageNode(methods[i].input), starts);
      if first.Fail? {
        return first;
      }
      ghost var s1 := c.St();
      var second := CollectStart(c, MessageNode(methods[i].output), starts);
      if second.Fail? {
        return second;
      }
      MethodsHandled(c.w, s0, s1, c.St(), methods, i);
      GrowsTransitive(before, s0, s1);
      GrowsTransitive(before, s1, c.St());
    }
    assert methods[..|methods|] == methods;
    return Pass;
  }

  lemma MethodsHandled(w: World, s0: State, s1: State, s2: State, methods: seq<Method>, i: nat)
    requires i < |methods| && Grows(s0, s1) && Grows(s1, s2)
    requires AllHandled(w, s0, MethodNodes(methods[..i]))
    requires Described(w, MessageNode(methods[i].input)) && Handled(w, s1, MessageNode(methods[i].input))
    requires Described(w, MessageNode(methods[i].output)) && Handled(w, s2, MessageNode(methods[i].output))
    ensures AllHandled(w, s2, MethodNodes(methods[..i + 1]))
  {
    AllHandledGrows(w, s0, s1, MethodNodes(methods[..i]));
    AllHandledGrows(w, s1, s2, MethodNodes(methods[..i]));
    AllHandledGrows(w, s1, s2, {MessageNode(methods[i].input)});
    forall n | n in MethodNodes(methods[..i + 1])
      ensures n in MethodNodes(methods[..i]) || n == MessageNode(methods[i].input) || n == MessageNode(methods[i].output)
    {
      var m :| m in methods[..i + 1] && (n == MessageNode(m.input) || n == MessageNode(m.output));
      assert m == methods[i] || m in methods[..i];
    }
  }

  function EnumNodes(enums: seq<string>): set<Node> {
    set e | e in enums :: EnumNode(e)
  }

  lemma EnumNodesStep(enums: seq<string>, i: nat)
    requires i < |enums|
    ensures EnumNodes(enums[..i + 1]) == EnumNodes(enums[..i]) + {EnumNode(enums[i])}
  {
  }

  method CollectEnums(c: Collector, enums: seq<string>, ghost starts: set<Node>) returns (result: Outcome<CollectError>)
    requires AllDescribed(c.w, starts) && c.roots == Roots(c.w, starts) && c.Valid({})
    requires EnumNodes(enums) <= starts
    modifies c
    ensures result.Fail? ==> !Workable(c.w, c.current, starts)
    ensures result.Pass? ==> c.Valid({}) && Grows(old(c.St()), c.St())
    ensures result.Pass? ==> AllHandled(c.w, c.St(), EnumNodes(enums))
  {
    ghost var before := c.St();
    for i := 0 to |enums|
      invariant c.Valid({}) && Grows(before, c.St())
      invariant AllHandled(c.w, c.St(), EnumNodes(enums[..i]))
    {
      ghost var between := c.St();
      result := CollectStart(c, EnumNode(enums[i]), starts);
      if result.Fail? {
        return;
      }
      AllHandledGrows(c.w, between, c.St(), EnumNodes(enums[..i]));
      EnumNodesStep(enums, i);
      GrowsTransitive(before, between, c.St());
    }
    assert enums[..|enums|] == enums;
    return Pass;
  }

  /** collectMessageTree: the message, then what is nested in it. */
  method CollectTree(c: Collector, t: MessageTree, ghost starts: set<Node>) returns (result: Outcome<CollectError>)
    requires AllDescribed(c.w, starts) && c.roots == Roots(c.w, starts) && c.Valid({}) && TreeNodes(t) <= starts
    modifies c
    ensures result.Fail? ==> !Workable(c.w, c.current, starts)
    ensures result.Pass? ==> c.Valid({}) && Grows(old(c.St()), c.St()) && AllHandled(c.w, c.St(), TreeNodes(t))
    decreases t, 1
  {
    ghost var s0 := c.St();
    result := CollectStart(c, MessageNode(t.name), starts);
    if result.Fail? {
      return;
    }
    ghost var s1 := c.St();
    result := CollectTrees(c, t, t.nested, starts);
    if result.Fail? {
      return;
    }
    ghost var s2 := c.St();
    result := CollectEnums(c, t.enums, starts);
    if result.Fail? {
      return;
    }
    AllHandledGrows(c.w, s1, s2, {MessageNode(t.name)});
    AllHandledGrows(c.w, s2, c.St(), {MessageNode(t.name)} + ForestNodes(t.nested));
    GrowsTransitive(s0, s1, s2);
    GrowsTransitive(s0, s2, c.St());
  }

  function ForestNodes(trees: seq<MessageTree>): set<Node> {
    set t, n | t in trees && n in TreeNodes(t) :: n
  }

  method CollectTrees(c: Collector, ghost parent: MessageTree, trees: seq<MessageTree>, ghost starts: set<Node>)
    returns (result: Outcome<CollectError>)
    requires forall t | t in trees :: t < parent
    requires AllDescribed(c.w, starts) && c.roots == Roots(c.w, starts) && c.Valid({}) && ForestNodes(trees) <= starts
    modifies c
    ensures result.Fail? ==> !Workable(c.w, c.current, starts)
    ensures result.Pass? ==> c.Valid({}) && Grows(old(c.St()), c.St()) && AllHandled(c.w, c.St(), ForestNodes(trees))
    decreases parent, 0
  {
    ghost var before := c.St();
    for i := 0 to |trees|
      invariant c.Valid({}) && Grows(before, c.St())
      invariant AllHandled(c.w, c.St(), ForestNodes(trees[..i]))
    {
      ghost var between := c.St();
      assert trees[i] in trees;
      result := CollectTree(c, trees[i], starts);
      if result.Fail? {
        return;
      }
      AllHandledGrows(c.w, between, c.St(), ForestNodes(trees[..i]));
      ForestStep(trees, i);
      GrowsTransitive(before, between, c.St());
    }
    assert trees[..|trees|] == trees;
    return Pass;
  }

  lemma ForestStep(trees: seq<MessageTree>, i: nat)
    requires i < |trees|
    ensures ForestNodes(trees[..i + 1]) == ForestNodes(trees[..i]) + TreeNodes(trees[i])
  {
  }

  lemma HandledFinishes(w: World, current: string, starts: set<Node>, st: State)
    requires Known(w) && AllDescribed(w, starts) && AllHandled(w, st, starts)
    requires st in States(w, current, Roots(w, starts), {})
    ensures Workable(w, current, starts)
    ensures Collected(w, current, Roots(w, starts), PyGraph(st.types, st.imports))
  {
    forall r | r in Roots(w, starts)
      ensures Seen(st, r)
    {
      assert Handled(w, st, r);
    }
    Finished(w, current, Roots(w, starts), st);
    forall n | n in starts
      ensures !StartRejected(w, n)
    {
      assert Handled(w, st, n);
    }
  }

  /**
     collectPythonTypeGraphFromMethods: succeeds exactly when nothing reachable is in
     conflict, and then collects exactly what is reachable.
   */
  method CollectFromMethods(w: KnownWorld, f: FileDesc, includeDeclared: bool) returns (result: Result<PyGraph, GraphError>)
    requires AllDescribed(w, StartNodes(f, includeDeclared))
    ensures result.Ok? <==> Workable(w, f.path, StartNodes(f, includeDeclared))
    ensures result.Ok? ==> Collected(w, f.path, Roots(w, StartNodes(f, includeDeclared)), result.value)
  {
    ghost var starts := StartNodes(f, includeDeclared);
    var c := new Collector(w, f.path, Roots(w, starts));
    var done := CollectMethods(c, f.methods, starts);
    if done.Fail? {
      return Err(Uncollectable(done.error));
    }
    if includeDeclared {
      ghost var s0 := c.St();
      done := CollectTrees(c, MessageTree("", f.messages, []), f.messages, starts);
      if done.Fail? {
        return Err(Uncollectable(done.error));
      }
      ghost var s1 := c.St();
      done := CollectEnums(c, f.enums, starts);
      if done.Fail? {
        return Err(Uncollectable(done.error));
      }
      AllHandledGrows(w, s0, s1, MethodNodes(f.methods));
      AllHandledGrows(w, s1, c.St(), MethodNodes(f.methods) + ForestNodes(f.messages));
    }
    HandledFinishes(w, f.path, starts, c.St());
    return Ok(PyGraph(c.types, c.imports));
  }

  /** What a reference stands for in the file that declares it. */
  function RefNode(f: FileDesc, ref: string): Option<Node> {
    if MessageNode(ref) in DeclaredNodes(f) then Some(MessageNode(ref))
    else if EnumNode(ref) in DeclaredNodes(f) then Some(EnumNode(ref))
    else None
  }

  function RefNodes(f: FileDesc, refs: set<string>): (r: set<Node>)
    ensures r <= DeclaredNodes(f)
  {
    set ref | ref in refs && RefNode(f, ref).Some? :: RefNode(f, ref).value
  }

  predicate AllFound(f: FileDesc, refs: set<string>) {
    forall ref | ref in refs :: RefNode(f, ref).Some?
  }

  /** collectPythonTypeGraphFromRefs; the references may be taken in any order. */
  method CollectFromRefs(w: KnownWorld, f: FileDesc, refs: set<string>) returns (result: Result<PyGraph, GraphError>)
    requires AllDescribed(w, DeclaredNodes(f))
    ensures result.Ok? <==> AllFound(f, refs) && Workable(w, f.path, RefNodes(f, refs))
    ensures result.Ok? ==> Collected(w, f.path, Roots(w, RefNodes(f, refs)), result.value)
  {
    ghost var starts := RefNodes(f, refs);
    var c := new Collector(w, f.path, Roots(w, starts));
    var left := refs;
    while left != {}
      invariant left <= refs && c.Valid({}) && c.w == w && c.current == f.path && c.roots == Roots(w, starts)
      invariant AllFound(f, refs - left) && AllHandled(w, c.St(), RefNodes(f, refs - left))
    {
      var ref :| ref in left;
      var n := RefNode(f, ref);
      if n.None? {
        return Err(TypeNotFound(ref));
      }
      ghost var before := c.St();
      var done := CollectStart(c, n.value, starts);
      if done.Fail? {
        return Err(Uncollectable(done.error));
      }
      AllHandledGrows(w, before, c.St(), RefNodes(f, refs - left));
      left := left - {ref};
    }
    assert refs - left == refs;
    HandledFinishes(w, f.path, starts, c.St());
    return Ok(PyGraph(c.types, c.imports));
  }
}
