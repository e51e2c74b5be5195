/** Merging what another file needs of a file into that file's own type graph. */
module TypeGraphs {
  import opened Wrappers
  import opened Reachability
  import opened PythonTypes
  import opened PythonCollector
  import opened PythonGraphs

  function Names(types: seq<PyType>): set<string> {
    set t | t in types :: t.fullName
  }

  /** `extra` after `base`, leaving out every type whose full name is there already. */
  function MergeTypes(base: seq<PyType>, extra: seq<PyType>): seq<PyType> {
    if extra == [] then base
    else
      var merged := MergeTypes(base, extra[..|extra| - 1]);
      if extra[|extra| - 1].fullName in Names(merged) then merged else merged + [extra[|extra| - 1]]
  }

  function MergeImports(base: seq<string>, extra: seq<string>): seq<string> {
    if extra == [] then base
    else
      var merged := MergeImports(base, extra[..|extra| - 1]);
      if extra[|extra| - 1] in merged then merged else merged + [extra[|extra| - 1]]
  }

  function MergeGraphs(base: PyGraph, extra: PyGraph): PyGraph {
    PyGraph(MergeTypes(base.types, extra.types), MergeImports(base.imports, extra.imports))
  }

  /** Two types of the current file that would be one Python class. */
  predicate SameClass(t: PyType, u: PyType) {
    t.owner.isCurrentFile && u.owner.isCurrentFile && t.publicName == u.publicName && t.fullName != u.fullName
  }

  predicate ClassesDistinct(types: seq<PyType>) {
    forall t, u | t in types && u in types :: !SameClass(t, u)
  }

  /** A type of `extra` has the class name of another type that comes before it in the merge. */
  ghost predicate Clash(base: seq<PyType>, extra: seq<PyType>) {
    exists i, u | 0 <= i < |extra| && u in MergeTypes(base, extra[..i]) :: SameClass(extra[i], u)
  }

  // What the merge of two lists is.

  lemma {:induction false} MergeKeepsBase(base: seq<PyType>, extra: seq<PyType>)
    ensures base <= MergeTypes(base, extra)
    ensures Names(MergeTypes(base, extra)) == Names(base) + Names(extra)
    ensures forall t | t in MergeTypes(base, extra) :: t in base || t in extra
  {
    if extra != [] {
      var last := extra[|extra| - 1];
      var front := extra[..|extra| - 1];
      MergeKeepsBase(base, front);
      assert extra == front + [last];
      NamesAppend(front, last);
      NamesAppend(MergeTypes(base, front), last);
    }
  }

  lemma NamesAppend(types: seq<PyType>, t: PyType)
    ensures Names(types + [t]) == Names(types) + {t.fullName}
  {
    forall name
      ensures name in Names(types + [t]) <==> name in Names(types) + {t.fullName}
    {
      if name in Names(types) {
        var u :| u in types && u.fullName == name;
        assert u in types + [t];
      }
      assert t in types + [t];
    }
  }

  predicate NamesOnce(types: seq<PyType>) {
    forall i, j | 0 <= i < j < |types| :: types[i].fullName != types[j].fullName
  }

  lemma {:induction false} MergeNamesOnce(base: seq<PyType>, extra: seq<PyType>)
    requires NamesOnce(base)
    ensures NamesOnce(MergeTypes(base, extra))
  {
    if extra != [] {
      MergeNamesOnce(base, extra[..|extra| - 1]);
      var merged := MergeTypes(base, extra[..|extra| - 1]);
      forall i | 0 <= i < |merged|
        ensures merged[i].fullName in Names(merged)
      {
        assert merged[i] in merged;
      }
    }
  }

  /** Without a clash, classes stay distinct. */
  lemma {:induction false} MergeKeepsClassesDistinct(base: seq<PyType>, extra: seq<PyType>)
    requires ClassesDistinct(base) && !Clash(base, extra)
    ensures ClassesDistinct(MergeTypes(base, extra))
  {
    if extra != [] {
      var front := extra[..|extra| - 1];
      forall i, u | 0 <= i < |front| && u in MergeTypes(base, front[..i])
        ensures !SameClass(front[i], u)
      {
        assert front[..i] == extra[..i] && front[i] == extra[i];
      }
      MergeKeepsClassesDistinct(base, front);
      forall u | u in MergeTypes(base, front)
        ensures !SameClass(extra[|extra| - 1], u)
      {
        assert front == extra[..|extra| - 1];
      }
    }
  }

  lemma {:induction false} MergeImportsUnion(base: seq<string>, extra: seq<string>)
    ensures base <= MergeImports(base, extra)
    ensures forall p :: p in MergeImports(base, extra) <==> p in base || p in extra
    ensures NoDuplicates(base) ==> NoDuplicates(MergeImports(base, extra))
  {
    if extra != [] {
      MergeImportsUnion(base, extra[..|extra| - 1]);
      assert extra == extra[..|extra| - 1] + [extra[|extra| - 1]];
    }
  }

  // Import aliases, which the merge does not check.

  /** Two files give one alias to different modules. */
  predicate AliasesClash(w: World, p: string, q: string) {
    p in w.files && q in w.files && exists c, d | c in AliasClaims(w, p) && d in AliasClaims(w, q) :: c.slot == d.slot && c.key != d.key
  }

  predicate AliasesApart(w: World, imports: seq<string>) {
    forall p, q | p in imports && q in imports :: !AliasesClash(w, p, q)
  }

  /** After a merge no alias stands for two modules exactly when none does in either graph or across the two. */
  lemma MergeAliases(w: World, base: seq<string>, extra: seq<string>)
    ensures AliasesApart(w, MergeImports(base, extra)) <==>
              && AliasesApart(w, base) && AliasesApart(w, extra)
              && forall p, q | p in base && q in extra :: !AliasesClash(w, p, q)
  {
    MergeImportsUnion(base, extra);
    if AliasesApart(w, base) && AliasesApart(w, extra) && forall p, q | p in base && q in extra :: !AliasesClash(w, p, q) {
      forall p, q | p in MergeImports(base, extra) && q in MergeImports(base, extra)
        ensures !AliasesClash(w, p, q)
      {
        ClashIsMutual(w, p, q);
      }
    }
  }

  lemma ClashIsMutual(w: World, p: string, q: string)
    ensures AliasesClash(w, p, q) <==> AliasesClash(w, q, p)
  {
  }

  /** In a graph that was collected in one go no alias stands for two modules. */
  lemma CollectedAliasesApart(w: World, current: string, roots: set<Node>, g: PyGraph)
    requires Known(w) && Collected(w, current, roots, g) && !Conflict(w, current, roots)
    ensures AliasesApart(w, g.imports)
  {
    forall p, q, c, d | p in g.imports && q in g.imports && p in w.files && q in w.files
                        && c in AliasClaims(w, p) && d in AliasClaims(w, q) && c.slot == d.slot
      ensures c.key == d.key
    {
      var a :| Reached(w, roots, a) && p in FilesOf(w, a);
      var b :| Reached(w, roots, b) && q in FilesOf(w, b);
      assert ClaimedBy(w, current, a, c) && ClaimedBy(w, current, b, d);
      if c.key != d.key {
        assert Disagree(w, current, a, b);
      }
    }
  }

  // Merging collected graphs.

  lemma NodeByName(w: World, a: Node, b: Node)
    requires Known(w) && Described(w, a) && Described(w, b) && a.name == b.name
    ensures a == b
  {
  }

  lemma ReachedFromEither(w: World, r1: set<Node>, r2: set<Node>, n: Node)
    requires Known(w)
    ensures Reached(w, r1 + r2, n) <==> Reached(w, r1, n) || Reached(w, r2, n)
  {
    var succ := Graph(w);
    if Reach(succ, r1 + r2, n) {
      var p: seq<Node> :| |p| > 0 && p[0] in r1 + r2 && p[|p| - 1] == n && IsPath(succ, p);
    }
    if Reach(succ, r1, n) {
      var p: seq<Node> :| |p| > 0 && p[0] in r1 && p[|p| - 1] == n && IsPath(succ, p);
      assert p[0] in r1 + r2;
    }
    if Reach(succ, r2, n) {
      var p: seq<Node> :| |p| > 0 && p[0] in r2 && p[|p| - 1] == n && IsPath(succ, p);
      assert p[0] in r1 + r2;
    }
  }

  /** A type that refers to nothing leads to itself alone. */
  lemma ReachedFromLeaf(w: World, a: Node, n: Node)
    requires Known(w) && Described(w, a) && Successors(w, a) == {}
    ensures Reached(w, {a}, n) <==> n == a
  {
    ReachRoot(Graph(w), {a}, a);
    if Reached(w, {a}, n) {
      ReachInClosed(Graph(w), {a}, {a}, n);
    }
  }

  /** A type that refers to such a one leads to the two of them. */
  lemma ReachedFromHolder(w: World, a: Node, b: Node, n: Node)
    requires Known(w) && Described(w, a) && Described(w, b) && Successors(w, a) == {b} && Successors(w, b) == {}
    ensures Reached(w, {a}, n) <==> n == a || n == b
  {
    var succ := Graph(w);
    ReachRoot(succ, {a}, a);
    assert Edge(succ, a, b);
    ReachStep(succ, {a}, a, b);
    if Reached(w, {a}, n) {
      ReachInClosed(succ, {a}, {a, b}, n);
    }
  }

  lemma MergedNodes(w: World, current: string, base: seq<PyType>, extra: seq<PyType>, n: Node)
    requires Known(w) && Faithful(w, current, base) && Faithful(w, current, extra)
    ensures n in Nodes(MergeTypes(base, extra)) <==> n in Nodes(base) || n in Nodes(extra)
  {
    MergeKeepsBase(base, extra);
    var merged := MergeTypes(base, extra);
    if n in Nodes(base) || n in Nodes(extra) {
      var t :| (t in base || t in extra) && t.Node() == n;
      assert t.fullName in Names(merged) by {
        assert t.fullName in Names(base) || t.fullName in Names(extra);
      }
      var u :| u in merged && u.fullName == t.fullName;
      NodeByName(w, t.Node(), u.Node());
    }
  }

  lemma OnceByName(w: World, current: string, types: seq<PyType>)
    requires Known(w) && Faithful(w, current, types)
    ensures NamesOnce(types) <==> NoTypeTwice(types)
  {
    forall i, j | 0 <= i < j < |types|
      ensures types[i].fullName == types[j].fullName <==> types[i].Node() == types[j].Node()
    {
      assert types[i] in types && types[j] in types;
      if types[i].fullName == types[j].fullName {
        NodeByName(w, types[i].Node(), types[j].Node());
      }
    }
  }

  /**
     The merge of the graphs collected from two sets of roots is the graph collected
     from both together: complete, closed under references, each type once.
   */
  lemma MergeCollected(w: World, current: string, r1: set<Node>, r2: set<Node>, base: PyGraph, extra: PyGraph)
    requires Known(w) && Collected(w, current, r1, base) && Collected(w, current, r2, extra)
    ensures Collected(w, current, r1 + r2, MergeGraphs(base, extra))
  {
    var merged := MergeGraphs(base, extra);
    MergeKeepsBase(base.types, extra.types);
    OnceByName(w, current, base.types);
    MergeNamesOnce(base.types, extra.types);
    OnceByName(w, current, merged.types);
    forall n
      ensures n in Nodes(merged.types) <==> Reached(w, r1 + r2, n)
    {
      MergedNodes(w, current, base.types, extra.types, n);
      ReachedFromEither(w, r1, r2, n);
    }
    MergeImportsUnion(base.imports, extra.imports);
    forall p
      ensures Imported(w, r1 + r2, p) <==> Imported(w, r1, p) || Imported(w, r2, p)
    {
      ImportedFromEither(w, r1, r2, p);
    }
  }

  lemma ImportedFromEither(w: World, r1: set<Node>, r2: set<Node>, p: string)
    requires Known(w)
    ensures Imported(w, r1 + r2, p) <==> Imported(w, r1, p) || Imported(w, r2, p)
  {
    forall n {
      ReachedFromEither(w, r1, r2, n);
    }
  }

  /** A graph that could be collected has distinct classes. */
  lemma CollectedClassesDistinct(w: World, current: string, roots: set<Node>, g: PyGraph)
    requires Known(w) && Collected(w, current, roots, g) && !Conflict(w, current, roots)
    ensures ClassesDistinct(g.types)
  {
    forall t, u | t in g.types && u in g.types
      ensures !SameClass(t, u)
    {
      var a, b := t.Node(), u.Node();
      assert a in Nodes(g.types) && b in Nodes(g.types);
      assert OwnName(w, a) in NameClaims(w, a) && OwnName(w, b) in NameClaims(w, b);
      if SameClass(t, u) {
        assert ClaimedBy(w, current, a, OwnName(w, a)) && ClaimedBy(w, current, b, OwnName(w, b));
        assert Disagree(w, current, a, b);
      }
    }
  }

  lemma {:induction false} MergePrefix(base: seq<PyType>, extra: seq<PyType>, i: nat)
    requires i <= |extra|
    ensures MergeTypes(base, extra[..i]) <= MergeTypes(base, extra)
  {
    if i == |extra| {
      assert extra[..i] == extra;
    } else {
      var front := extra[..|extra| - 1];
      MergePrefix(base, front, i);
      assert front[..i] == extra[..i];
    }
  }

  /** Faithful types with one full name are one type. */
  lemma FaithfulByName(w: World, current: string, types: seq<PyType>, t: PyType, u: PyType)
    requires Known(w) && Faithful(w, current, types) && t in types && u in types && t.fullName == u.fullName
    ensures t == u
  {
    NodeByName(w, t.Node(), u.Node());
  }

  /** The clash check finds exactly the merges that would give two types one class. */
  lemma ClashIffNotDistinct(w: World, current: string, base: seq<PyType>, extra: seq<PyType>)
    requires Known(w) && Faithful(w, current, base) && Faithful(w, current, extra) && ClassesDistinct(base)
    ensures Clash(base, extra) <==> !ClassesDistinct(MergeTypes(base, extra))
  {
    if !Clash(base, extra) {
      MergeKeepsClassesDistinct(base, extra);
    } else {
      var i, u :| 0 <= i < |extra| && u in MergeTypes(base, extra[..i]) && SameClass(extra[i], u);
      var merged := MergeTypes(base, extra);
      MergePrefix(base, extra, i);
      MergeKeepsBase(base, extra);
      assert extra[i] in extra && extra[i].fullName in Names(merged);
      var t :| t in merged && t.fullName == extra[i].fullName;
      FaithfulByName(w, current, base + extra, t, extra[i]);
      assert u in merged;
    }
  }

  class TypeGraph {
    var types: seq<PyType>
    var imports: seq<string>

    function Value(): PyGraph
      reads this
    {
      PyGraph(types, imports)
    }

    constructor (g: PyGraph)
      ensures Value() == g
    {
      types := g.types;
      imports := g.imports;
    }

    method MergeInImports(extra: seq<string>)
      modifies this`imports
      ensures imports == MergeImports(old(imports), extra)
    {
      var known := set p | p in imports;
      for i := 0 to |extra|
        invariant imports == MergeImports(old(imports), extra[..i])
        invariant forall p :: p in known <==> p in imports
      {
        assert extra[..i + 1][..i] == extra[..i];
        if extra[i] !in known {
          imports := imports + [extra[i]];
          known := known + {extra[i]};
        }
      }
      assert extra[..|extra|] == extra;
    }

    /** The class names of the current file, each with the full name of a type that has it. */
    static ghost predicate Indexes(classes: map<string, string>, types: seq<PyType>) {
      && (forall name | name in classes ::
            exists t :: t in types && t.owner.isCurrentFile && t.publicName == name && t.fullName == classes[name])
      && (forall t | t in types && t.owner.isCurrentFile :: t.publicName in classes)
    }

    method IndexClasses() returns (classes: map<string, string>)
      ensures Indexes(classes, types)
    {
      classes := map[];
      for i := 0 to |types|
        invariant Indexes(classes, types[..i])
      {
        IndexStep(classes, types, i);
        if types[i].owner.isCurrentFile {
          classes := classes[types[i].publicName := types[i].fullName];
        }
      }
      assert types[..|types|] == types;
    }

    static lemma IndexStep(classes: map<string, string>, types: seq<PyType>, i: nat)
      requires i < |types| && Indexes(classes, types[..i])
      ensures Indexes(if types[i].owner.isCurrentFile then classes[types[i].publicName := types[i].fullName] else classes, types[..i + 1])
    {
      assert types[..i + 1] == types[..i] + [types[i]];
      IndexAppend(classes, types[..i], types[i]);
    }

    static lemma IndexAppend(classes: map<string, string>, types: seq<PyType>, t: PyType)
      requires Indexes(classes, types)
      ensures Indexes(if t.owner.isCurrentFile then classes[t.publicName := t.fullName] else classes, types + [t])
    {
      var after := if t.owner.isCurrentFile then classes[t.publicName := t.fullName] else classes;
      forall name | name in after
        ensures exists u :: u in types + [t] && u.owner.isCurrentFile && u.publicName == name && u.fullName == after[name]
      {
        if t.owner.isCurrentFile && name == t.publicName {
          assert t in types + [t];
        } else {
          var u :| u in types && u.owner.isCurrentFile && u.publicName == name && u.fullName == classes[name];
          assert u in types + [t];
        }
      }
    }

    /** mergePythonTypeGraphs. */
    method Merge(extra: PyGraph) returns (result: Outcome<GraphError>)
      modifies this
      ensures result.Pass? ==> Value() == MergeGraphs(old(Value()), extra)
      ensures result.Fail? ==> Clash(old(types), extra.types)
      ensures ClassesDistinct(old(types)) ==> (result.Pass? <==> !Clash(old(types), extra.types))
    {
      MergeInImports(extra.imports);
      result := MergeInTypes(extra.types);
    }

    /** The loop over the other graph's types; a clash ends it. */
    method MergeInTypes(extra: seq<PyType>) returns (result: Outcome<GraphError>)
      modifies this`types
      ensures result.Pass? ==> types == MergeTypes(old(types), extra)
      ensures result.Fail? ==> Clash(old(types), extra)
      ensures ClassesDistinct(old(types)) ==> (result.Pass? <==> !Clash(old(types), extra))
    {
      var names := set t | t in types :: t.fullName;
      var classes := IndexClasses();
      ghost var base := types;
      for i := 0 to |extra|
        invariant types == MergeTypes(base, extra[..i])
        invariant names == Names(types) && Indexes(classes, types)
        invariant ClassesDistinct(base) ==> ClassesDistinct(types) && !Clash(base, extra[..i])
      {
        var t := extra[i];
        MergeStep(base, extra, i);
        if t.owner.isCurrentFile && t.publicName in classes && classes[t.publicName] != t.fullName {
          ClashHere(base, extra, i, classes);
          return Fail(NameClash(t.publicName, classes[t.publicName], t.fullName));
        }
        if ClassesDistinct(base) {
          NoClashStep(base, extra, i, classes);
        }
        if t.fullName !in names {
          NamesAppend(types, t);
          IndexAppend(classes, types, t);
          types := types + [t];
          names := names + {t.fullName};
          if t.owner.isCurrentFile {
            classes := classes[t.publicName := t.fullName];
          }
        }
      }
      assert extra[..|extra|] == extra;
      return Pass;
    }

    static lemma MergeStep(base: seq<PyType>, extra: seq<PyType>, i: nat)
      requires i < |extra|
      ensures MergeTypes(base, extra[..i + 1]) ==
              var merged := MergeTypes(base, extra[..i]);
              if extra[i].fullName in Names(merged) then merged else merged + [extra[i]]
    {
      assert extra[..i + 1][..i] == extra[..i];
    }

    static lemma ClashHere(base: seq<PyType>, extra: seq<PyType>, i: nat, classes: map<string, string>)
      requires i < |extra| && Indexes(classes, MergeTypes(base, extra[..i]))
      requires extra[i].owner.isCurrentFile && extra[i].publicName in classes && classes[extra[i].publicName] != extra[i].fullName
      ensures Clash(base, extra)
    {
      var u :| u in MergeTypes(base, extra[..i]) && u.owner.isCurrentFile && u.publicName == extra[i].publicName
               && u.fullName == classes[extra[i].publicName];
      assert SameClass(extra[i], u);
    }

    static lemma NoClashStep(base: seq<PyType>, extra: seq<PyType>, i: nat, classes: map<string, string>)
      requires i < |extra| && Indexes(classes, MergeTypes(base, extra[..i]))
      requires ClassesDistinct(MergeTypes(base, extra[..i])) && !Clash(base, extra[..i])
      requires extra[i].owner.isCurrentFile && extra[i].publicName in classes ==> classes[extra[i].publicName] == extra[i].fullName
      ensures !Clash(base, extra[..i + 1])
      ensures ClassesDistinct(MergeTypes(base, extra[..i]) + [extra[i]])
    {
      var merged, t := MergeTypes(base, extra[..i]), extra[i];
      forall u | u in merged
        ensures !SameClass(t, u) && !SameClass(u, t)
      {
        if t.owner.isCurrentFile && u.owner.isCurrentFile && t.publicName == u.publicName {
          var v :| v in merged && v.owner.isCurrentFile && v.publicName == t.publicName && v.fullName == classes[t.publicName];
          assert !SameClass(u, v);
        }
      }
      var front := extra[..i + 1];
      forall j, u | 0 <= j < |front| && u in MergeTypes(base, front[..j])
        ensures !SameClass(front[j], u)
      {
        if j < i {
          assert front[..j] == extra[..i][..j] && front[j] == extra[..i][j];
        } else {
          assert front[..j] == extra[..i];
        }
      }
    }
  }
}
