/**
 Two files that pass all checks although, in the module of one of them, two classes have
 one name: the class of a oneof's variant, and a message that only the other file uses.
 */
module SharedNames {
  import opened Wrappers
  import opened Reachability
  import opened PythonTypes
  import opened PythonCollector
  import opened PythonGraphs
  import opened TypeGraphs
  import opened CrossFile
  import opened PythonScopes
  import opened ClassNames

  /**
   File `b` declares `message <p> { oneof k { string c = 1; } }` and an empty `message <taken>`;
   file `a` declares `message <o> { optional <taken> pick = 1; }`. `base` and `shared` are the
   oneof's classes, and `shared` is the class of `taken` as well.
   */
  datatype Example = Example(
    a: string, b: string, aNames: FileNames, bNames: FileNames,
    p: string, taken: string, o: string,
    pClass: string, oClass: string, base: string, shared: string)
  {
    function Choice(): FieldDesc {
      FieldDesc("c", "c", 1, ScalarKind(Text), false, false, true, false, Some("k"), shared)
    }

    function Pick(): FieldDesc {
      FieldDesc("pick", "pick", 1, MessageKind(taken), false, false, true, true, None, "")
    }

    function World(): World {
      PythonTypes.World(
        map[p := MessageDesc(b, pClass, false, [Choice()], [OneofDesc("k", base, [Choice()])]),
            taken := MessageDesc(b, shared, false, [], []),
            o := MessageDesc(a, oClass, false, [Pick()], [])],
        map[],
        map[a := aNames, b := bNames])
    }

    function FileA(): FileDesc {
      FileDesc(a, [Method(o, o)], [MessageTree(o, [], [])], [])
    }

    function FileB(): FileDesc {
      FileDesc(b, [Method(p, p)], [MessageTree(p, [], []), MessageTree(taken, [], [])], [])
    }

    function Files(): seq<FileDesc> {
      [FileA(), FileB()]
    }

    /** The names are as different as protobuf and the naming rules make them. */
    predicate Usable() {
      && p != taken && taken != o && o != p && a != b && p + ".k.c" != taken
      && Classify(p).Ordinary? && Classify(taken).Ordinary? && Classify(o).Ordinary?
      && pClass != base && base != shared && shared != pClass && oClass != shared
      && bNames.publicAlias != bNames.protobufAlias
    }
  }

  lemma ExampleKnown(e: Example)
    requires e.Usable()
    ensures Known(e.World())
  {
    var w := e.World();
    assert KindKnown(w, e.Choice().kind) && KindKnown(w, e.Pick().kind);
    assert MessageKnown(w, w.messages[e.p]) && MessageKnown(w, w.messages[e.taken]) && MessageKnown(w, w.messages[e.o]);
  }

  lemma ExampleDeclared(e: Example)
    ensures DeclaredNodes(e.FileA()) == {MessageNode(e.o)}
    ensures DeclaredNodes(e.FileB()) == {MessageNode(e.p), MessageNode(e.taken)}
    ensures Starts(e.FileA()) == {MessageNode(e.o)} && Starts(e.FileB()) == {MessageNode(e.p)}
  {
    var a, b := e.FileA(), e.FileB();
    assert TreeNodes(MessageTree(e.o, [], [])) == {MessageNode(e.o)};
    assert TreeNodes(MessageTree(e.p, [], [])) == {MessageNode(e.p)};
    assert TreeNodes(MessageTree(e.taken, [], [])) == {MessageNode(e.taken)};
    assert a.messages[0] in a.messages && b.messages[0] in b.messages && b.messages[1] in b.messages;
    assert ForestNodes(a.messages) == {MessageNode(e.o)};
    assert ForestNodes(b.messages) == {MessageNode(e.p), MessageNode(e.taken)};
    assert a.methods[0] in a.methods && b.methods[0] in b.methods;
    assert MethodNodes(a.methods) == {MessageNode(e.o)} && MethodNodes(b.methods) == {MessageNode(e.p)};
  }

  lemma ExampleFileOk(e: Example)
    requires e.Usable()
    ensures FileOk(e.World(), e.FileA()) && FileOk(e.World(), e.FileB())
    ensures OwnRoots(e.World(), e.FileA()) == {MessageNode(e.o)} && OwnRoots(e.World(), e.FileB()) == {MessageNode(e.p)}
  {
    ExampleDeclared(e);
    var w := e.World();
    assert MethodNodes(e.FileA().methods) <= Starts(e.FileA()) && MethodNodes(e.FileB().methods) <= Starts(e.FileB());
    assert Wanted(w, MessageNode(e.o)) && Wanted(w, MessageNode(e.p));
  }

  lemma ExampleFilesOk(e: Example)
    requires e.Usable()
    ensures FilesOk(e.World(), e.Files())
  {
    ExampleFileOk(e);
    var files := e.Files();
    assert files[0] == e.FileA() && files[1] == e.FileB();
  }

  lemma ExampleSuccessors(e: Example)
    requires e.Usable() && Known(e.World())
    ensures Successors(e.World(), MessageNode(e.p)) == {} && Successors(e.World(), MessageNode(e.taken)) == {}
    ensures Successors(e.World(), MessageNode(e.o)) == {MessageNode(e.taken)}
    ensures AllNodes(e.World()) == {MessageNode(e.p), MessageNode(e.taken), MessageNode(e.o)}
  {
    var w := e.World();
    assert FieldTargets(w, e.Choice()) == {} && KindTargets(w, e.Choice().kind) == {};
    assert FieldTargets(w, e.Pick()) == {MessageNode(e.taken)};
    assert w.messages[e.o].fields[0] in w.messages[e.o].fields;
  }

  /** What each set of roots leads to. */
  lemma ExampleReached(e: Example, n: Node)
    requires e.Usable() && Known(e.World())
    ensures Reached(e.World(), {MessageNode(e.p)}, n) <==> n == MessageNode(e.p)
    ensures Reached(e.World(), {MessageNode(e.taken)}, n) <==> n == MessageNode(e.taken)
    ensures Reached(e.World(), {MessageNode(e.o)}, n) <==> n == MessageNode(e.o) || n == MessageNode(e.taken)
  {
    ExampleSuccessors(e);
    ReachedFromLeaf(e.World(), MessageNode(e.p), n);
    ReachedFromLeaf(e.World(), MessageNode(e.taken), n);
    ReachedFromHolder(e.World(), MessageNode(e.o), MessageNode(e.taken), n);
  }

  // Each file collects, and so does what `a` needs of `b`.

  lemma PClaims(e: Example, c: Claim)
    requires e.Usable() && Known(e.World()) && ClaimedBy(e.World(), e.b, MessageNode(e.p), c)
    ensures || c == Claim(PublicName(e.bNames.publicModule, e.pClass), e.p)
            || c == Claim(PublicName(e.bNames.publicModule, e.base), e.p + ".k")
            || c == Claim(PublicName(e.bNames.publicModule, e.shared), e.p + ".k.c")
  {
    PFiles(e);
    ClaimCases(e.World(), MessageNode(e.p), c);
    PKeys(e.p);
  }

  lemma PFiles(e: Example)
    requires e.Usable() && Known(e.World())
    ensures FilesOf(e.World(), MessageNode(e.p)) == {e.b}
  {
    assert FieldFiles(e.World(), e.Choice()) == {} && KindFiles(e.World(), e.Choice().kind) == {};
  }

  lemma PKeys(p: string)
    ensures p + "." + "k" == p + ".k" && p + "." + "k" + "." + "c" == p + ".k.c"
  {
  }

  lemma TakenClaims(e: Example, current: string, c: Claim)
    requires e.Usable() && Known(e.World()) && ClaimedBy(e.World(), current, MessageNode(e.taken), c)
    ensures c == Claim(PublicName(e.bNames.publicModule, e.shared), e.taken) || c in AliasClaims(e.World(), e.b)
    ensures current == e.b ==> c == Claim(PublicName(e.bNames.publicModule, e.shared), e.taken)
  {
    var w, n := e.World(), MessageNode(e.taken);
    assert FilesOf(w, n) == {e.b};
    if c in NameClaims(w, n) {
      ClaimCases(w, n, c);
    }
  }

  lemma OClaims(e: Example, c: Claim)
    requires e.Usable() && Known(e.World()) && ClaimedBy(e.World(), e.a, MessageNode(e.o), c)
    ensures c == Claim(PublicName(e.aNames.publicModule, e.oClass), e.o) || c in AliasClaims(e.World(), e.b)
  {
    var w, n := e.World(), MessageNode(e.o);
    assert FieldFiles(w, e.Pick()) == {e.b};
    assert FilesOf(w, n) == {e.a, e.b};
    if c in NameClaims(w, n) {
      ClaimCases(w, n, c);
    }
  }

  lemma NoneRejected(e: Example, n: Node)
    requires e.Usable() && Known(e.World()) && Described(e.World(), n)
    ensures !Rejected(e.World(), n)
  {
  }

  lemma PFineAlone(e: Example)
    requires e.Usable() && Known(e.World())
    ensures !Fails(e.World(), e.b, {MessageNode(e.p)})
  {
    forall a, b, c, d | Reached(e.World(), {MessageNode(e.p)}, a) && Reached(e.World(), {MessageNode(e.p)}, b)
                        && ClaimedBy(e.World(), e.b, a, c) && ClaimedBy(e.World(), e.b, b, d) && c.slot == d.slot
      ensures c.key == d.key
    {
      ExampleReached(e, a);
      ExampleReached(e, b);
      PClaims(e, c);
      PClaims(e, d);
    }
    forall n | Reached(e.World(), {MessageNode(e.p)}, n) {
      NoneRejected(e, n);
    }
  }

  lemma TakenFineAlone(e: Example)
    requires e.Usable() && Known(e.World())
    ensures !Fails(e.World(), e.b, {MessageNode(e.taken)})
  {
    forall a, b, c, d | Reached(e.World(), {MessageNode(e.taken)}, a) && Reached(e.World(), {MessageNode(e.taken)}, b)
                        && ClaimedBy(e.World(), e.b, a, c) && ClaimedBy(e.World(), e.b, b, d) && c.slot == d.slot
      ensures c.key == d.key
    {
      ExampleReached(e, a);
      ExampleReached(e, b);
      TakenClaims(e, e.b, c);
      TakenClaims(e, e.b, d);
    }
    forall n | Reached(e.World(), {MessageNode(e.taken)}, n) {
      NoneRejected(e, n);
    }
  }

  /** The claims of everything that `a` reaches. */
  predicate ClaimsOfA(e: Example, c: Claim) {
    || c == Claim(PublicName(e.aNames.publicModule, e.oClass), e.o)
    || c == Claim(PublicName(e.bNames.publicModule, e.shared), e.taken)
    || c == Claim(ImportAlias(e.bNames.publicAlias), e.b + ":public")
    || c == Claim(ImportAlias(e.bNames.protobufAlias), e.b + ":protobuf")
  }

  lemma OFineAlone(e: Example)
    requires e.Usable() && Known(e.World())
    ensures !Fails(e.World(), e.a, {MessageNode(e.o)})
  {
    var w, roots := e.World(), {MessageNode(e.o)};
    forall n, c | Reached(w, roots, n) && ClaimedBy(w, e.a, n, c)
      ensures ClaimsOfA(e, c)
    {
      ExampleReached(e, n);
      if n == MessageNode(e.o) {
        OClaims(e, c);
      } else {
        TakenClaims(e, e.a, c);
      }
    }
    forall n | Reached(w, roots, n) {
      NoneRejected(e, n);
    }
  }

  lemma NothingFails(e: Example)
    requires Known(e.World())
    ensures !Fails(e.World(), e.a, {})
  {
  }

  // The pass succeeds.

  lemma ExampleNeeded(e: Example)
    requires e.Usable() && Known(e.World()) && FilesOk(e.World(), e.Files())
    ensures NeededNodes(e.World(), e.Files(), e.a) == {}
    ensures NeededNodes(e.World(), e.Files(), e.b) == {MessageNode(e.taken)}
  {
    forall n
      ensures n !in NeededNodes(e.World(), e.Files(), e.a)
      ensures n in NeededNodes(e.World(), e.Files(), e.b) <==> n == MessageNode(e.taken)
    {
      NeededAt(e, n);
    }
  }

  lemma NeededAt(e: Example, n: Node)
    requires e.Usable() && Known(e.World()) && FilesOk(e.World(), e.Files())
    ensures n !in NeededNodes(e.World(), e.Files(), e.a)
    ensures n in NeededNodes(e.World(), e.Files(), e.b) <==> n == MessageNode(e.taken)
  {
    ExampleNeeds(e, n);
    ExampleSuccessors(e);
    assert e.Files()[0] in e.Files();
  }

  lemma ExampleNeeds(e: Example, n: Node)
    requires e.Usable() && Known(e.World()) && FilesOk(e.World(), e.Files())
    ensures FileOk(e.World(), e.FileA()) && FileOk(e.World(), e.FileB())
    ensures !Needs(e.World(), e.FileA(), e.a, n) && !Needs(e.World(), e.FileB(), e.b, n) && !Needs(e.World(), e.FileB(), e.a, n)
    ensures Needs(e.World(), e.FileA(), e.b, n) <==> n == MessageNode(e.taken)
  {
    ExampleFileOk(e);
    ExampleReached(e, n);
  }

  lemma ExampleWorkable(e: Example)
    requires e.Usable() && Known(e.World()) && FilesOk(e.World(), e.Files())
    ensures Workable(e.World(), e.a, Starts(e.FileA())) && Workable(e.World(), e.b, Starts(e.FileB()))
  {
    ExampleFileOk(e);
    ExampleDeclared(e);
    OFineAlone(e);
    PFineAlone(e);
  }

  lemma ExampleTwinFree(e: Example)
    requires e.Usable() && Known(e.World())
    ensures TwinFree(e.World(), e.a, {MessageNode(e.o)})
    ensures TwinFree(e.World(), e.b, {MessageNode(e.p), MessageNode(e.taken)})
  {
    forall a, b | Described(e.World(), a) && Described(e.World(), b)
      ensures !Twins(e.World(), e.a, a, b) && !Twins(e.World(), e.b, a, b)
    {
      NoTwins(e, a, b);
    }
  }

  lemma NoTwins(e: Example, a: Node, b: Node)
    requires e.Usable() && Known(e.World()) && Described(e.World(), a) && Described(e.World(), b)
    ensures !Twins(e.World(), e.a, a, b) && !Twins(e.World(), e.b, a, b)
  {
  }

  lemma ExampleFinalRoots(e: Example)
    requires e.Usable() && Known(e.World()) && FilesOk(e.World(), e.Files())
    ensures e.FileA() in e.Files() && e.FileB() in e.Files()
    ensures FinalRoots(e.World(), e.Files(), e.FileA()) == {MessageNode(e.o)}
    ensures FinalRoots(e.World(), e.Files(), e.FileB()) == {MessageNode(e.p), MessageNode(e.taken)}
  {
    ExampleFileOk(e);
    ExampleNeeded(e);
    assert e.Files()[0] == e.FileA() && e.Files()[1] == e.FileB();
  }

  lemma ExampleAugmentableA(e: Example)
    requires e.Usable() && Known(e.World()) && FilesOk(e.World(), e.Files())
    ensures e.FileA() in e.Files() && Augmentable(e.World(), e.Files(), e.FileA())
  {
    ExampleFinalRoots(e);
    ExampleNeeded(e);
    ExampleTwinFree(e);
    NothingFails(e);
  }

  lemma ExampleAugmentableB(e: Example)
    requires e.Usable() && Known(e.World()) && FilesOk(e.World(), e.Files())
    ensures e.FileB() in e.Files() && Augmentable(e.World(), e.Files(), e.FileB())
  {
    ExampleFinalRoots(e);
    ExampleNeeded(e);
    ExampleDeclared(e);
    ExampleTwinFree(e);
    TakenFineAlone(e);
  }

  lemma ExampleBuildable(e: Example)
    requires e.Usable()
    ensures Known(e.World()) && FilesOk(e.World(), e.Files()) && Buildable(e.World(), e.Files())
  {
    ExampleKnown(e);
    ExampleFilesOk(e);
    ExampleWorkable(e);
    ExampleAugmentableA(e);
    ExampleAugmentableB(e);
  }

  lemma SharedClaims(e: Example)
    requires e.Usable() && Known(e.World())
    ensures ShareClassName(e.World(), MessageNode(e.p), MessageNode(e.taken))
  {
    var w := e.World();
    var m := w.messages[e.p];
    assert m.oneofs[0] in m.oneofs && e.Choice() in m.oneofs[0].fields by {
      assert m.oneofs[0].fields[0] == e.Choice();
    }
    VariantClaimed(w, e.p, m.oneofs[0], e.Choice());
    OwnNameClaimed(w, MessageNode(e.taken));
    assert e.p + "." + "k" + "." + "c" == e.p + ".k.c";
  }

  lemma ExampleNotDisjoint(e: Example)
    requires e.Usable() && Known(e.World())
    ensures !ClassNamesDisjoint(e.World(), e.b, {MessageNode(e.p), MessageNode(e.taken)})
  {
    var roots := {MessageNode(e.p), MessageNode(e.taken)};
    ReachRootOf(e.World(), roots, MessageNode(e.p));
    ReachRootOf(e.World(), roots, MessageNode(e.taken));
    SharedClaims(e);
  }

  /** The pass succeeds, and yet the classes of `b` do not all have names of their own. */
  lemma ExampleSharesName(e: Example, models: map<string, PyGraph>)
    requires e.Usable() && Known(e.World()) && FilesOk(e.World(), e.Files()) && FinalGraphs(e.World(), e.Files(), models)
    ensures Buildable(e.World(), e.Files())
    ensures e.b in models && !NamesApart(ClassDefinitions(models[e.b].types))
  {
    ExampleBuildable(e);
    ExampleFinalRoots(e);
    ExampleNotDisjoint(e);
    assert FinalAt(e.World(), e.Files(), models, e.FileB());
    if NamesApart(ClassDefinitions(models[e.b].types)) {
      ApartIsDisjoint(e.World(), e.b, {MessageNode(e.p), MessageNode(e.taken)}, models[e.b]);
    }
  }

  lemma ReachRootOf(w: World, roots: set<Node>, n: Node)
    requires Known(w) && Described(w, n) && n in roots
    ensures Reached(w, roots, n)
  {
    ReachRoot(Graph(w), roots, n);
  }

  const SHOP: Example :=
    Example("a.proto", "b.proto",
            FileNames("a", "a_mcp", "a_mcp_6f0e1c2b", "a_pb2_6f0e1c2b", "a_pb2"),
            FileNames("b", "b_mcp", "b_mcp_3a5d7e90", "b_pb2_3a5d7e90", "b_pb2"),
            "b.P", "b.PKCVariant", "a.O", "P", "O", "PKVariant", "PKCVariant")

  lemma ShopUsable()
    ensures SHOP.Usable()
  {
    assert "b.P"[0] != "a.O"[0] && "a.proto"[0] != "b.proto"[0];
    assert "b_mcp_3a5d7e90"[2] != "b_pb2_3a5d7e90"[2];
    assert |"PKVariant"| != |"PKCVariant"| && |"b.P"| != |"b.PKCVariant"|;
    assert |"b.P" + ".k.c"| != |"b.PKCVariant"|;
  }

  /** What the generator does with these files. */
  method CollectShop() returns (models: map<string, PyGraph>)
    ensures "b.proto" in models && !NamesApart(ClassDefinitions(models["b.proto"].types))
  {
    ShopUsable();
    ExampleBuildable(SHOP);
    var inputs := [Input(SHOP.FileA(), true), Input(SHOP.FileB(), true)];
    ShopGenerated();
    var result := CollectModels(SHOP.World(), inputs);
    ExampleSharesName(SHOP, result.value);
    return result.value;
  }

  lemma ShopGenerated()
    ensures Generated([Input(SHOP.FileA(), true), Input(SHOP.FileB(), true)]) == SHOP.Files()
  {
    var inputs := [Input(SHOP.FileA(), true), Input(SHOP.FileB(), true)];
    assert inputs[..1] == [Input(SHOP.FileA(), true)] && inputs[..1][..0] == [];
    assert Generated(inputs[..1]) == [SHOP.FileA()];
  }
}
