/**
 Two files that pass all checks, one of which holds a message of the other: what becomes of
 that message in the mappers of the file that holds it.
 */
module BorrowedTypes {
  import opened Wrappers
  import opened Reachability
  import opened PythonTypes
  import opened PythonCollector
  import opened PythonGraphs
  import opened TypeGraphs
  import opened CrossFile
  import opened PythonScopes
  import opened PythonModules
  import opened ClassNames
  import opened PythonMappers
  import opened MapperRoundTrip
  import opened MapperFill
  import opened MapperDepth
  import opened GeneratedMappers
  import opened MapperAgreement
  import opened MapperEnv
  import opened MapperValues
  import opened MapperDefaults

  /**
   File `b` declares `message <lent> { optional string <note> = 1; oneof <kind> { string <text> = 2; } }`
   and file `a` declares `message <held> { <lent> <part> = 1; }`. `base` and `variant` are the
   classes of the oneof.
   */
  datatype Example = Example(
    a: string, b: string, aNames: FileNames, bNames: FileNames,
    lent: string, held: string, lentClass: string, heldClass: string, base: string, variant: string,
    note: string, kind: string, text: string, part: string)
  {
    function Note(): FieldDesc {
      FieldDesc(note, note, 1, ScalarKind(Text), false, false, true, true, None, "")
    }

    function Choice(): FieldDesc {
      FieldDesc(text, text, 2, ScalarKind(Text), false, false, true, false, Some(kind), variant)
    }

    function Kind(): OneofDesc {
      OneofDesc(kind, base, [Choice()])
    }

    function Part(): FieldDesc {
      FieldDesc(part, part, 1, MessageKind(lent), false, false, true, false, None, "")
    }

    function Lent(): MessageDesc {
      MessageDesc(b, lentClass, false, [Note(), Choice()], [Kind()])
    }

    function Held(): MessageDesc {
      MessageDesc(a, heldClass, false, [Part()], [])
    }

    function World(): World {
      PythonTypes.World(map[lent := Lent(), held := Held()], map[], map[a := aNames, b := bNames])
    }

    function FileA(): FileDesc {
      FileDesc(a, [Method(held, held)], [MessageTree(held, [], [])], [])
    }

    function FileB(): FileDesc {
      FileDesc(b, [Method(lent, lent)], [MessageTree(lent, [], [])], [])
    }

    function Files(): seq<FileDesc> {
      [FileA(), FileB()]
    }

    /** The names are as different as protobuf and the naming rules make them. */
    predicate Usable() {
      && lent != held && a != b && Classify(lent).Ordinary? && Classify(held).Ordinary?
      && lentClass != base && base != variant && variant != lentClass && aNames.publicModule != bNames.publicModule
      && note != text && kind != note && kind != text
      && aNames.publicAlias != aNames.protobufAlias && bNames.publicAlias != bNames.protobufAlias
      && {aNames.publicAlias, aNames.protobufAlias} !! {bNames.publicAlias, bNames.protobufAlias}
    }

    /** Besides, Python takes all of them. */
    predicate Spellable() {
      && Identifier(note) && Identifier(kind) && Identifier(text) && Identifier(part)
      && Identifier(lentClass) && Identifier(heldClass) && Identifier(base) && Identifier(variant)
      && Identifier(aNames.protobufModule) && Identifier(bNames.protobufModule)
      && Identifier(bNames.publicAlias) && Identifier(bNames.protobufAlias) && Identifier(bNames.publicModule)
      && lent == bNames.package + "." + lentClass && held == aNames.package + "." + heldClass
    }

    /** The two types, as the mappers of `a` see them. */
    function LentType(): PyType {
      var owner := Owner(b, false);
      PyMessage(
        lent, lentClass, owner,
        [PyField(note, note, 1, ScalarRef(Text), false, false, Unknown, None, true, false, None, ""),
         PyField(text, text, 2, ScalarRef(Text), false, false, Unknown, None, true, false, Some(kind), variant)],
        [PyOneof(kind, base, [PyVariant(text, 2, variant, ScalarRef(Text), true)])])
    }

    function LentRef(): TypeRef {
      MessageRef(lent, lentClass, Owner(b, false))
    }

    function HeldType(): PyType {
      PyMessage(
        held, heldClass, Owner(a, true),
        [PyField(part, part, 1, LentRef(), false, false, Unknown, None, true, true, None, "")], [])
    }

    function HeldRef(): TypeRef {
      MessageRef(held, heldClass, Owner(a, true))
    }

    /** `lent()`, made in file `b`. */
    function LentAlone(): Value {
      Object(lent, map[note := Stray(UnsetOf(b)), kind := Stray(UnsetOf(b))])
    }

    /** `held(part=lent())` */
    function HeldAlone(): Value {
      Object(held, map[part := Single(LentAlone())])
    }
  }

  // The pass succeeds.

  lemma ExampleKnown(e: Example)
    requires e.Usable()
    ensures Known(e.World())
  {
    var w := e.World();
    assert MessageKnown(w, w.messages[e.lent]) && MessageKnown(w, w.messages[e.held]);
  }

  lemma ExampleDeclared(e: Example)
    ensures DeclaredNodes(e.FileA()) == {MessageNode(e.held)} && DeclaredNodes(e.FileB()) == {MessageNode(e.lent)}
    ensures Starts(e.FileA()) == {MessageNode(e.held)} && Starts(e.FileB()) == {MessageNode(e.lent)}
  {
    var a, b := e.FileA(), e.FileB();
    assert TreeNodes(a.messages[0]) == {MessageNode(e.held)} && TreeNodes(b.messages[0]) == {MessageNode(e.lent)};
    assert ForestNodes(a.messages) == {MessageNode(e.held)} && ForestNodes(b.messages) == {MessageNode(e.lent)};
    assert a.methods[0] in a.methods && b.methods[0] in b.methods;
    assert MethodNodes(a.methods) == {MessageNode(e.held)} && MethodNodes(b.methods) == {MessageNode(e.lent)};
  }

  lemma ExampleFilesOk(e: Example)
    requires e.Usable()
    ensures FilesOk(e.World(), e.Files()) && FileOk(e.World(), e.FileA()) && FileOk(e.World(), e.FileB())
    ensures e.FileA() in e.Files() && e.FileB() in e.Files()
    ensures OwnRoots(e.World(), e.FileA()) == {MessageNode(e.held)} && OwnRoots(e.World(), e.FileB()) == {MessageNode(e.lent)}
  {
    ExampleDeclared(e);
    var w, files := e.World(), e.Files();
    assert files[0] == e.FileA() && files[1] == e.FileB();
    assert MethodNodes(e.FileA().methods) <= Starts(e.FileA()) && MethodNodes(e.FileB().methods) <= Starts(e.FileB());
    assert Wanted(w, MessageNode(e.held)) && Wanted(w, MessageNode(e.lent));
  }

  lemma ExampleSuccessors(e: Example)
    requires e.Usable() && Known(e.World())
    ensures Successors(e.World(), MessageNode(e.lent)) == {}
    ensures Successors(e.World(), MessageNode(e.held)) == {MessageNode(e.lent)}
    ensures AllNodes(e.World()) == {MessageNode(e.lent), MessageNode(e.held)}
  {
    var w := e.World();
    assert FieldTargets(w, e.Note()) == {} && FieldTargets(w, e.Choice()) == {} && KindTargets(w, e.Choice().kind) == {};
    assert FieldTargets(w, e.Part()) == {MessageNode(e.lent)};
    assert w.messages[e.held].fields[0] in w.messages[e.held].fields;
  }

  lemma ExampleReached(e: Example, n: Node)
    requires e.Usable() && Known(e.World())
    ensures Reached(e.World(), {MessageNode(e.lent)}, n) <==> n == MessageNode(e.lent)
    ensures Reached(e.World(), {MessageNode(e.held)}, n) <==> n == MessageNode(e.held) || n == MessageNode(e.lent)
  {
    ExampleSuccessors(e);
    ReachedFromLeaf(e.World(), MessageNode(e.lent), n);
    ReachedFromHolder(e.World(), MessageNode(e.held), MessageNode(e.lent), n);
  }

  /** All that the two types lay claim to. */
  predicate PossibleClaim(e: Example, c: Claim) {
    || c == Claim(PublicName(e.aNames.publicModule, e.heldClass), e.held)
    || c == Claim(PublicName(e.bNames.publicModule, e.lentClass), e.lent)
    || c == Claim(PublicName(e.bNames.publicModule, e.base), e.lent + "." + e.kind)
    || c == Claim(PublicName(e.bNames.publicModule, e.variant), e.lent + "." + e.kind + "." + e.text)
    || c in AliasClaims(e.World(), e.a) || c in AliasClaims(e.World(), e.b)
  }

  lemma LentClaims(e: Example, c: Claim)
    requires e.Usable() && Known(e.World()) && c in NameClaims(e.World(), MessageNode(e.lent))
    ensures PossibleClaim(e, c)
  {
    ClaimCases(e.World(), MessageNode(e.lent), c);
  }

  lemma HeldClaims(e: Example, c: Claim)
    requires e.Usable() && Known(e.World()) && c in NameClaims(e.World(), MessageNode(e.held))
    ensures PossibleClaim(e, c)
  {
    ClaimCases(e.World(), MessageNode(e.held), c);
  }

  lemma ExampleClaims(e: Example, current: string, n: Node, c: Claim)
    requires e.Usable() && Known(e.World()) && Described(e.World(), n) && ClaimedBy(e.World(), current, n, c)
    ensures PossibleClaim(e, c)
  {
    if c in NameClaims(e.World(), n) {
      if n == MessageNode(e.lent) {
        LentClaims(e, c);
      } else {
        HeldClaims(e, c);
      }
    }
  }

  lemma OneKeyPerSlot(e: Example, c: Claim, d: Claim)
    requires e.Usable() && PossibleClaim(e, c) && PossibleClaim(e, d) && c.slot == d.slot
    ensures c.key == d.key
  {
  }

  lemma NothingFails(e: Example, current: string, roots: set<Node>)
    requires e.Usable() && Known(e.World())
    ensures !Fails(e.World(), current, roots)
  {
    var w := e.World();
    forall m, n | Described(w, m) && Described(w, n)
      ensures !Disagree(w, current, m, n)
    {
      NoDisagreement(e, current, m, n);
    }
    forall n | Described(w, n)
      ensures !Rejected(w, n)
    {
      NoneRejected(e, n);
    }
  }

  lemma NoDisagreement(e: Example, current: string, m: Node, n: Node)
    requires e.Usable() && Known(e.World()) && Described(e.World(), m) && Described(e.World(), n)
    ensures !Disagree(e.World(), current, m, n)
  {
    forall c, d | ClaimedBy(e.World(), current, m, c) && ClaimedBy(e.World(), current, n, d) && c.slot == d.slot
      ensures c.key == d.key
    {
      ExampleClaims(e, current, m, c);
      ExampleClaims(e, current, n, d);
      OneKeyPerSlot(e, c, d);
    }
  }

  lemma NoneRejected(e: Example, n: Node)
    requires e.Usable() && Known(e.World()) && Described(e.World(), n)
    ensures !Rejected(e.World(), n)
  {
  }

  lemma NoTwins(e: Example, current: string, roots: set<Node>)
    requires e.Usable() && Known(e.World())
    ensures TwinFree(e.World(), current, roots)
  {
  }

  lemma ExampleNeeded(e: Example)
    requires e.Usable() && Known(e.World()) && FilesOk(e.World(), e.Files())
    ensures NeededNodes(e.World(), e.Files(), e.a) == {} && NeededNodes(e.World(), e.Files(), e.b) == {MessageNode(e.lent)}
  {
    forall n
      ensures n !in NeededNodes(e.World(), e.Files(), e.a)
      ensures n in NeededNodes(e.World(), e.Files(), e.b) <==> n == MessageNode(e.lent)
    {
      NeededAt(e, n);
    }
  }

  lemma ExampleNeeds(e: Example, n: Node)
    requires e.Usable() && Known(e.World()) && FilesOk(e.World(), e.Files())
    ensures FileOk(e.World(), e.FileA()) && FileOk(e.World(), e.FileB())
    ensures !Needs(e.World(), e.FileA(), e.a, n) && !Needs(e.World(), e.FileB(), e.b, n) && !Needs(e.World(), e.FileB(), e.a, n)
    ensures Needs(e.World(), e.FileA(), e.b, n) <==> n == MessageNode(e.lent)
  {
    ExampleFilesOk(e);
    ExampleReached(e, n);
  }

  lemma NeededAt(e: Example, n: Node)
    requires e.Usable() && Known(e.World()) && FilesOk(e.World(), e.Files())
    ensures n !in NeededNodes(e.World(), e.Files(), e.a)
    ensures n in NeededNodes(e.World(), e.Files(), e.b) <==> n == MessageNode(e.lent)
  {
    ExampleNeeds(e, n);
    ExampleSuccessors(e);
    assert e.Files()[0] in e.Files();
  }

  lemma ExampleA(e: Example)
    requires e.Usable() && Known(e.World()) && FilesOk(e.World(), e.Files())
    ensures Workable(e.World(), e.a, Starts(e.FileA()))
    ensures e.FileA() in e.Files() && Augmentable(e.World(), e.Files(), e.FileA())
    ensures FinalRoots(e.World(), e.Files(), e.FileA()) == {MessageNode(e.held)}
  {
    ExampleFilesOk(e);
    ExampleDeclared(e);
    ExampleNeeded(e);
    NothingFails(e, e.a, {MessageNode(e.held)});
    NothingFails(e, e.a, {});
    NoTwins(e, e.a, FinalRoots(e.World(), e.Files(), e.FileA()));
  }

  lemma ExampleB(e: Example)
    requires e.Usable() && Known(e.World()) && FilesOk(e.World(), e.Files())
    ensures Workable(e.World(), e.b, Starts(e.FileB()))
    ensures e.FileB() in e.Files() && Augmentable(e.World(), e.Files(), e.FileB())
    ensures FinalRoots(e.World(), e.Files(), e.FileB()) == {MessageNode(e.lent)}
  {
    ExampleFilesOk(e);
    ExampleDeclared(e);
    ExampleNeeded(e);
    NothingFails(e, e.b, {MessageNode(e.lent)});
    NoTwins(e, e.b, FinalRoots(e.World(), e.Files(), e.FileB()));
  }

  lemma ExampleBuildable(e: Example)
    requires e.Usable()
    ensures Known(e.World()) && FilesOk(e.World(), e.Files()) && Buildable(e.World(), e.Files())
  {
    ExampleKnown(e);
    ExampleFilesOk(e);
    ExampleA(e);
    ExampleB(e);
  }

  // The graph of `a`.

  lemma ExampleTypes(e: Example)
    requires e.Usable() && Known(e.World())
    ensures TypeFor(e.World(), e.a, MessageNode(e.lent)) == e.LentType()
    ensures TypeFor(e.World(), e.a, MessageNode(e.held)) == e.HeldType()
  {
    var w := e.World();
    assert FieldFor(w, e.a, e.Note()) == e.LentType().fields[0] && FieldFor(w, e.a, e.Choice()) == e.LentType().fields[1];
    assert FieldsFor(w, e.a, e.Lent().fields) == e.LentType().fields;
    assert VariantsFor(w, e.a, e.Kind().fields) == e.LentType().oneofs[0].variants;
    assert OneofsFor(w, e.a, e.Lent().oneofs) == e.LentType().oneofs;
    assert FieldsFor(w, e.a, e.Held().fields) == e.HeldType().fields;
  }

  /** The graph of `a` has both types and no other. */
  lemma ExampleGraph(e: Example, models: map<string, PyGraph>)
    requires e.Usable() && Known(e.World()) && FilesOk(e.World(), e.Files()) && FinalGraphs(e.World(), e.Files(), models)
    ensures e.a in models && e.HeldType() in models[e.a].types && e.LentType() in models[e.a].types
    ensures forall t | t in models[e.a].types :: t == e.HeldType() || t == e.LentType()
    ensures NamesOnce(models[e.a].types)
  {
    var w := e.World();
    ExampleA(e);
    ExampleTypes(e);
    assert FinalAt(w, e.Files(), models, e.FileA());
    var types := models[e.a].types;
    ExampleReached(e, MessageNode(e.held));
    ExampleReached(e, MessageNode(e.lent));
    assert MessageNode(e.held) in Nodes(types) && MessageNode(e.lent) in Nodes(types);
    forall t | t in types
      ensures t == e.HeldType() || t == e.LentType()
    {
      assert t.Node() in Nodes(types);
      ExampleReached(e, t.Node());
    }
    OnceByName(w, e.a, types);
  }

  lemma ExampleEnv(e: Example, types: seq<PyType>)
    requires e.Usable() && e.HeldType() in types && e.LentType() in types
    requires forall t | t in types :: t == e.HeldType() || t == e.LentType()
    ensures TypesByName(types) == map[e.lent := e.LentType(), e.held := e.HeldType()]
  {
    TypesByNameHolds(types);
  }

  function EnvOf(e: Example): Env {
    map[e.lent := e.LentType(), e.held := e.HeldType()]
  }

  lemma ExampleNames(e: Example)
    requires e.Usable()
    ensures PlainNames(e.LentType().fields) == {e.note} && OneofNames(e.LentType().oneofs) == {e.kind}
    ensures PlainNames(e.HeldType().fields) == {e.part} && OneofNames(e.HeldType().oneofs) == {}
    ensures Required(e.HeldType()) == {e.lent}
  {
    assert e.LentType().fields[0] in e.LentType().fields && e.LentType().oneofs[0] in e.LentType().oneofs;
    assert e.HeldType().fields[0] in e.HeldType().fields;
  }

  lemma ExampleShaped(e: Example)
    requires e.Usable()
    ensures EnvOk(EnvOf(e))
  {
    ExampleNames(e);
    assert VariantNames(e.LentType().oneofs[0].variants) == {e.text};
  }

  lemma ExampleClosed(e: Example)
    requires e.Usable()
    ensures ClosedTypes(EnvOf(e), {e.lent, e.held})
  {
    assert HoldsOnly({e.lent, e.held}, e.LentType()) && HoldsOnly({e.lent, e.held}, e.HeldType());
  }

  /** Such instances exist: the one that Python makes without arguments, and the one that holds it. */
  lemma ExampleAlone(e: Example)
    requires e.Usable()
    ensures LeftAlone(EnvOf(e), e.LentRef(), e.LentAlone(), 1) && LeftAlone(EnvOf(e), e.HeldRef(), e.HeldAlone(), 2)
  {
    ExampleNames(e);
    assert AttrsLeftAlone(EnvOf(e), e.LentType(), e.LentAlone().attrs, 0);
    assert AttrsLeftAlone(EnvOf(e), e.HeldType(), e.HeldAlone().attrs, 1);
  }

  lemma ExampleSpoilt(e: Example)
    requires e.Usable()
    ensures Spoilt(EnvOf(e), e.lent) && Spoilt(EnvOf(e), e.held)
  {
    var env := EnvOf(e);
    SpoiltStep(env, e.lent);
    ExampleNames(e);
    SpoiltStep(env, e.held);
  }

  /** Nothing of file `b` that is left at its defaults, and nothing that holds such a thing, gets through the to_pb of file `a`. */
  lemma BorrowedNeverWrites(e: Example, models: map<string, PyGraph>, handlers: map<string, seq<Handler>>, v: Value, depth: nat)
    requires e.Usable() && Known(e.World()) && FilesOk(e.World(), e.Files()) && FinalGraphs(e.World(), e.Files(), models)
    ensures e.a in models && TypesByName(models[e.a].types) == EnvOf(e)
    ensures LeftAlone(EnvOf(e), e.LentRef(), v, depth) ==>
              RunToRef(EnvOf(e), ScopeOf(e.World(), models, handlers, e.a), e.LentRef(), v, depth + 1).None?
    ensures LeftAlone(EnvOf(e), e.HeldRef(), v, depth) ==>
              RunToRef(EnvOf(e), ScopeOf(e.World(), models, handlers, e.a), e.HeldRef(), v, depth + 1).None?
  {
    ExampleGraph(e, models);
    ExampleEnv(e, models[e.a].types);
    ExampleShaped(e);
    ExampleClosed(e);
    ExampleSpoilt(e);
    var scope := ScopeOf(e.World(), models, handlers, e.a);
    if LeftAlone(EnvOf(e), e.LentRef(), v, depth) {
      LeftAloneNeverWrites(EnvOf(e), scope, {e.lent, e.held}, e.LentRef(), v, depth);
    }
    if LeftAlone(EnvOf(e), e.HeldRef(), v, depth) {
      LeftAloneNeverWrites(EnvOf(e), scope, {e.lent, e.held}, e.HeldRef(), v, depth);
    }
  }

  /** No message of file `b` with the oneof's member set gets through the from_pb of file `a`. */
  lemma BorrowedNeverReads(e: Example, models: map<string, PyGraph>, handlers: map<string, seq<Handler>>, fields: Fields, depth: nat)
    requires e.Usable() && Known(e.World()) && FilesOk(e.World(), e.Files()) && FinalGraphs(e.World(), e.Files(), models)
    requires e.text in fields
    ensures e.a in models
    ensures RunFromMessage(EnvOf(e), ScopeOf(e.World(), models, handlers, e.a), e.LentType(), fields, depth).None?
  {
    ExampleGraph(e, models);
    ExampleShaped(e);
    TextIsSet(e, fields);
    var t := e.LentType();
    ImportedOneofNeverReads(EnvOf(e), ScopeOf(e.World(), models, handlers, e.a), models[e.a].types, HandlersOf(handlers, e.a), t,
                            t.oneofs[0], t.oneofs[0].variants[0], fields, depth);
  }

  lemma TextIsSet(e: Example, fields: Fields)
    requires e.Usable() && e.text in fields
    ensures e.LentType().oneofs[0] in e.LentType().oneofs && OneofsShaped(e.LentType().oneofs)
    ensures WhichOneof(e.LentType().oneofs[0].variants, fields) == Some(e.LentType().oneofs[0].variants[0])
  {
  }

  // Loading: the modules of both files load when Python takes the names, and neither does when one is a keyword.

  lemma IdentifierIsOnePart(s: string)
    requires Identifier(s)
    ensures AsSet(Parts(s)) == {s}
  {
    UndottedIsOnePart(s);
  }

  lemma ClassIsOnePart(package: string, name: string)
    requires Identifier(name)
    ensures AsSet(Parts(WithoutPackage(package + "." + name, package))) == {name}
  {
    var fullName := package + "." + name;
    assert fullName[..|package| + 1] == package + ".";
    assert fullName[|package| + 1..] == name;
    IdentifierIsOnePart(name);
  }

  /** The lent type, as the mappers of its own file see it. */
  function OwnLentType(e: Example): PyType {
    e.LentType().(owner := Owner(e.b, true))
  }

  lemma LentParses(e: Example, t: PyType)
    requires e.Usable() && e.Spellable() && (t == e.LentType() || t == OwnLentType(e))
    ensures TypeParses(e.World(), t)
  {
    LentSpells(e, t);
    ClassIsOnePart(e.bNames.package, e.lentClass);
    FileParses(e.bNames, t);
    PartsParse(e.World(), t);
  }

  lemma FileParses(names: FileNames, t: PyType)
    requires Identifier(names.publicModule) && Identifier(names.publicAlias) && Identifier(names.protobufAlias)
    requires Identifier(names.protobufModule)
    ensures AllIdentifiers(FileSpelled(names, t))
  {
    IdentifierIsOnePart(names.publicModule);
  }

  lemma LentSpells(e: Example, t: PyType)
    requires e.Usable() && (t == e.LentType() || t == OwnLentType(e))
    ensures MembersSpelled(t) == {e.note, e.kind, e.text} && ClassesSpelled(t) <= {e.lentClass, e.base, e.variant}
  {
    ExampleNames(e);
    assert t.oneofs[0] in t.oneofs && t.oneofs[0].variants[0] in t.oneofs[0].variants;
  }

  lemma HeldParses(e: Example)
    requires e.Usable() && e.Spellable()
    ensures TypeParses(e.World(), e.HeldType())
  {
    ExampleNames(e);
    ClassIsOnePart(e.aNames.package, e.heldClass);
    PartsParse(e.World(), e.HeldType());
  }

  lemma ExampleGraphB(e: Example, models: map<string, PyGraph>)
    requires e.Usable() && Known(e.World()) && FilesOk(e.World(), e.Files()) && FinalGraphs(e.World(), e.Files(), models)
    ensures e.b in models && forall t | t in models[e.b].types :: t == OwnLentType(e)
  {
    var w := e.World();
    ExampleB(e);
    assert FinalAt(w, e.Files(), models, e.FileB());
    forall t | t in models[e.b].types
      ensures t == OwnLentType(e)
    {
      assert t.Node() in Nodes(models[e.b].types);
      ExampleReached(e, t.Node());
      OwnLentIs(e);
    }
  }

  lemma OwnLentIs(e: Example)
    requires e.Usable() && Known(e.World())
    ensures TypeFor(e.World(), e.b, MessageNode(e.lent)) == OwnLentType(e)
  {
    var w := e.World();
    assert FieldFor(w, e.b, e.Note()) == e.LentType().fields[0] && FieldFor(w, e.b, e.Choice()) == e.LentType().fields[1];
    assert FieldsFor(w, e.b, e.Lent().fields) == e.LentType().fields;
    assert VariantsFor(w, e.b, e.Kind().fields) == e.LentType().oneofs[0].variants;
    assert OneofsFor(w, e.b, e.Lent().oneofs) == e.LentType().oneofs;
  }

  lemma TypesSound(e: Example)
    requires e.Usable() && e.Spellable()
    ensures TypeSound(e.World(), e.HeldType()) && TypeSound(e.World(), e.LentType()) && TypeSound(e.World(), OwnLentType(e))
  {
    HeldParses(e);
    LentParses(e, e.LentType());
    LentParses(e, OwnLentType(e));
  }

  lemma SoundA(e: Example, types: seq<PyType>)
    requires e.Usable() && e.Spellable() && e.LentType() in types && forall t | t in types :: t == e.HeldType() || t == e.LentType()
    ensures ModuleSound(e.World(), types, []) && ImportsOf(types) == {e.b}
  {
    TypesSound(e);
    TwoTypesSound(e.World(), types, e.HeldType(), e.LentType());
    OneImport(types, e.HeldType(), e.LentType());
  }

  lemma OneImport(types: seq<PyType>, x: PyType, y: PyType)
    requires x.owner.isCurrentFile && !y.owner.isCurrentFile && y in types && forall t | t in types :: t == x || t == y
    ensures ImportsOf(types) == {y.owner.protoPath}
  {
  }

  lemma TwoTypesSound(w: World, types: seq<PyType>, x: PyType, y: PyType)
    requires TypeSound(w, x) && TypeSound(w, y) && forall t | t in types :: t == x || t == y
    ensures ModuleSound(w, types, [])
  {
  }

  lemma SoundB(e: Example, types: seq<PyType>)
    requires e.Usable() && e.Spellable() && forall t | t in types :: t == OwnLentType(e)
    ensures ModuleSound(e.World(), types, []) && ImportsOf(types) == {}
  {
    TypesSound(e);
  }

  lemma ExampleLoads(e: Example, models: map<string, PyGraph>)
    requires e.Usable() && Known(e.World()) && FilesOk(e.World(), e.Files()) && FinalGraphs(e.World(), e.Files(), models)
    requires e.Spellable()
    ensures Loads(e.World(), models, map[], e.a)
  {
    ExampleGraph(e, models);
    ExampleGraphB(e, models);
    SoundA(e, models[e.a].types);
    SoundB(e, models[e.b].types);
    LoadsStep(e.World(), models, map[], e.b);
    LoadsStep(e.World(), models, map[], e.a);
  }

  /** With a keyword for the name of the optional field, neither file has a mapper that works. */
  lemma KeywordStopsBoth(e: Example, models: map<string, PyGraph>, handlers: map<string, seq<Handler>>,
                         env: Env, ref: TypeRef, v: Value, depth: nat)
    requires e.Usable() && Known(e.World()) && FilesOk(e.World(), e.Files()) && FinalGraphs(e.World(), e.Files(), models)
    requires Keyword(e.note)
    ensures ThereAndBack(env, ScopeOf(e.World(), models, handlers, e.a), ref, v, depth).None?
  {
    ExampleGraph(e, models);
    ExampleNames(e);
    KeywordStopsFile(e.World(), models, handlers, e.a, e.LentType(), e.note, env, ref, v, depth);
  }

  // Two such files.

  const CLUB: Example :=
    Example("reception.proto", "clubhouse.proto",
            FileNames("desk", "reception_mcp", "reception_mcp_1f8c2d40", "reception_pb2_1f8c2d40", "reception_pb2"),
            FileNames("club", "clubhouse_mcp", "clubhouse_mcp_7be90a13", "clubhouse_pb2_7be90a13", "clubhouse_pb2"),
            "club.Membership", "desk.Registration", "Membership", "Registration", "MembershipProofVariant", "MembershipProofTextVariant",
            "annotation", "proof", "text", "membership")

  lemma ClubUsable()
    ensures CLUB.Usable()
  {
    assert "reception.proto"[0] != "clubhouse.proto"[0] && "club.Membership"[0] != "desk.Registration"[0];
    assert "reception_mcp_1f8c2d40"[10] != "reception_pb2_1f8c2d40"[10] && "clubhouse_mcp_7be90a13"[10] != "clubhouse_pb2_7be90a13"[10];
    assert "reception_mcp"[0] != "clubhouse_mcp"[0] && "reception_mcp_1f8c2d40"[0] != "clubhouse_mcp_7be90a13"[0];
    assert "reception_pb2_1f8c2d40"[0] != "clubhouse_pb2_7be90a13"[0];
    assert "annotation"[0] != "text"[0] && "proof"[0] != "annotation"[0] && "proof"[0] != "text"[0];
    assert |"Membership"| != |"MembershipProofVariant"| && |"MembershipProofVariant"| != |"MembershipProofTextVariant"|;
  }

  lemma LongIsIdentifier(s: string)
    requires |s| >= 10 && !IsDigit(s[0]) && forall i | 0 <= i < |s| :: IsWordChar(s[i])
    ensures Identifier(s)
  {
  }

  lemma ClubMembers()
    ensures Identifier("annotation") && Identifier("proof") && Identifier("text") && Identifier("membership")
  {
    LongIsIdentifier("annotation");
    LongIsIdentifier("membership");
    assert "proof"[0] == 'p' && "text"[0] == 't' && "text"[1] == 'e';
  }

  lemma ClubClasses()
    ensures Identifier("Membership") && Identifier("Registration")
    ensures Identifier("MembershipProofVariant") && Identifier("MembershipProofTextVariant")
  {
    LongIsIdentifier("Membership");
    LongIsIdentifier("Registration");
    LongIsIdentifier("MembershipProofVariant");
    LongIsIdentifier("MembershipProofTextVariant");
  }

  lemma ClubModules()
    ensures Identifier("reception_pb2") && Identifier("clubhouse_pb2") && Identifier("clubhouse_mcp")
  {
    LongIsIdentifier("reception_pb2");
    LongIsIdentifier("clubhouse_pb2");
    LongIsIdentifier("clubhouse_mcp");
  }

  lemma ClubAliases()
    ensures Identifier("clubhouse_mcp_7be90a13") && Identifier("clubhouse_pb2_7be90a13")
  {
    LongIsIdentifier("clubhouse_mcp_7be90a13");
    LongIsIdentifier("clubhouse_pb2_7be90a13");
  }

  lemma ClubFullNames()
    ensures CLUB.lent == CLUB.bNames.package + "." + CLUB.lentClass && CLUB.held == CLUB.aNames.package + "." + CLUB.heldClass
  {
    assert "club.Membership" == "club" + "." + "Membership" && "desk.Registration" == "desk" + "." + "Registration";
  }

  lemma ClubSpellable()
    ensures CLUB.Spellable()
  {
    ClubMembers();
    ClubClasses();
    ClubModules();
    ClubAliases();
    ClubFullNames();
  }

  /** What the generator does with these files: both modules load, and the mappers of the first file cannot write or read the lent type. */
  method CollectClub() returns (models: map<string, PyGraph>)
    ensures CLUB.a in models && Loads(CLUB.World(), models, map[], CLUB.a)
    ensures var scope := ScopeOf(CLUB.World(), models, map[], CLUB.a);
            && RunToRef(EnvOf(CLUB), scope, CLUB.HeldRef(), CLUB.HeldAlone(), 3).None?
            && RunFromMessage(EnvOf(CLUB), scope, CLUB.LentType(), map[CLUB.text := PSingle(PbPlain(Leaf(Text, 1)))], 3).None?
  {
    ClubUsable();
    ClubSpellable();
    ExampleBuildable(CLUB);
    ClubGenerated();
    var result := CollectModels(CLUB.World(), [Input(CLUB.FileA(), true), Input(CLUB.FileB(), true)]);
    models := result.value;
    ExampleLoads(CLUB, models);
    ExampleAlone(CLUB);
    BorrowedNeverWrites(CLUB, models, map[], CLUB.HeldAlone(), 2);
    BorrowedNeverReads(CLUB, models, map[], map[CLUB.text := PSingle(PbPlain(Leaf(Text, 1)))], 3);
  }

  lemma ClubGenerated()
    ensures Generated([Input(CLUB.FileA(), true), Input(CLUB.FileB(), true)]) == CLUB.Files()
  {
    var inputs := [Input(CLUB.FileA(), true), Input(CLUB.FileB(), true)];
    assert inputs[..1] == [Input(CLUB.FileA(), true)] && inputs[..1][..0] == [];
    assert Generated(inputs[..1]) == [CLUB.FileA()];
  }
}
