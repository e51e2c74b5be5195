/**
 The depth-first collector of Python types: what its registries hold at any moment,
 and that it collects exactly the types reachable from its roots.
 */
module PythonCollector {
  import opened Wrappers
  import opened Reachability
  import opened PythonTypes

  datatype State = State(
    types: seq<PyType>,
    imports: seq<string>,
    registry: map<Slot, string>,
    seenMessages: set<string>,
    seenEnums: set<string>)

  datatype CollectError = NameCollision(slot: Slot, existing: string, owner: string) | UnsupportedWellKnownType(name: string)

  predicate Seen(st: State, n: Node) {
    match n
    case MessageNode(name) => name in st.seenMessages
    case EnumNode(name) => name in st.seenEnums
  }

  function Nodes(types: seq<PyType>): set<Node> {
    set t | t in types :: t.Node()
  }

  predicate Held(st: State, c: Claim) {
    c.slot in st.registry && st.registry[c.slot] == c.key
  }

  /** The file is the current one, or imported with both its aliases registered. */
  predicate Noted(w: World, current: string, st: State, file: string) {
    file == current || (file in st.imports && (file in w.files ==> forall c | c in AliasClaims(w, file) :: Held(st, c)))
  }

  /** Nothing that was found is lost or changed. */
  predicate Grows(before: State, after: State) {
    && before.types <= after.types
    && before.imports <= after.imports
    && (forall slot | slot in before.registry :: slot in after.registry && after.registry[slot] == before.registry[slot])
    && before.seenMessages <= after.seenMessages
    && before.seenEnums <= after.seenEnums
  }

  /** Everything that the Python form of `n` needs has been taken care of. */
  ghost predicate Complete(w: World, current: string, st: State, n: Node)
    requires Known(w) && Described(w, n)
  {
    && !Rejected(w, n)
    && (forall b | b in Successors(w, n) :: Seen(st, b))
    && (forall c | c in NameClaims(w, n) :: Held(st, c))
    && (forall p | p in FilesOf(w, n) :: Noted(w, current, st, p))
  }

  /** The types so far are right, each there once, and are the seen ones but for the open frames. */
  ghost predicate TypesOk(w: World, current: string, st: State, frames: set<Node>)
    requires Known(w)
  {
    && (forall t | t in st.types :: Described(w, t.Node()) && t == TypeFor(w, current, t.Node()))
    && (forall i, j | 0 <= i < j < |st.types| :: st.types[i].Node() != st.types[j].Node())
    && (forall n :: Seen(st, n) <==> n in Nodes(st.types) || n in frames)
    && (forall m | m in frames :: m !in Nodes(st.types))
  }

  ghost predicate AllComplete(w: World, current: string, st: State)
    requires Known(w)
  {
    forall n | n in Nodes(st.types) && Described(w, n) :: Complete(w, current, st, n)
  }

  ghost predicate Reached(w: World, roots: set<Node>, n: Node)
    requires Known(w)
  {
    Described(w, n) && Reach(Graph(w), roots, n)
  }

  ghost predicate AllReached(w: World, roots: set<Node>, st: State)
    requires Known(w)
  {
    forall n | Seen(st, n) :: Reached(w, roots, n)
  }

  ghost predicate HasClaimant(w: World, current: string, st: State, c: Claim)
    requires Known(w)
  {
    exists n :: Seen(st, n) && Described(w, n) && ClaimedBy(w, current, n, c)
  }

  ghost predicate HasImporter(w: World, st: State, file: string)
    requires Known(w)
  {
    exists n :: Seen(st, n) && Described(w, n) && file in FilesOf(w, n)
  }

  /** Registered names and imports are there because some seen type wants them. */
  ghost predicate Justified(w: World, current: string, st: State)
    requires Known(w)
  {
    && (forall slot | slot in st.registry :: HasClaimant(w, current, st, Claim(slot, st.registry[slot])))
    && (forall p | p in st.imports :: p != current && HasImporter(w, st, p))
    && (forall i, j | 0 <= i < j < |st.imports| :: st.imports[i] != st.imports[j])
  }

  ghost predicate Inv(w: World, current: string, roots: set<Node>, st: State, frames: set<Node>) {
    && Known(w)
    && TypesOk(w, current, st, frames)
    && AllComplete(w, current, st)
    && AllReached(w, roots, st)
    && Justified(w, current, st)
  }

  /** The states that the collector can be in while `frames` are open. */
  ghost function States(w: World, current: string, roots: set<Node>, frames: set<Node>): iset<State> {
    iset st: State | Inv(w, current, roots, st, frames)
  }

  /** Two types that lay claim to one place under different keys. */
  ghost predicate Disagree(w: World, current: string, a: Node, b: Node)
    requires Known(w) && Described(w, a) && Described(w, b)
  {
    exists c, d | ClaimedBy(w, current, a, c) && ClaimedBy(w, current, b, d) :: c.slot == d.slot && c.key != d.key
  }

  /** Why collecting from these roots cannot work, whatever the order. */
  ghost predicate Conflict(w: World, current: string, roots: set<Node>)
    requires Known(w)
  {
    exists a, b | Reached(w, roots, a) && Reached(w, roots, b) :: Disagree(w, current, a, b)
  }

  ghost predicate Unrenderable(w: World, roots: set<Node>)
    requires Known(w)
  {
    exists n :: Reached(w, roots, n) && Rejected(w, n)
  }

  ghost predicate Fails(w: World, current: string, roots: set<Node>)
    requires Known(w)
  {
    Conflict(w, current, roots) || Unrenderable(w, roots)
  }

  lemma GrowsTransitive(a: State, b: State, c: State)
    requires Grows(a, b) && Grows(b, c)
    ensures Grows(a, c)
  {
  }

  /** What is left to enter only shrinks, which is why the search ends. */
  lemma LeftToEnter(w: World, before: State, after: State)
    requires Grows(before, after)
    ensures w.messages.Keys - after.seenMessages == w.messages.Keys - before.seenMessages
         || w.messages.Keys - after.seenMessages < w.messages.Keys - before.seenMessages
  {
  }

  lemma CompleteGrows(w: World, current: string, before: State, after: State, n: Node)
    requires Known(w) && Described(w, n) && Grows(before, after) && Complete(w, current, before, n)
    ensures Complete(w, current, after, n)
  {
  }

  lemma AllCompleteGrows(w: World, current: string, before: State, after: State)
    requires Known(w) && Grows(before, after) && AllComplete(w, current, before) && after.types == before.types
    ensures AllComplete(w, current, after)
  {
    forall n | n in Nodes(after.types) && Described(w, n) {
      CompleteGrows(w, current, before, after, n);
    }
  }

  lemma JustifiedGrows(w: World, current: string, before: State, after: State)
    requires Known(w) && Grows(before, after) && Justified(w, current, before)
    requires after.registry == before.registry && after.imports == before.imports
    ensures Justified(w, current, after)
  {
    forall slot | slot in after.registry
      ensures HasClaimant(w, current, after, Claim(slot, after.registry[slot]))
    {
      assert HasClaimant(w, current, before, Claim(slot, before.registry[slot]));
      var n :| Seen(before, n) && Described(w, n) && ClaimedBy(w, current, n, Claim(slot, before.registry[slot]));
      assert Seen(after, n);
    }
    forall p | p in after.imports
      ensures HasImporter(w, after, p)
    {
      assert HasImporter(w, before, p);
      var n :| Seen(before, n) && Described(w, n) && p in FilesOf(w, n);
      assert Seen(after, n);
    }
  }

  // The four things that happen to the state.

  function AddClaim(st: State, c: Claim): State {
    st.(registry := st.registry[c.slot := c.key])
  }

  lemma AddClaimJustified(w: World, current: string, st: State, n: Node, c: Claim)
    requires Known(w) && Justified(w, current, st) && Seen(st, n) && Described(w, n) && ClaimedBy(w, current, n, c)
    ensures Justified(w, current, AddClaim(st, c))
  {
    var after := AddClaim(st, c);
    forall slot | slot in after.registry
      ensures HasClaimant(w, current, after, Claim(slot, after.registry[slot]))
    {
      if slot == c.slot {
        assert Claim(slot, after.registry[slot]) == c;
        assert Seen(after, n);
      } else {
        assert HasClaimant(w, current, st, Claim(slot, st.registry[slot]));
        var m :| Seen(st, m) && Described(w, m) && ClaimedBy(w, current, m, Claim(slot, st.registry[slot]));
        assert Seen(after, m);
      }
    }
    forall p | p in after.imports
      ensures HasImporter(w, after, p)
    {
      assert HasImporter(w, st, p);
      var m :| Seen(st, m) && Described(w, m) && p in FilesOf(w, m);
      assert Seen(after, m);
    }
  }

  lemma AddClaimInv(w: World, current: string, roots: set<Node>, st: State, frames: set<Node>, n: Node, c: Claim)
    requires Known(w) && st in States(w, current, roots, frames) && Seen(st, n) && Described(w, n) && ClaimedBy(w, current, n, c)
    requires c.slot in st.registry ==> st.registry[c.slot] == c.key
    ensures AddClaim(st, c) in States(w, current, roots, frames)
    ensures Grows(st, AddClaim(st, c)) && Held(AddClaim(st, c), c)
  {
    AllCompleteGrows(w, current, st, AddClaim(st, c));
    SameTypesOk(w, current, roots, st, AddClaim(st, c), frames);
    AddClaimJustified(w, current, st, n, c);
  }

  lemma ClaimCollides(w: World, current: string, roots: set<Node>, st: State, frames: set<Node>, n: Node, c: Claim)
    requires Known(w) && st in States(w, current, roots, frames) && Seen(st, n) && Described(w, n) && ClaimedBy(w, current, n, c)
    requires c.slot in st.registry && st.registry[c.slot] != c.key
    ensures Fails(w, current, roots)
  {
    var d := Claim(c.slot, st.registry[c.slot]);
    assert HasClaimant(w, current, st, d);
    var m :| Seen(st, m) && Described(w, m) && ClaimedBy(w, current, m, d);
    assert Reached(w, roots, n) && Reached(w, roots, m);
    assert Disagree(w, current, n, m);
  }

  function AddImport(st: State, file: string): State {
    if file in st.imports then st else st.(imports := st.imports + [file])
  }

  lemma AddImportJustified(w: World, current: string, st: State, n: Node, file: string)
    requires Known(w) && Justified(w, current, st) && Seen(st, n) && Described(w, n) && file in FilesOf(w, n)
    requires file != current && file !in st.imports
    ensures Justified(w, current, AddImport(st, file))
  {
    var after := AddImport(st, file);
    forall slot | slot in after.registry
      ensures HasClaimant(w, current, after, Claim(slot, after.registry[slot]))
    {
      assert HasClaimant(w, current, st, Claim(slot, st.registry[slot]));
      var m :| Seen(st, m) && Described(w, m) && ClaimedBy(w, current, m, Claim(slot, st.registry[slot]));
      assert Seen(after, m);
    }
    forall p | p in after.imports
      ensures HasImporter(w, after, p)
    {
      if p == file {
        assert Seen(after, n);
      } else {
        assert HasImporter(w, st, p);
        var m :| Seen(st, m) && Described(w, m) && p in FilesOf(w, m);
        assert Seen(after, m);
      }
    }
  }

  /** What depends only on the types and on what was seen. */
  lemma SameTypesOk(w: World, current: string, roots: set<Node>, before: State, after: State, frames: set<Node>)
    requires Known(w) && TypesOk(w, current, before, frames) && AllReached(w, roots, before)
    requires after.types == before.types && after.seenMessages == before.seenMessages && after.seenEnums == before.seenEnums
    ensures TypesOk(w, current, after, frames) && AllReached(w, roots, after)
  {
    assert forall m :: Seen(after, m) <==> Seen(before, m);
  }

  lemma AddImportInv(w: World, current: string, roots: set<Node>, st: State, frames: set<Node>, n: Node, file: string)
    requires Known(w) && st in States(w, current, roots, frames) && Seen(st, n) && Described(w, n)
    requires file in FilesOf(w, n) && file != current
    ensures AddImport(st, file) in States(w, current, roots, frames) && Grows(st, AddImport(st, file))
  {
    if file !in st.imports {
      AllCompleteGrows(w, current, st, AddImport(st, file));
      SameTypesOk(w, current, roots, st, AddImport(st, file), frames);
      AddImportJustified(w, current, st, n, file);
    }
  }

  function Mark(st: State, n: Node): State {
    match n
    case MessageNode(name) => st.(seenMessages := st.seenMessages + {name})
    case EnumNode(name) => st.(seenEnums := st.seenEnums + {name})
  }

  lemma MarkTypesOk(w: World, current: string, roots: set<Node>, st: State, frames: set<Node>, n: Node)
    requires Known(w) && TypesOk(w, current, st, frames) && AllReached(w, roots, st) && !Seen(st, n) && Reached(w, roots, n)
    ensures TypesOk(w, current, Mark(st, n), frames + {n}) && AllReached(w, roots, Mark(st, n)) && n !in frames
    ensures Grows(st, Mark(st, n))
  {
    assert forall m :: Seen(Mark(st, n), m) <==> Seen(st, m) || m == n;
  }

  /** Marking a type as seen opens its frame. */
  lemma OpenFrameInv(w: World, current: string, roots: set<Node>, st: State, frames: set<Node>, n: Node)
    requires Known(w) && st in States(w, current, roots, frames) && !Seen(st, n) && Reached(w, roots, n)
    ensures Mark(st, n) in States(w, current, roots, frames + {n}) && Grows(st, Mark(st, n)) && n !in frames
  {
    MarkTypesOk(w, current, roots, st, frames, n);
    AllCompleteGrows(w, current, st, Mark(st, n));
    JustifiedGrows(w, current, st, Mark(st, n));
  }

  function AddType(st: State, t: PyType): State {
    st.(types := st.types + [t])
  }

  lemma AddTypeNodes(types: seq<PyType>, t: PyType)
    ensures Nodes(types + [t]) == Nodes(types) + {t.Node()}
  {
    forall n
      ensures n in Nodes(types + [t]) <==> n in Nodes(types) + {t.Node()}
    {
      if n in Nodes(types) {
        var u :| u in types && u.Node() == n;
        assert u in types + [t];
      }
      assert t in types + [t];
    }
  }

  lemma AddTypeTypesOk(w: World, current: string, roots: set<Node>, st: State, frames: set<Node>, n: Node)
    requires Known(w) && TypesOk(w, current, st, frames + {n}) && AllReached(w, roots, st) && n !in frames && Described(w, n)
    ensures TypesOk(w, current, AddType(st, TypeFor(w, current, n)), frames)
    ensures AllReached(w, roots, AddType(st, TypeFor(w, current, n)))
  {
    var t := TypeFor(w, current, n);
    assert t.Node() == n;
    AddTypeNodes(st.types, t);
    assert forall m :: Seen(AddType(st, t), m) <==> Seen(st, m);
    TypesStayDistinct(w, current, st, frames + {n}, t);
  }

  lemma AddTypeComplete(w: World, current: string, st: State, n: Node)
    requires Known(w) && AllComplete(w, current, st) && Described(w, n) && Complete(w, current, st, n)
    ensures AllComplete(w, current, AddType(st, TypeFor(w, current, n)))
    ensures Grows(st, AddType(st, TypeFor(w, current, n)))
  {
    var t := TypeFor(w, current, n);
    AddTypeNodes(st.types, t);
    forall m | m in Nodes(st.types + [t]) && Described(w, m)
      ensures Complete(w, current, AddType(st, t), m)
    {
      CompleteGrows(w, current, st, AddType(st, t), m);
    }
  }

  /** Closing a frame appends the type, which is by then complete. */
  lemma CloseFrameInv(w: World, current: string, roots: set<Node>, st: State, frames: set<Node>, n: Node)
    requires Known(w) && st in States(w, current, roots, frames + {n}) && n !in frames && Described(w, n)
    requires Complete(w, current, st, n)
    ensures AddType(st, TypeFor(w, current, n)) in States(w, current, roots, frames)
    ensures Grows(st, AddType(st, TypeFor(w, current, n)))
  {
    AddTypeTypesOk(w, current, roots, st, frames, n);
    AddTypeComplete(w, current, st, n);
    JustifiedGrows(w, current, st, AddType(st, TypeFor(w, current, n)));
  }

  lemma TypesStayDistinct(w: World, current: string, st: State, frames: set<Node>, t: PyType)
    requires Known(w) && TypesOk(w, current, st, frames) && t.Node() !in Nodes(st.types)
    ensures forall i, j | 0 <= i < j < |st.types| + 1 :: (st.types + [t])[i].Node() != (st.types + [t])[j].Node()
  {
    var types := st.types + [t];
    forall i, j | 0 <= i < j < |types|
      ensures types[i].Node() != types[j].Node()
    {
      assert types[i] == st.types[i] && st.types[i] in st.types;
    }
  }

  // Small steps from a field to the graph.

  lemma TargetReached(w: World, roots: set<Node>, n: Node, b: Node)
    requires Known(w) && Reached(w, roots, n) && b in Successors(w, n)
    ensures Reached(w, roots, b)
  {
    assert n in AllNodes(w);
    assert Edge(Graph(w), n, b);
    ReachStep(Graph(w), roots, n, b);
    SuccessorsDescribed(w, n, b);
  }

  lemma SuccessorsDescribed(w: World, n: Node, b: Node)
    requires Known(w) && Described(w, n) && b in Successors(w, n)
    ensures Described(w, b)
  {
    var m := w.messages[n.name];
    if f :| f in m.fields && b in FieldTargets(w, f) {
      if MapEntry(w, f).Some? && b !in KindTargets(w, f.kind) {
        assert MapEntry(w, f).value.1 in w.messages[f.kind.messageName].fields;
      }
    }
  }

  lemma AliasClaimed(w: World, current: string, n: Node, file: string, c: Claim)
    requires Known(w) && Described(w, n) && file in FilesOf(w, n) && file in w.files && file != current
    requires c == PublicAlias(w, file) || c == ProtobufAlias(w, file)
    ensures ClaimedBy(w, current, n, c)
  {
  }

  // One registry check, and what a mentioned file brings with it.

  /** A slot that is free, or held under the same key, is taken; otherwise the holder is reported. */
  function TryClaim(st: State, c: Claim): Result<State, CollectError> {
    if c.slot in st.registry && st.registry[c.slot] != c.key
    then Err(NameCollision(c.slot, st.registry[c.slot], c.key))
    else Ok(AddClaim(st, c))
  }

  lemma TryClaimInv(w: World, current: string, roots: set<Node>, st: State, frames: set<Node>, n: Node, c: Claim)
    requires Known(w) && st in States(w, current, roots, frames) && Seen(st, n) && Described(w, n) && ClaimedBy(w, current, n, c)
    ensures match TryClaim(st, c)
            case Ok(after) => after in States(w, current, roots, frames) && Grows(st, after) && Held(after, c)
            case Err(_) => Fails(w, current, roots)
  {
    if TryClaim(st, c).Ok? {
      AddClaimInv(w, current, roots, st, frames, n, c);
    } else {
      ClaimCollides(w, current, roots, st, frames, n, c);
    }
  }

  function PublicAlias(w: World, file: string): Claim
    requires file in w.files
  {
    Claim(ImportAlias(w.files[file].publicAlias), file + ":public")
  }

  function ProtobufAlias(w: World, file: string): Claim
    requires file in w.files
  {
    Claim(ImportAlias(w.files[file].protobufAlias), file + ":protobuf")
  }

  function TryAliases(w: World, st: State, file: string): Result<State, CollectError>
    requires file in w.files
  {
    match TryClaim(st, PublicAlias(w, file))
    case Err(e) => Err(e)
    case Ok(after) => TryClaim(after, ProtobufAlias(w, file))
  }

  /** ownerForProtoPath: nothing for the current file, else both aliases and the import. */
  function NoteFile(w: World, current: string, st: State, file: string): Result<State, CollectError>
    requires file in w.files
  {
    if file == current then Ok(st)
    else
      match TryAliases(w, st, file)
      case Err(e) => Err(e)
      case Ok(after) => Ok(AddImport(after, file))
  }

  lemma TryAliasesInv(w: World, current: string, roots: set<Node>, st: State, frames: set<Node>, n: Node, file: string)
    requires Known(w) && st in States(w, current, roots, frames) && Seen(st, n) && Described(w, n)
    requires file in FilesOf(w, n) && file in w.files && file != current
    ensures match TryAliases(w, st, file)
            case Ok(after) =>
              && after in States(w, current, roots, frames) && Grows(st, after)
              && Held(after, PublicAlias(w, file)) && Held(after, ProtobufAlias(w, file))
            case Err(_) => Fails(w, current, roots)
  {
    var first, second := PublicAlias(w, file), ProtobufAlias(w, file);
    AliasClaimed(w, current, n, file, first);
    AliasClaimed(w, current, n, file, second);
    TryClaimInv(w, current, roots, st, frames, n, first);
    match TryClaim(st, first)
    case Err(_) =>
    case Ok(after) => TryClaimInv(w, current, roots, after, frames, n, second);
  }

  lemma ImportNotes(w: World, current: string, st: State, file: string)
    requires file in w.files && Held(st, PublicAlias(w, file)) && Held(st, ProtobufAlias(w, file))
    ensures Noted(w, current, AddImport(st, file), file)
  {
  }

  lemma NoteFileInv(w: World, current: string, roots: set<Node>, st: State, frames: set<Node>, n: Node, file: string)
    requires Known(w) && st in States(w, current, roots, frames) && Seen(st, n) && Described(w, n)
    requires file in FilesOf(w, n) && file in w.files
    ensures match NoteFile(w, current, st, file)
            case Ok(after) => after in States(w, current, roots, frames) && Grows(st, after) && Noted(w, current, after, file)
            case Err(_) => Fails(w, current, roots)
  {
    if file != current {
      TryAliasesInv(w, current, roots, st, frames, n, file);
      match TryAliases(w, st, file)
      case Err(_) =>
      case Ok(after) =>
        assert Seen(after, n);
        AddImportInv(w, current, roots, after, frames, n, file);
        ImportNotes(w, current, after, file);
        GrowsTransitive(st, after, AddImport(after, file));
    }
  }

  // What collecting one field achieves.

  predicate KindDone(w: World, current: string, st: State, k: Kind)
    requires KindKnown(w, k)
  {
    && !KindRejected(k)
    && (forall b | b in KindTargets(w, k) :: Seen(st, b))
    && (forall p | p in KindFiles(w, k) :: Noted(w, current, st, p))
  }

  predicate FieldDone(w: World, current: string, st: State, f: FieldDesc)
    requires Known(w) && KindKnown(w, f.kind)
  {
    && KindDone(w, current, st, f.kind)
    && (MapEntry(w, f).Some? ==> KindDone(w, current, st, MapEntry(w, f).value.1.kind))
  }

  /** The kind occurs in the descriptor of `n`, so what it needs is part of what `n` needs. */
  ghost predicate KindIn(w: World, n: Node, k: Kind)
    requires Known(w) && Described(w, n)
  {
    && KindKnown(w, k)
    && KindTargets(w, k) <= Successors(w, n)
    && KindFiles(w, k) <= FilesOf(w, n)
    && (KindRejected(k) ==> Rejected(w, n))
  }

  lemma FieldKindIn(w: World, name: string, f: FieldDesc)
    requires Known(w) && name in w.messages && f in w.messages[name].fields
    ensures KindIn(w, MessageNode(name), f.kind)
    ensures MapEntry(w, f).Some? ==> KindIn(w, MessageNode(name), MapEntry(w, f).value.1.kind)
  {
    forall b | b in FieldTargets(w, f)
      ensures b in Successors(w, MessageNode(name))
    {
    }
    forall p | p in FieldFiles(w, f)
      ensures p in FilesOf(w, MessageNode(name))
    {
    }
  }

  lemma VariantKindIn(w: World, name: string, o: OneofDesc, f: FieldDesc)
    requires Known(w) && name in w.messages && o in w.messages[name].oneofs && f in o.fields
    ensures KindIn(w, MessageNode(name), f.kind)
  {
    forall b | b in KindTargets(w, f.kind)
      ensures b in Successors(w, MessageNode(name))
    {
    }
    forall p | p in KindFiles(w, f.kind)
      ensures p in FilesOf(w, MessageNode(name))
    {
    }
  }

  lemma FieldDoneGrows(w: World, current: string, before: State, after: State, f: FieldDesc)
    requires Known(w) && KindKnown(w, f.kind) && Grows(before, after) && FieldDone(w, current, before, f)
    ensures FieldDone(w, current, after, f)
  {
  }

  lemma KindDoneGrows(w: World, current: string, before: State, after: State, k: Kind)
    requires KindKnown(w, k) && Grows(before, after) && KindDone(w, current, before, k)
    ensures KindDone(w, current, after, k)
  {
  }

  ghost predicate OneofDone(w: World, current: string, st: State, name: string, file: string, o: OneofDesc)
    requires Known(w) && FieldsKnown(w, o.fields) && file in w.files
  {
    forall f | f in o.fields ::
      KindDone(w, current, st, f.kind) && Held(st, Claim(NameSlot(w, file, f.variantWrapper), name + "." + o.name + "." + f.name))
  }

  /** The pieces of a message put together. */
  lemma MessageComplete(w: World, current: string, st: State, name: string)
    requires Known(w) && name in w.messages
    requires Noted(w, current, st, w.messages[name].file)
    requires Held(st, Claim(NameSlot(w, w.messages[name].file, w.messages[name].publicName), name))
    requires forall o | o in w.messages[name].oneofs ::
               Held(st, Claim(NameSlot(w, w.messages[name].file, o.wrapper), name + "." + o.name))
    requires forall f | f in w.messages[name].fields :: FieldDone(w, current, st, f)
    requires forall o | o in w.messages[name].oneofs :: OneofDone(w, current, st, name, w.messages[name].file, o)
    ensures Complete(w, current, st, MessageNode(name))
  {
  }

  lemma KindTargetReached(w: World, roots: set<Node>, n: Node, k: Kind, b: Node)
    requires Known(w) && Reached(w, roots, n) && KindIn(w, n, k) && b in KindTargets(w, k)
    ensures Reached(w, roots, b)
  {
    TargetReached(w, roots, n, b);
  }

  /** A message that becomes a Python class of its own. */
  predicate Collectable(w: World, name: string)
    requires name in w.messages
  {
    Classify(name).Ordinary? && !w.messages[name].isMapEntry
  }

  // A whole enum.

  /** The public name an enum or a message defines. */
  function OwnName(w: World, n: Node): Claim
    requires Known(w) && Described(w, n)
  {
    match n
    case EnumNode(name) => Claim(NameSlot(w, w.enums[name].file, w.enums[name].publicName), name)
    case MessageNode(name) => Claim(NameSlot(w, w.messages[name].file, w.messages[name].publicName), name)
  }

  function OwnFile(w: World, n: Node): string
    requires Described(w, n)
  {
    match n
    case EnumNode(name) => w.enums[name].file
    case MessageNode(name) => w.messages[name].file
  }

  /** Opening a frame: the type is marked, its file noted, its name claimed. */
  function Enter(w: World, current: string, st: State, n: Node): Result<State, CollectError>
    requires Known(w) && Described(w, n)
  {
    match NoteFile(w, current, Mark(st, n), OwnFile(w, n))
    case Err(e) => Err(e)
    case Ok(noted) => TryClaim(noted, OwnName(w, n))
  }

  lemma EnterInv(w: World, current: string, roots: set<Node>, st: State, frames: set<Node>, n: Node)
    requires Known(w) && st in States(w, current, roots, frames) && !Seen(st, n) && Reached(w, roots, n)
    ensures n !in frames
    ensures match Enter(w, current, st, n)
            case Ok(after) =>
              && after in States(w, current, roots, frames + {n}) && Grows(st, after) && Seen(after, n)
              && Noted(w, current, after, OwnFile(w, n)) && Held(after, OwnName(w, n))
            case Err(_) => Fails(w, current, roots)
  {
    OpenFrameInv(w, current, roots, st, frames, n);
    NoteFileInv(w, current, roots, Mark(st, n), frames + {n}, n, OwnFile(w, n));
    match NoteFile(w, current, Mark(st, n), OwnFile(w, n))
    case Err(_) =>
    case Ok(noted) =>
      TryClaimInv(w, current, roots, noted, frames + {n}, n, OwnName(w, n));
      if TryClaim(noted, OwnName(w, n)).Ok? {
        GrowsTransitive(Mark(st, n), noted, TryClaim(noted, OwnName(w, n)).value);
        GrowsTransitive(st, Mark(st, n), TryClaim(noted, OwnName(w, n)).value);
      }
  }

  function EnumStep(w: World, current: string, st: State, name: string): Result<State, CollectError>
    requires Known(w) && name in w.enums
  {
    if name in st.seenEnums then Ok(st)
    else
      match Enter(w, current, st, EnumNode(name))
      case Err(e) => Err(e)
      case Ok(after) => Ok(AddType(after, TypeFor(w, current, EnumNode(name))))
  }

  lemma EnumComplete(w: World, current: string, st: State, name: string)
    requires Known(w) && name in w.enums
    requires Noted(w, current, st, w.enums[name].file) && Held(st, OwnName(w, EnumNode(name)))
    ensures Complete(w, current, st, EnumNode(name))
  {
  }

  lemma EnumStepInv(w: World, current: string, roots: set<Node>, st: State, frames: set<Node>, name: string)
    requires Known(w) && st in States(w, current, roots, frames) && Reached(w, roots, EnumNode(name))
    ensures match EnumStep(w, current, st, name)
            case Ok(after) => after in States(w, current, roots, frames) && Grows(st, after) && Seen(after, EnumNode(name))
            case Err(_) => Fails(w, current, roots)
  {
    var n := EnumNode(name);
    if name !in st.seenEnums {
      EnterInv(w, current, roots, st, frames, n);
      match Enter(w, current, st, n)
      case Err(_) =>
      case Ok(after) =>
        EnumComplete(w, current, after, name);
        CloseFrameInv(w, current, roots, after, frames, n);
        GrowsTransitive(st, after, AddType(after, TypeFor(w, current, n)));
    }
  }

  /** What a mention of an enum does: collect it, then note its file. */
  function MentionEnum(w: World, current: string, st: State, name: string): Result<State, CollectError>
    requires Known(w) && name in w.enums
  {
    match EnumStep(w, current, st, name)
    case Err(e) => Err(e)
    case Ok(after) => NoteFile(w, current, after, w.enums[name].file)
  }

  lemma MentionEnumInv(w: World, current: string, roots: set<Node>, st: State, frames: set<Node>, n: Node, name: string)
    requires Known(w) && st in States(w, current, roots, frames) && Seen(st, n) && Reached(w, roots, n)
    requires KindIn(w, n, EnumKind(name))
    ensures match MentionEnum(w, current, st, name)
            case Ok(after) =>
              && after in States(w, current, roots, frames) && Grows(st, after)
              && KindDone(w, current, after, EnumKind(name))
            case Err(_) => Fails(w, current, roots)
  {
    KindTargetReached(w, roots, n, EnumKind(name), EnumNode(name));
    EnumStepInv(w, current, roots, st, frames, name);
    match EnumStep(w, current, st, name)
    case Err(_) =>
    case Ok(after) =>
      NoteFileInv(w, current, roots, after, frames, n, w.enums[name].file);
      if NoteFile(w, current, after, w.enums[name].file).Ok? {
        GrowsTransitive(st, after, NoteFile(w, current, after, w.enums[name].file).value);
      }
  }

  /** A mention of a message is dealt with once its file is noted and, if it is collectable, it is seen. */
  lemma MessageMentioned(w: World, current: string, before: State, between: State, after: State, name: string)
    requires name in w.messages && !Classify(name).Unsupported?
    requires Grows(before, between) && Grows(between, after)
    requires Noted(w, current, between, w.messages[name].file)
    requires Collectable(w, name) ==> name in after.seenMessages
    ensures Grows(before, after) && KindDone(w, current, after, MessageKind(name))
  {
    GrowsTransitive(before, between, after);
  }

  function WrapperClaim(w: World, name: string, o: OneofDesc): Claim
    requires Known(w) && name in w.messages
  {
    Claim(NameSlot(w, w.messages[name].file, o.wrapper), name + "." + o.name)
  }

  function VariantClaim(w: World, name: string, o: OneofDesc, f: FieldDesc): Claim
    requires Known(w) && name in w.messages
  {
    Claim(NameSlot(w, w.messages[name].file, f.variantWrapper), name + "." + o.name + "." + f.name)
  }

  predicate WrappersHeld(w: World, st: State, name: string, k: nat)
    requires Known(w) && name in w.messages && k <= |w.messages[name].oneofs|
  {
    forall i | 0 <= i < k :: Held(st, WrapperClaim(w, name, w.messages[name].oneofs[i]))
  }

  lemma WrappersHeldStep(w: World, before: State, after: State, name: string, k: nat)
    requires Known(w) && name in w.messages && k < |w.messages[name].oneofs|
    requires WrappersHeld(w, before, name, k) && Grows(before, after)
    requires Held(after, WrapperClaim(w, name, w.messages[name].oneofs[k]))
    ensures WrappersHeld(w, after, name, k + 1)
  {
    forall i | 0 <= i < k
      ensures Held(after, WrapperClaim(w, name, w.messages[name].oneofs[i]))
    {
      assert Held(before, WrapperClaim(w, name, w.messages[name].oneofs[i]));
    }
  }

  predicate VariantDone(w: World, current: string, st: State, name: string, o: OneofDesc, f: FieldDesc)
    requires Known(w) && name in w.messages && KindKnown(w, f.kind)
  {
    KindDone(w, current, st, f.kind) && Held(st, VariantClaim(w, name, o, f))
  }

  predicate VariantsDone(w: World, current: string, st: State, name: string, o: OneofDesc, k: nat)
    requires Known(w) && name in w.messages && FieldsKnown(w, o.fields) && k <= |o.fields|
  {
    forall i | 0 <= i < k :: VariantDone(w, current, st, name, o, o.fields[i])
  }

  lemma VariantsDoneStep(w: World, current: string, before: State, after: State, name: string, o: OneofDesc, k: nat)
    requires Known(w) && name in w.messages && FieldsKnown(w, o.fields) && k < |o.fields|
    requires VariantsDone(w, current, before, name, o, k) && Grows(before, after)
    requires VariantDone(w, current, after, name, o, o.fields[k])
    ensures VariantsDone(w, current, after, name, o, k + 1)
  {
    forall i | 0 <= i < k
      ensures VariantDone(w, current, after, name, o, o.fields[i])
    {
      assert VariantDone(w, current, before, name, o, o.fields[i]);
      KindDoneGrows(w, current, before, after, o.fields[i].kind);
    }
  }

  lemma VariantsForStep(w: World, current: string, fields: seq<FieldDesc>, k: nat)
    requires FieldsKnown(w, fields) && k < |fields|
    ensures VariantsFor(w, current, fields[..k + 1]) == VariantsFor(w, current, fields[..k]) + [VariantFor(w, current, fields[k])]
  {
  }

  lemma AllVariantsDone(w: World, current: string, st: State, name: string, o: OneofDesc)
    requires Known(w) && name in w.messages && FieldsKnown(w, o.fields) && VariantsDone(w, current, st, name, o, |o.fields|)
    ensures OneofDone(w, current, st, name, w.messages[name].file, o)
  {
    forall f | f in o.fields
      ensures VariantDone(w, current, st, name, o, f)
    {
      var i :| 0 <= i < |o.fields| && o.fields[i] == f;
    }
  }

  ghost predicate OneofsDone(w: World, current: string, st: State, name: string, k: nat)
    requires Known(w) && name in w.messages && k <= |w.messages[name].oneofs|
  {
    var oneofs := w.messages[name].oneofs;
    forall i | 0 <= i < k :: FieldsKnown(w, oneofs[i].fields) && VariantsDone(w, current, st, name, oneofs[i], |oneofs[i].fields|)
  }

  lemma VariantsDoneGrows(w: World, current: string, before: State, after: State, name: string, o: OneofDesc, k: nat)
    requires Known(w) && name in w.messages && FieldsKnown(w, o.fields) && k <= |o.fields|
    requires VariantsDone(w, current, before, name, o, k) && Grows(before, after)
    ensures VariantsDone(w, current, after, name, o, k)
  {
    forall i | 0 <= i < k
      ensures VariantDone(w, current, after, name, o, o.fields[i])
    {
      assert VariantDone(w, current, before, name, o, o.fields[i]);
      KindDoneGrows(w, current, before, after, o.fields[i].kind);
    }
  }

  lemma OneofsDoneStep(w: World, current: string, before: State, after: State, name: string, k: nat)
    requires Known(w) && name in w.messages && k < |w.messages[name].oneofs|
    requires OneofsDone(w, current, before, name, k) && Grows(before, after)
    requires FieldsKnown(w, w.messages[name].oneofs[k].fields)
    requires VariantsDone(w, current, after, name, w.messages[name].oneofs[k], |w.messages[name].oneofs[k].fields|)
    ensures OneofsDone(w, current, after, name, k + 1)
  {
    var oneofs := w.messages[name].oneofs;
    forall i | 0 <= i < k
      ensures FieldsKnown(w, oneofs[i].fields) && VariantsDone(w, current, after, name, oneofs[i], |oneofs[i].fields|)
    {
      VariantsDoneGrows(w, current, before, after, name, oneofs[i], |oneofs[i].fields|);
    }
  }

  lemma OneofsForStep(w: World, current: string, oneofs: seq<OneofDesc>, k: nat)
    requires forall o | o in oneofs :: FieldsKnown(w, o.fields)
    requires k < |oneofs|
    ensures OneofsFor(w, current, oneofs[..k + 1]) == OneofsFor(w, current, oneofs[..k]) + [OneofFor(w, current, oneofs[k])]
  {
  }

  predicate FieldsDone(w: World, current: string, st: State, name: string, k: nat)
    requires Known(w) && name in w.messages && k <= |w.messages[name].fields|
  {
    forall i | 0 <= i < k :: FieldDone(w, current, st, w.messages[name].fields[i])
  }

  lemma FieldsDoneStep(w: World, current: string, before: State, after: State, name: string, k: nat)
    requires Known(w) && name in w.messages && k < |w.messages[name].fields|
    requires FieldsDone(w, current, before, name, k) && Grows(before, after)
    requires FieldDone(w, current, after, w.messages[name].fields[k])
    ensures FieldsDone(w, current, after, name, k + 1)
  {
    var fields := w.messages[name].fields;
    forall i | 0 <= i < k
      ensures FieldDone(w, current, after, fields[i])
    {
      assert fields[i] in fields;
      FieldDoneGrows(w, current, before, after, fields[i]);
    }
  }

  lemma FieldsForStep(w: World, current: string, fields: seq<FieldDesc>, k: nat)
    requires Known(w) && FieldsKnown(w, fields) && k < |fields|
    ensures FieldsFor(w, current, fields[..k + 1]) == FieldsFor(w, current, fields[..k]) + [FieldFor(w, current, fields[k])]
  {
  }

  lemma FieldsDoneGrows(w: World, current: string, before: State, after: State, name: string, k: nat)
    requires Known(w) && name in w.messages && k <= |w.messages[name].fields|
    requires FieldsDone(w, current, before, name, k) && Grows(before, after)
    ensures FieldsDone(w, current, after, name, k)
  {
    var fields := w.messages[name].fields;
    forall i | 0 <= i < k
      ensures FieldDone(w, current, after, fields[i])
    {
      assert fields[i] in fields;
      FieldDoneGrows(w, current, before, after, fields[i]);
    }
  }

  predicate Entered(w: World, current: string, st: State, name: string)
    requires Known(w) && name in w.messages
  {
    Noted(w, current, st, w.messages[name].file) && Held(st, OwnName(w, MessageNode(name)))
  }

  /** One stage of a message after another: what each achieved still holds at the end. */
  lemma StagesComplete(w: World, current: string, name: string, entered: State, claimed: State, last: State)
    requires Known(w) && name in w.messages && Entered(w, current, entered, name)
    requires Grows(entered, claimed) && Grows(claimed, last)
    requires WrappersHeld(w, claimed, name, |w.messages[name].oneofs|)
    requires FieldsDone(w, current, last, name, |w.messages[name].fields|)
    requires OneofsDone(w, current, last, name, |w.messages[name].oneofs|)
    ensures Grows(entered, last) && Complete(w, current, last, MessageNode(name))
  {
    var m := w.messages[name];
    GrowsTransitive(entered, claimed, last);
    forall f | f in m.fields
      ensures FieldDone(w, current, last, f)
    {
      var i :| 0 <= i < |m.fields| && m.fields[i] == f;
    }
    forall o | o in m.oneofs
      ensures Held(last, WrapperClaim(w, name, o)) && OneofDone(w, current, last, name, m.file, o)
    {
      var i :| 0 <= i < |m.oneofs| && m.oneofs[i] == o;
      assert Held(claimed, WrapperClaim(w, name, m.oneofs[i]));
      AllVariantsDone(w, current, last, name, o);
    }
    MessageComplete(w, current, last, name);
  }

  class Collector {
    const w: KnownWorld
    const current: string
    ghost const roots: set<Node>
    var types: seq<PyType>
    var imports: seq<string>
    var registry: map<Slot, string>
    var seenMessages: set<string>
    var seenEnums: set<string>

    function St(): State
      reads this
    {
      State(types, imports, registry, seenMessages, seenEnums)
    }

    ghost predicate Valid(frames: set<Node>)
      reads this
    {
      St() in States(w, current, roots, frames)
    }

    constructor (w: KnownWorld, current: string, ghost roots: set<Node>)
      ensures this.w == w && this.current == current && this.roots == roots
      ensures St() == State([], [], map[], {}, {}) && Valid({})
    {
      this.w := w;
      this.current := current;
      this.roots := roots;
      types := [];
      imports := [];
      registry := map[];
      seenMessages := {};
      seenEnums := {};
    }

    method CheckName(c: Claim) returns (result: Outcome<CollectError>)
      modifies this`registry
      ensures match TryClaim(old(St()), c)
              case Ok(after) => result.Pass? && St() == after
              case Err(e) => result == Fail(e) && St() == old(St())
    {
      if c.slot in registry && registry[c.slot] != c.key {
        return Fail(NameCollision(c.slot, registry[c.slot], c.key));
      }
      registry := registry[c.slot := c.key];
      return Pass;
    }

    method OwnerForProtoPath(file: string) returns (result: Result<Owner, CollectError>)
      requires file in w.files
      modifies this`registry, this`imports
      ensures match NoteFile(w, current, old(St()), file)
              case Ok(after) => result == Ok(OwnerOf(file, current)) && St() == after
              case Err(e) => result == Err(e)
    {
      var owner := OwnerOf(file, current);
      if owner.isCurrentFile {
        return Ok(owner);
      }
      var first := CheckName(PublicAlias(w, file));
      if first.Fail? {
        return Err(first.error);
      }
      var second := CheckName(ProtobufAlias(w, file));
      if second.Fail? {
        return Err(second.error);
      }
      for i := 0 to |imports|
        invariant file !in imports[..i]
      {
        if imports[i] == file {
          return Ok(owner);
        }
      }
      imports := imports + [file];
      return Ok(owner);
    }

    method CollectEnum(name: string) returns (result: Outcome<CollectError>)
      requires name in w.enums
      modifies this
      ensures match EnumStep(w, current, old(St()), name)
              case Ok(after) => result.Pass? && St() == after
              case Err(e) => result == Fail(e)
    {
      if name in seenEnums {
        return Pass;
      }
      seenEnums := seenEnums + {name};
      var owner := OwnerForProtoPath(w.enums[name].file);
      if owner.Err? {
        return Fail(owner.error);
      }
      var named := CheckName(Claim(NameSlot(w, w.enums[name].file, w.enums[name].publicName), name));
      if named.Fail? {
        return named;
      }
      types := types + [PyEnum(name, w.enums[name].publicName, owner.value, w.enums[name].values)];
      return Pass;
    }

    method MentionEnumByName(name: string) returns (result: Result<TypeRef, CollectError>)
      requires name in w.enums
      modifies this
      ensures match MentionEnum(w, current, old(St()), name)
              case Ok(after) => result == Ok(RefFor(w, current, EnumKind(name))) && St() == after
              case Err(e) => result == Err(e)
    {
      var collected := CollectEnum(name);
      if collected.Fail? {
        return Err(collected.error);
      }
      var owner := OwnerForProtoPath(w.enums[name].file);
      if owner.Err? {
        return Err(owner.error);
      }
      return Ok(EnumRef(name, w.enums[name].publicName, owner.value));
    }

    method MentionMessage(name: string, ghost n: Node, ghost frames: set<Node>) returns (result: Result<TypeRef, CollectError>)
      requires Valid(frames) && Seen(St(), n) && Reached(w, roots, n) && KindIn(w, n, MessageKind(name))
      modifies this
      ensures result.Err? ==> Fails(w, current, roots)
      ensures result.Ok? ==> Valid(frames) && Grows(old(St()), St()) && KindDone(w, current, St(), MessageKind(name))
      ensures result.Ok? ==> result.value == RefFor(w, current, MessageKind(name))
      decreases w.messages.Keys - seenMessages, 2
    {
      if Classify(name).Unsupported? {
        return Err(UnsupportedWellKnownType(name));
      }
      ghost var before := St();
      NoteFileInv(w, current, roots, before, frames, n, w.messages[name].file);
      var owner := OwnerForProtoPath(w.messages[name].file);
      if owner.Err? {
        return Err(owner.error);
      }
      ghost var between := St();
      if Classify(name).Supported? {
        MessageMentioned(w, current, before, between, between, name);
        return Ok(WellKnownRef(name, owner.value));
      }
      if Collectable(w, name) {
        KindTargetReached(w, roots, n, MessageKind(name), MessageNode(name));
      }
      var collected := CollectMessage(name, frames);
      if collected.Fail? {
        return Err(collected.error);
      }
      MessageMentioned(w, current, before, between, St(), name);
      return Ok(MessageRef(name, w.messages[name].publicName, owner.value));
    }

    /** typeRefForField, for a kind that occurs in the message `n`, whose frame is open. */
    method TypeRefForField(k: Kind, ghost n: Node, ghost frames: set<Node>) returns (result: Result<TypeRef, CollectError>)
      requires Valid(frames) && Seen(St(), n) && Reached(w, roots, n) && KindIn(w, n, k)
      modifies this
      ensures result.Err? ==> Fails(w, current, roots)
      ensures result.Ok? ==> Valid(frames) && Grows(old(St()), St()) && KindDone(w, current, St(), k)
      ensures result.Ok? ==> result.value == RefFor(w, current, k)
      decreases w.messages.Keys - seenMessages, 3
    {
      match k
      case ScalarKind(s) => return Ok(ScalarRef(s));
      case GroupKind => return Ok(ScalarRef(Unknown));
      case EnumKind(name) =>
        MentionEnumInv(w, current, roots, St(), frames, n, name);
        result := MentionEnumByName(name);
      case MessageKind(name) =>
        result := MentionMessage(name, n, frames);
    }

    method CollectField(name: string, f: FieldDesc, ghost frames: set<Node>) returns (result: Result<PyField, CollectError>)
      requires Valid(frames) && name in seenMessages && Reached(w, roots, MessageNode(name)) && f in w.messages[name].fields
      modifies this
      ensures result.Err? ==> Fails(w, current, roots)
      ensures result.Ok? ==> Valid(frames) && Grows(old(St()), St()) && FieldDone(w, current, St(), f)
      ensures result.Ok? ==> result.value == FieldFor(w, current, f)
      decreases w.messages.Keys - seenMessages, 4
    {
      ghost var before := St();
      FieldKindIn(w, name, f);
      var ref := TypeRefForField(f.kind, MessageNode(name), frames);
      if ref.Err? {
        return Err(ref.error);
      }
      var mapKey, mapValue := Unknown, None;
      var entry := MapEntry(w, f);
      if entry.Some? {
        ghost var between := St();
        mapKey := ScalarFor(entry.value.0.kind);
        var valueRef := TypeRefForField(entry.value.1.kind, MessageNode(name), frames);
        if valueRef.Err? {
          return Err(valueRef.error);
        }
        mapValue := Some(valueRef.value);
        KindDoneGrows(w, current, between, St(), f.kind);
        GrowsTransitive(before, between, St());
      }
      return Ok(PyField(
        f.name, f.jsonName, f.number, ref.value, f.isList && !f.isMap, f.isMap, mapKey, mapValue, f.hasPresence,
        !f.isList && !f.isMap && f.oneof.None? && !f.optionalKeyword,
        f.oneof, if f.oneof.Some? then f.variantWrapper else ""));
    }

    method CollectFields(name: string, ghost frames: set<Node>) returns (result: Result<seq<PyField>, CollectError>)
      requires Valid(frames) && name in seenMessages && Reached(w, roots, MessageNode(name))
      modifies this
      ensures result.Err? ==> Fails(w, current, roots)
      ensures result.Ok? ==> Valid(frames) && Grows(old(St()), St())
      ensures result.Ok? ==> FieldsDone(w, current, St(), name, |w.messages[name].fields|)
      ensures result.Ok? ==> result.value == FieldsFor(w, current, w.messages[name].fields)
      decreases w.messages.Keys - seenMessages, 5
    {
      var fields, found := w.messages[name].fields, [];
      ghost var before := St();
      for i := 0 to |fields|
        invariant Valid(frames) && Grows(before, St())
        invariant found == FieldsFor(w, current, fields[..i]) && FieldsDone(w, current, St(), name, i)
      {
        ghost var between := St();
        var field := CollectField(name, fields[i], frames);
        if field.Err? {
          return Err(field.error);
        }
        found := found + [field.value];
        FieldsForStep(w, current, fields, i);
        GrowsTransitive(before, between, St());
        FieldsDoneStep(w, current, between, St(), name, i);
      }
      assert fields[..|fields|] == fields;
      return Ok(found);
    }

    method ClaimWrappers(name: string, ghost frames: set<Node>) returns (result: Outcome<CollectError>)
      requires Valid(frames) && name in w.messages && name in seenMessages
      modifies this`registry
      ensures result.Fail? ==> Fails(w, current, roots)
      ensures result.Pass? ==> Valid(frames) && Grows(old(St()), St())
      ensures result.Pass? ==> WrappersHeld(w, St(), name, |w.messages[name].oneofs|)
    {
      var oneofs := w.messages[name].oneofs;
      ghost var before := St();
      for i := 0 to |oneofs|
        invariant Valid(frames) && Grows(before, St())
        invariant WrappersHeld(w, St(), name, i)
      {
        var claim := WrapperClaim(w, name, oneofs[i]);
        ghost var between := St();
        TryClaimInv(w, current, roots, between, frames, MessageNode(name), claim);
        var named := CheckName(claim);
        if named.Fail? {
          return named;
        }
        GrowsTransitive(before, between, St());
        WrappersHeldStep(w, between, St(), name, i);
      }
      return Pass;
    }

    method CollectVariant(name: string, o: OneofDesc, f: FieldDesc, ghost frames: set<Node>)
      returns (result: Result<PyVariant, CollectError>)
      requires Valid(frames) && name in seenMessages && Reached(w, roots, MessageNode(name))
      requires o in w.messages[name].oneofs && f in o.fields
      modifies this
      ensures result.Err? ==> Fails(w, current, roots)
      ensures result.Ok? ==> Valid(frames) && Grows(old(St()), St())
      ensures result.Ok? ==> VariantDone(w, current, St(), name, o, f)
      ensures result.Ok? ==> result.value == VariantFor(w, current, f)
      decreases w.messages.Keys - seenMessages, 4
    {
      ghost var before := St();
      VariantKindIn(w, name, o, f);
      var ref := TypeRefForField(f.kind, MessageNode(name), frames);
      if ref.Err? {
        return Err(ref.error);
      }
      ghost var between := St();
      var claim := VariantClaim(w, name, o, f);
      TryClaimInv(w, current, roots, between, frames, MessageNode(name), claim);
      var named := CheckName(claim);
      if named.Fail? {
        return Err(named.error);
      }
      GrowsTransitive(before, between, St());
      KindDoneGrows(w, current, between, St(), f.kind);
      return Ok(PyVariant(f.name, f.number, f.variantWrapper, ref.value, f.hasPresence));
    }

    method CollectVariants(name: string, o: OneofDesc, ghost frames: set<Node>) returns (result: Result<seq<PyVariant>, CollectError>)
      requires Valid(frames) && name in seenMessages && Reached(w, roots, MessageNode(name)) && o in w.messages[name].oneofs
      modifies this
      ensures result.Err? ==> Fails(w, current, roots)
      ensures result.Ok? ==> Valid(frames) && Grows(old(St()), St())
      ensures result.Ok? ==> FieldsKnown(w, o.fields) && VariantsDone(w, current, St(), name, o, |o.fields|)
      ensures result.Ok? ==> result.value == VariantsFor(w, current, o.fields)
      decreases w.messages.Keys - seenMessages, 5
    {
      var variants := [];
      ghost var before := St();
      for i := 0 to |o.fields|
        invariant Valid(frames) && Grows(before, St())
        invariant variants == VariantsFor(w, current, o.fields[..i])
        invariant VariantsDone(w, current, St(), name, o, i)
      {
        ghost var between := St();
        LeftToEnter(w, before, between);
        var variant := CollectVariant(name, o, o.fields[i], frames);
        if variant.Err? {
          return Err(variant.error);
        }
        variants := variants + [variant.value];
        VariantsForStep(w, current, o.fields, i);
        GrowsTransitive(before, between, St());
        VariantsDoneStep(w, current, between, St(), name, o, i);
      }
      assert o.fields[..|o.fields|] == o.fields;
      return Ok(variants);
    }

    method CollectOneof(name: string, o: OneofDesc, ghost frames: set<Node>) returns (result: Result<PyOneof, CollectError>)
      requires Valid(frames) && name in seenMessages && Reached(w, roots, MessageNode(name)) && o in w.messages[name].oneofs
      modifies this
      ensures result.Err? ==> Fails(w, current, roots)
      ensures result.Ok? ==> Valid(frames) && Grows(old(St()), St())
      ensures result.Ok? ==> FieldsKnown(w, o.fields) && VariantsDone(w, current, St(), name, o, |o.fields|)
      ensures result.Ok? ==> result.value == OneofFor(w, current, o)
      decreases w.messages.Keys - seenMessages, 6
    {
      var variants := CollectVariants(name, o, frames);
      if variants.Err? {
        return Err(variants.error);
      }
      return Ok(PyOneof(o.name, o.wrapper, variants.value));
    }

    method CollectOneofs(name: string, ghost frames: set<Node>) returns (result: Result<seq<PyOneof>, CollectError>)
      requires Valid(frames) && name in seenMessages && Reached(w, roots, MessageNode(name))
      modifies this
      ensures result.Err? ==> Fails(w, current, roots)
      ensures result.Ok? ==> Valid(frames) && Grows(old(St()), St())
      ensures result.Ok? ==> OneofsDone(w, current, St(), name, |w.messages[name].oneofs|)
      ensures result.Ok? ==> result.value == OneofsFor(w, current, w.messages[name].oneofs)
      decreases w.messages.Keys - seenMessages, 7
    {
      var oneofs, found := w.messages[name].oneofs, [];
      ghost var before := St();
      for i := 0 to |oneofs|
        invariant Valid(frames) && Grows(before, St())
        invariant found == OneofsFor(w, current, oneofs[..i]) && OneofsDone(w, current, St(), name, i)
      {
        ghost var between := St();
        var oneof := CollectOneof(name, oneofs[i], frames);
        if oneof.Err? {
          return Err(oneof.error);
        }
        found := found + [oneof.value];
        OneofsForStep(w, current, oneofs, i);
        GrowsTransitive(before, between, St());
        OneofsDoneStep(w, current, between, St(), name, i);
      }
      assert oneofs[..|oneofs|] == oneofs;
      return Ok(found);
    }

    method EnterMessage(name: string) returns (result: Result<Owner, CollectError>)
      requires name in w.messages
      modifies this
      ensures match Enter(w, current, old(St()), MessageNode(name))
              case Ok(after) => result == Ok(OwnerOf(w.messages[name].file, current)) && St() == after
              case Err(e) => result == Err(e)
    {
      seenMessages := seenMessages + {name};
      var owner := OwnerForProtoPath(w.messages[name].file);
      if owner.Err? {
        return owner;
      }
      var named := CheckName(Claim(NameSlot(w, w.messages[name].file, w.messages[name].publicName), name));
      if named.Fail? {
        return Err(named.error);
      }
      return owner;
    }

    /**
     Collects a message and all that it leads to. A map entry or a well-known type is
     skipped; a message that was met before, finished or not, is not entered again.
     */
    method CollectMessage(name: string, ghost frames: set<Node>) returns (result: Outcome<CollectError>)
      requires Valid(frames) && name in w.messages && (Collectable(w, name) ==> Reached(w, roots, MessageNode(name)))
      modifies this
      ensures result.Fail? ==> Fails(w, current, roots) || (Classify(name).Unsupported? && !w.messages[name].isMapEntry)
      ensures result.Pass? ==> Valid(frames) && Grows(old(St()), St()) && (Collectable(w, name) ==> name in seenMessages)
      ensures result.Pass? && Classify(name).Unsupported? ==> w.messages[name].isMapEntry
      decreases w.messages.Keys - seenMessages, 1
    {
      if w.messages[name].isMapEntry {
        return Pass;
      }
      match Classify(name) {
        case Unsupported => return Fail(UnsupportedWellKnownType(name));
        case Supported => return Pass;
        case Ordinary =>
      }
      if name in seenMessages {
        return Pass;
      }
      result := CollectNewMessage(name, frames);
    }

    method CollectMembers(name: string, ghost frames: set<Node>)
      returns (result: Result<(seq<PyField>, seq<PyOneof>), CollectError>)
      requires Valid(frames) && name in seenMessages && Reached(w, roots, MessageNode(name))
      modifies this
      ensures result.Err? ==> Fails(w, current, roots)
      ensures result.Ok? ==> Valid(frames) && Grows(old(St()), St())
      ensures result.Ok? ==> FieldsDone(w, current, St(), name, |w.messages[name].fields|)
      ensures result.Ok? ==> OneofsDone(w, current, St(), name, |w.messages[name].oneofs|)
      ensures result.Ok? ==> result.value.0 == FieldsFor(w, current, w.messages[name].fields)
      ensures result.Ok? ==> result.value.1 == OneofsFor(w, current, w.messages[name].oneofs)
      decreases w.messages.Keys - seenMessages, 8
    {
      ghost var before := St();
      var fields := CollectFields(name, frames);
      if fields.Err? {
        return Err(fields.error);
      }
      ghost var fielded := St();
      LeftToEnter(w, before, fielded);
      var oneofs := CollectOneofs(name, frames);
      if oneofs.Err? {
        return Err(oneofs.error);
      }
      GrowsTransitive(before, fielded, St());
      FieldsDoneGrows(w, current, fielded, St(), name, |w.messages[name].fields|);
      return Ok((fields.value, oneofs.value));
    }

    /** The middle of collectMessage: oneof wrappers, fields, oneofs. */
    method CollectParts(name: string, ghost frames: set<Node>)
      returns (result: Result<(seq<PyField>, seq<PyOneof>), CollectError>)
      requires Valid(frames) && name in seenMessages && Reached(w, roots, MessageNode(name))
      requires Entered(w, current, St(), name)
      modifies this
      ensures result.Err? ==> Fails(w, current, roots)
      ensures result.Ok? ==> Valid(frames) && Grows(old(St()), St()) && Complete(w, current, St(), MessageNode(name))
      ensures result.Ok? ==> result.value.0 == FieldsFor(w, current, w.messages[name].fields)
      ensures result.Ok? ==> result.value.1 == OneofsFor(w, current, w.messages[name].oneofs)
      decreases w.messages.Keys - seenMessages, 9
    {
      ghost var entered := St();
      var wrapped := ClaimWrappers(name, frames);
      if wrapped.Fail? {
        return Err(wrapped.error);
      }
      ghost var claimed := St();
      result := CollectMembers(name, frames);
      if result.Ok? {
        StagesComplete(w, current, name, entered, claimed, St());
      }
    }

    /** The end of collectMessage: the finished model joins the graph and its frame is closed. */
    method AppendMessage(name: string, owner: Owner, fields: seq<PyField>, oneofs: seq<PyOneof>, ghost frames: set<Node>)
      requires Valid(frames + {MessageNode(name)}) && MessageNode(name) !in frames && name in w.messages
      requires Complete(w, current, St(), MessageNode(name)) && owner == OwnerOf(w.messages[name].file, current)
      requires fields == FieldsFor(w, current, w.messages[name].fields)
      requires oneofs == OneofsFor(w, current, w.messages[name].oneofs)
      modifies this`types
      ensures Valid(frames) && Grows(old(St()), St())
    {
      CloseFrameInv(w, current, roots, St(), frames, MessageNode(name));
      var model := PyMessage(name, w.messages[name].publicName, owner, fields, oneofs);
      assert model == TypeFor(w, current, MessageNode(name));
      types := types + [model];
    }

    method CollectNewMessage(name: string, ghost frames: set<Node>) returns (result: Outcome<CollectError>)
      requires Valid(frames) && Reached(w, roots, MessageNode(name)) && name !in seenMessages
      modifies this
      ensures result.Fail? ==> Fails(w, current, roots)
      ensures result.Pass? ==> Valid(frames) && Grows(old(St()), St()) && name in seenMessages
      decreases w.messages.Keys - seenMessages, 0
    {
      ghost var n, before := MessageNode(name), St();
      EnterInv(w, current, roots, before, frames, n);
      var owner := EnterMessage(name);
      if owner.Err? {
        return Fail(owner.error);
      }
      ghost var entered := St();
      var parts := CollectParts(name, frames + {n});
      if parts.Err? {
        return Fail(parts.error);
      }
      ghost var last := St();
      GrowsTransitive(before, entered, last);
      AppendMessage(name, owner.value, parts.value.0, parts.value.1, frames);
      GrowsTransitive(before, last, St());
      return Pass;
    }
  }
}
