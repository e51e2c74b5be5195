/** Why a collection fails, spelled out on the descriptors: names, aliases, and types that the generator does not know. */
module NameConflicts {
  import opened Wrappers
  import opened WellKnownTypes
  import opened PythonTypes
  import opened PythonCollector
  import opened PythonGraphs
  import opened PythonDescriptors

  /** The type defines, in the module of its file, a class of this name for this symbol: itself, a oneof, or a member of one. */
  predicate Names(w: World, n: Node, m: string, name: string, symbol: string) {
    match n
    case EnumNode(e) =>
      e in w.enums && w.enums[e].file in w.files && w.files[w.enums[e].file].publicModule == m
      && name == w.enums[e].publicName && symbol == e
    case MessageNode(t) =>
      && t in w.messages && w.messages[t].file in w.files && w.files[w.messages[t].file].publicModule == m
      && (|| (name == w.messages[t].publicName && symbol == t)
          || (exists o | o in w.messages[t].oneofs :: name == o.wrapper && symbol == t + "." + o.name)
          || (exists o, f | o in w.messages[t].oneofs && f in o.fields ::
                name == f.variantWrapper && symbol == t + "." + o.name + "." + f.name))
  }

  /** Two of the types give one class name to different symbols. */
  ghost predicate ClassesCollide(w: World, roots: set<Node>)
    requires Known(w)
  {
    exists a, b, m, name, s, u ::
      Reached(w, roots, a) && Reached(w, roots, b) && Names(w, a, m, name, s) && Names(w, b, m, name, u) && s != u
  }

  /** Two other files that the types mention, or one, have one alias for different modules. */
  ghost predicate AliasesCollide(w: World, current: string, roots: set<Node>)
    requires Known(w)
  {
    exists p, q ::
      && Imported(w, roots, p) && Imported(w, roots, q) && p != current && q != current && p in w.files && q in w.files
      && (|| (p != q && w.files[p].publicAlias == w.files[q].publicAlias)
          || (p != q && w.files[p].protobufAlias == w.files[q].protobufAlias)
          || w.files[p].publicAlias == w.files[q].protobufAlias)
  }

  predicate IsUnknown(k: Kind) {
    k.MessageKind? && IsGoogleName(k.messageName) && WellKnownOf(k.messageName).None?
  }

  /** A field, a member of a oneof, or the values of a map, are of a type of Google's that the generator does not know. */
  predicate HoldsUnknown(w: World, n: Node) {
    n.MessageNode? && n.name in w.messages &&
    var m := w.messages[n.name];
    || (exists f | f in m.fields :: IsUnknown(f.kind))
    || (exists o, f | o in m.oneofs && f in o.fields :: IsUnknown(f.kind))
    || (exists f | f in m.fields ::
          && f.isMap && f.kind.MessageKind? && f.kind.messageName in w.messages
          && |w.messages[f.kind.messageName].fields| == 2 && IsUnknown(w.messages[f.kind.messageName].fields[1].kind))
  }

  // These are the reasons.

  lemma NamesAreClaims(w: World, n: Node, c: Claim)
    requires Known(w) && Described(w, n)
    ensures c in NameClaims(w, n) <==> c.slot.PublicName? && Names(w, n, c.slot.publicModule, c.slot.name, c.key)
  {
    if n.MessageNode? {
      MessageNamesAreClaims(w, n.name, c);
    }
  }

  lemma MessageNamesAreClaims(w: World, name: string, c: Claim)
    requires Known(w) && name in w.messages
    ensures c in NameClaims(w, MessageNode(name)) <==>
              c.slot.PublicName? && Names(w, MessageNode(name), c.slot.publicModule, c.slot.name, c.key)
  {
    var m := w.messages[name];
    assert MessageKnown(w, m);
    assert c in NameClaims(w, MessageNode(name)) <==>
             || c == Claim(NameSlot(w, m.file, m.publicName), name)
             || (exists o | o in m.oneofs :: c == Claim(NameSlot(w, m.file, o.wrapper), name + "." + o.name))
             || (exists o, f | o in m.oneofs && f in o.fields ::
                   c == Claim(NameSlot(w, m.file, f.variantWrapper), name + "." + o.name + "." + f.name));
  }

  lemma AliasClaimsApart(w: World, p: string, q: string)
    requires p in w.files && q in w.files
    ensures (exists c, d | c in AliasClaims(w, p) && d in AliasClaims(w, q) :: c.slot == d.slot && c.key != d.key) <==>
              || (p != q && w.files[p].publicAlias == w.files[q].publicAlias)
              || (p != q && w.files[p].protobufAlias == w.files[q].protobufAlias)
              || w.files[p].publicAlias == w.files[q].protobufAlias
              || w.files[q].publicAlias == w.files[p].protobufAlias
  {
    KeysApart(p, q);
    KeysApart(q, p);
    var a := Claim(ImportAlias(w.files[p].publicAlias), p + ":public");
    var b := Claim(ImportAlias(w.files[p].protobufAlias), p + ":protobuf");
    var c := Claim(ImportAlias(w.files[q].publicAlias), q + ":public");
    var d := Claim(ImportAlias(w.files[q].protobufAlias), q + ":protobuf");
    assert a in AliasClaims(w, p) && b in AliasClaims(w, p) && c in AliasClaims(w, q) && d in AliasClaims(w, q);
  }

  lemma NamesCollide(w: World, roots: set<Node>, a: Node, b: Node, c: Claim, d: Claim)
    requires Known(w) && Reached(w, roots, a) && Reached(w, roots, b) && c in NameClaims(w, a) && d in NameClaims(w, b)
    requires c.slot == d.slot && c.key != d.key
    ensures ClassesCollide(w, roots)
  {
    NamesAreClaims(w, a, c);
    NamesAreClaims(w, b, d);
  }

  lemma FilesCollide(w: World, current: string, roots: set<Node>, p: string, q: string, c: Claim, d: Claim)
    requires Known(w) && Imported(w, roots, p) && Imported(w, roots, q) && p in w.files && q in w.files && p != current && q != current
    requires c in AliasClaims(w, p) && d in AliasClaims(w, q) && c.slot == d.slot && c.key != d.key
    ensures AliasesCollide(w, current, roots)
  {
    AliasClaimsApart(w, p, q);
  }

  lemma ConflictIsNamed(w: World, current: string, roots: set<Node>, a: Node, b: Node)
    requires Known(w) && Reached(w, roots, a) && Reached(w, roots, b) && Disagree(w, current, a, b)
    ensures ClassesCollide(w, roots) || AliasesCollide(w, current, roots)
  {
    var c, d :| ClaimedBy(w, current, a, c) && ClaimedBy(w, current, b, d) && c.slot == d.slot && c.key != d.key;
    NamesAreClaims(w, a, c);
    NamesAreClaims(w, b, d);
    if c.slot.PublicName? {
      NamesCollide(w, roots, a, b, c, d);
    } else {
      var p :| p in FilesOf(w, a) && p in w.files && p != current && c in AliasClaims(w, p);
      var q :| q in FilesOf(w, b) && q in w.files && q != current && d in AliasClaims(w, q);
      assert Imported(w, roots, p) && Imported(w, roots, q);
      FilesCollide(w, current, roots, p, q, c, d);
    }
  }

  lemma NamesConflict(w: World, current: string, roots: set<Node>)
    requires Known(w) && ClassesCollide(w, roots)
    ensures Conflict(w, current, roots)
  {
    var a, b, m, name, s, u :|
      Reached(w, roots, a) && Reached(w, roots, b) && Names(w, a, m, name, s) && Names(w, b, m, name, u) && s != u;
    var c, d := Claim(PublicName(m, name), s), Claim(PublicName(m, name), u);
    NamesAreClaims(w, a, c);
    NamesAreClaims(w, b, d);
    assert ClaimedBy(w, current, a, c) && ClaimedBy(w, current, b, d);
    assert Disagree(w, current, a, b);
  }

  lemma AliasesConflict(w: World, current: string, roots: set<Node>)
    requires Known(w) && AliasesCollide(w, current, roots)
    ensures Conflict(w, current, roots)
  {
    var p, q :|
      && Imported(w, roots, p) && Imported(w, roots, q) && p != current && q != current && p in w.files && q in w.files
      && (|| (p != q && w.files[p].publicAlias == w.files[q].publicAlias)
          || (p != q && w.files[p].protobufAlias == w.files[q].protobufAlias)
          || w.files[p].publicAlias == w.files[q].protobufAlias);
    AliasClaimsApart(w, p, q);
    var c, d :| c in AliasClaims(w, p) && d in AliasClaims(w, q) && c.slot == d.slot && c.key != d.key;
    var a :| Reached(w, roots, a) && p in FilesOf(w, a);
    var b :| Reached(w, roots, b) && q in FilesOf(w, b);
    assert ClaimedBy(w, current, a, c) && ClaimedBy(w, current, b, d);
    assert Disagree(w, current, a, b);
  }

  lemma UnknownIsRejected(w: World, n: Node)
    requires Known(w) && Described(w, n)
    ensures Rejected(w, n) <==> HoldsUnknown(w, n)
  {
    if n.MessageNode? {
      var m := w.messages[n.name];
      forall f | f in m.fields
        ensures MapEntry(w, f).Some? <==>
                  f.isMap && f.kind.MessageKind? && f.kind.messageName in w.messages && |w.messages[f.kind.messageName].fields| == 2
        ensures MapEntry(w, f).Some? ==> MapEntry(w, f).value.1 == w.messages[f.kind.messageName].fields[1]
      {
      }
    }
  }

  /**
   Collecting from these roots fails exactly when, among the types that they reach, one class name stands
   for two symbols, one alias for two modules, or some type holds one that the generator does not know.
   */
  lemma FailsIff(w: World, current: string, roots: set<Node>)
    requires Known(w)
    ensures Fails(w, current, roots) <==>
              || ClassesCollide(w, roots) || AliasesCollide(w, current, roots)
              || exists n :: Reached(w, roots, n) && HoldsUnknown(w, n)
  {
    if Conflict(w, current, roots) {
      var a, b :| Reached(w, roots, a) && Reached(w, roots, b) && Disagree(w, current, a, b);
      ConflictIsNamed(w, current, roots, a, b);
    }
    if ClassesCollide(w, roots) {
      NamesConflict(w, current, roots);
    }
    if AliasesCollide(w, current, roots) {
      AliasesConflict(w, current, roots);
    }
    forall n | Reached(w, roots, n) {
      UnknownIsRejected(w, n);
    }
  }
}
