/**
 What a collected type keeps of its descriptor, and what a collected graph keeps of the
 references between types: everything can be read back, and everything mentioned is there.
 */
module PythonDescriptors {
  import opened Wrappers
  import opened Reachability
  import opened WellKnownTypes
  import opened PythonTypes
  import opened PythonCollector
  import opened PythonGraphs

  // Reading a type back.

  /** The kind that a reference was made from. */
  function KindOf(ref: TypeRef): Kind {
    match ref
    case ScalarRef(Unknown) => GroupKind
    case ScalarRef(s) => ScalarKind(s)
    case EnumRef(n, _, _) => EnumKind(n)
    case WellKnownRef(n, _) => MessageKind(n)
    case MessageRef(n, _, _) => MessageKind(n)
  }

  /** The reference names the file that declares the type, and knows whether it is the one being generated. */
  predicate OwnedBy(ref: TypeRef, file: string, publicName: string, current: string) {
    match ref
    case ScalarRef(_) => false
    case EnumRef(_, name, owner) => name == publicName && owner.protoPath == file && (owner.isCurrentFile <==> file == current)
    case WellKnownRef(_, owner) => owner.protoPath == file && (owner.isCurrentFile <==> file == current)
    case MessageRef(_, name, owner) => name == publicName && owner.protoPath == file && (owner.isCurrentFile <==> file == current)
  }

  /** `ref` stands for `k` in the module of `current`. */
  predicate StandsFor(w: World, current: string, ref: TypeRef, k: Kind) {
    && KindKnown(w, k)
    && (KindOf(ref) == k || k == ScalarKind(Unknown))
    && (k.EnumKind? ==> OwnedBy(ref, w.enums[k.enumName].file, w.enums[k.enumName].publicName, current))
    && (k.MessageKind? ==>
          && OwnedBy(ref, w.messages[k.messageName].file, w.messages[k.messageName].publicName, current)
          && (ref.MessageRef? <==> !IsGoogleName(k.messageName)))
  }

  predicate Mirrors(w: World, current: string, d: FieldDesc, f: PyField) {
    && f.name == d.name && f.jsonName == d.jsonName && f.number == d.number && f.oneof == d.oneof
    && StandsFor(w, current, f.typ, d.kind)
    && (f.isMap <==> d.isMap) && (f.isRepeated <==> d.isList && !d.isMap) && (f.hasPresence <==> d.hasPresence)
    && (d.oneof.Some? ==> f.variantWrapper == d.variantWrapper)
    && (f.isSchemaRequired <==> !d.isList && !d.isMap && d.oneof.None? && !d.optionalKeyword)
  }

  /** A map with an entry of two fields has their kinds as key and value. */
  predicate MirrorsEntry(w: World, current: string, d: FieldDesc, f: PyField) {
    d.isMap && d.kind.MessageKind? && d.kind.messageName in w.messages && |w.messages[d.kind.messageName].fields| == 2 ==>
      var entry := w.messages[d.kind.messageName].fields;
      && (entry[0].kind.ScalarKind? ==> f.mapKey == entry[0].kind.scalar)
      && f.mapValue.Some? && StandsFor(w, current, f.mapValue.value, entry[1].kind)
  }

  predicate MirrorsOneof(w: World, current: string, d: OneofDesc, o: PyOneof) {
    && o.name == d.name && o.wrapper == d.wrapper && |o.variants| == |d.fields|
    && forall i | 0 <= i < |d.fields| ::
         && o.variants[i].name == d.fields[i].name && o.variants[i].number == d.fields[i].number
         && o.variants[i].wrapper == d.fields[i].variantWrapper && (o.variants[i].hasPresence <==> d.fields[i].hasPresence)
         && StandsFor(w, current, o.variants[i].typ, d.fields[i].kind)
  }

  predicate MirrorsMessage(w: World, current: string, m: MessageDesc, t: PyType) {
    && t.PyMessage? && t.publicName == m.publicName && t.owner.protoPath == m.file && (t.owner.isCurrentFile <==> m.file == current)
    && |t.fields| == |m.fields| && |t.oneofs| == |m.oneofs|
    && (forall i | 0 <= i < |m.fields| :: Mirrors(w, current, m.fields[i], t.fields[i]))
    && (forall i | 0 <= i < |m.fields| :: MirrorsEntry(w, current, m.fields[i], t.fields[i]))
    && (forall i | 0 <= i < |m.oneofs| :: MirrorsOneof(w, current, m.oneofs[i], t.oneofs[i]))
  }

  predicate MirrorsEnum(current: string, e: EnumDesc, t: PyType) {
    && t.PyEnum? && t.publicName == e.publicName && t.owner.protoPath == e.file && (t.owner.isCurrentFile <==> e.file == current)
    && t.values == e.values
  }

  lemma RefStands(w: World, current: string, k: Kind)
    requires KindKnown(w, k) && !KindRejected(k)
    ensures StandsFor(w, current, RefFor(w, current, k), k)
  {
  }

  lemma FieldMirrors(w: World, current: string, d: FieldDesc)
    requires Known(w) && KindKnown(w, d.kind) && !KindRejected(d.kind)
    requires MapEntry(w, d).Some? ==> KindKnown(w, MapEntry(w, d).value.1.kind) && !KindRejected(MapEntry(w, d).value.1.kind)
    ensures Mirrors(w, current, d, FieldFor(w, current, d)) && MirrorsEntry(w, current, d, FieldFor(w, current, d))
  {
    RefStands(w, current, d.kind);
    if MapEntry(w, d).Some? {
      RefStands(w, current, MapEntry(w, d).value.1.kind);
    }
  }

  lemma EntryKnown(w: World, d: FieldDesc)
    requires Known(w) && KindKnown(w, d.kind) && MapEntry(w, d).Some?
    ensures KindKnown(w, MapEntry(w, d).value.1.kind)
  {
    var m := w.messages[d.kind.messageName];
    assert m.fields[1] in m.fields && MessageKnown(w, m);
  }

  lemma OneofMirrors(w: World, current: string, d: OneofDesc)
    requires FieldsKnown(w, d.fields) && forall f | f in d.fields :: !KindRejected(f.kind)
    ensures MirrorsOneof(w, current, d, OneofFor(w, current, d))
  {
    forall i | 0 <= i < |d.fields|
      ensures StandsFor(w, current, OneofFor(w, current, d).variants[i].typ, d.fields[i].kind)
    {
      assert d.fields[i] in d.fields;
      RefStands(w, current, d.fields[i].kind);
    }
  }

  lemma MessageMirrors(w: World, current: string, name: string)
    requires Known(w) && name in w.messages && !Rejected(w, MessageNode(name))
    ensures MirrorsMessage(w, current, w.messages[name], TypeFor(w, current, MessageNode(name)))
  {
    var m, t := w.messages[name], TypeFor(w, current, MessageNode(name));
    forall i | 0 <= i < |m.fields|
      ensures Mirrors(w, current, m.fields[i], t.fields[i]) && MirrorsEntry(w, current, m.fields[i], t.fields[i])
    {
      assert m.fields[i] in m.fields;
      if MapEntry(w, m.fields[i]).Some? {
        EntryKnown(w, m.fields[i]);
      }
      FieldMirrors(w, current, m.fields[i]);
    }
    forall i | 0 <= i < |m.oneofs|
      ensures MirrorsOneof(w, current, m.oneofs[i], t.oneofs[i])
    {
      assert m.oneofs[i] in m.oneofs;
      OneofMirrors(w, current, m.oneofs[i]);
    }
  }

  /** Every type of a collected graph mirrors the descriptor of its name, field by field and variant by variant. */
  lemma GraphMirrors(w: World, current: string, roots: set<Node>, g: PyGraph, t: PyType)
    requires Known(w) && Collected(w, current, roots, g) && !Fails(w, current, roots) && t in g.types
    ensures t.PyMessage? ==> t.fullName in w.messages && MirrorsMessage(w, current, w.messages[t.fullName], t)
    ensures t.PyEnum? ==> t.fullName in w.enums && MirrorsEnum(current, w.enums[t.fullName], t)
  {
    assert t.Node() in Nodes(g.types);
    if t.PyMessage? {
      MessageMirrors(w, current, t.fullName);
    }
  }

  // References.

  predicate MentionsInField(f: PyField, ref: TypeRef) {
    f.typ == ref || f.mapValue == Some(ref)
  }

  ghost predicate Mentions(t: PyType, ref: TypeRef) {
    t.PyMessage? &&
    ((exists f | f in t.fields :: MentionsInField(f, ref)) || exists o, v | o in t.oneofs && v in o.variants :: v.typ == ref)
  }

  /** The type that a reference leads to, if the generator makes one for it. */
  predicate LeadsTo(w: World, ref: TypeRef, n: Node) {
    match ref
    case EnumRef(name, _, _) => n == EnumNode(name)
    case MessageRef(name, _, _) => n == MessageNode(name) && name in w.messages && !w.messages[name].isMapEntry
    case _ => false
  }

  function FileOf(ref: TypeRef): Option<string> {
    if ref.ScalarRef? then None else Some(ref.owner.protoPath)
  }

  lemma KindLeads(w: World, current: string, k: Kind, n: Node)
    requires KindKnown(w, k)
    ensures n in KindTargets(w, k) <==> LeadsTo(w, RefFor(w, current, k), n)
    ensures forall p :: p in KindFiles(w, k) <==> FileOf(RefFor(w, current, k)) == Some(p)
  {
  }

  lemma FieldMentions(w: World, current: string, d: FieldDesc, n: Node)
    requires Known(w) && KindKnown(w, d.kind) && (MapEntry(w, d).Some? ==> KindKnown(w, MapEntry(w, d).value.1.kind))
    ensures n in FieldTargets(w, d) <==> exists ref :: MentionsInField(FieldFor(w, current, d), ref) && LeadsTo(w, ref, n)
    ensures forall p :: p in FieldFiles(w, d) <==> exists ref :: MentionsInField(FieldFor(w, current, d), ref) && FileOf(ref) == Some(p)
  {
    var f := FieldFor(w, current, d);
    KindLeads(w, current, d.kind, n);
    assert MentionsInField(f, RefFor(w, current, d.kind));
    if MapEntry(w, d).Some? {
      var k := MapEntry(w, d).value.1.kind;
      KindLeads(w, current, k, n);
      assert MentionsInField(f, RefFor(w, current, k));
    }
  }

  lemma FieldOf(w: World, current: string, name: string, f: PyField) returns (d: FieldDesc)
    requires Known(w) && name in w.messages && f in TypeFor(w, current, MessageNode(name)).fields
    ensures d in w.messages[name].fields && KindKnown(w, d.kind) && f == FieldFor(w, current, d)
  {
    var m := w.messages[name];
    var fs := FieldsFor(w, current, m.fields);
    var i :| 0 <= i < |fs| && fs[i] == f;
    d := m.fields[i];
  }

  lemma FieldIn(w: World, current: string, name: string, d: FieldDesc)
    requires Known(w) && name in w.messages && d in w.messages[name].fields
    ensures KindKnown(w, d.kind) && FieldFor(w, current, d) in TypeFor(w, current, MessageNode(name)).fields
    ensures MapEntry(w, d).Some? ==> KindKnown(w, MapEntry(w, d).value.1.kind)
  {
    var m := w.messages[name];
    assert MessageKnown(w, m);
    var i :| 0 <= i < |m.fields| && m.fields[i] == d;
    assert FieldsFor(w, current, m.fields)[i] == FieldFor(w, current, d);
    if MapEntry(w, d).Some? {
      EntryKnown(w, d);
    }
  }

  lemma VariantOf(w: World, current: string, name: string, o: PyOneof, v: PyVariant) returns (c: OneofDesc, d: FieldDesc)
    requires Known(w) && name in w.messages && o in TypeFor(w, current, MessageNode(name)).oneofs && v in o.variants
    ensures c in w.messages[name].oneofs && d in c.fields && KindKnown(w, d.kind) && v.typ == RefFor(w, current, d.kind)
  {
    var m := w.messages[name];
    var os := OneofsFor(w, current, m.oneofs);
    var i :| 0 <= i < |os| && os[i] == o;
    c := m.oneofs[i];
    var j :| 0 <= j < |o.variants| && o.variants[j] == v;
    d := c.fields[j];
  }

  lemma VariantIn(w: World, current: string, name: string, c: OneofDesc, d: FieldDesc)
    requires Known(w) && name in w.messages && c in w.messages[name].oneofs && d in c.fields
    ensures KindKnown(w, d.kind) && Mentions(TypeFor(w, current, MessageNode(name)), RefFor(w, current, d.kind))
  {
    var m, t := w.messages[name], TypeFor(w, current, MessageNode(name));
    assert MessageKnown(w, m) && FieldsKnown(w, c.fields);
    var i :| 0 <= i < |m.oneofs| && m.oneofs[i] == c;
    var j :| 0 <= j < |c.fields| && c.fields[j] == d;
    var o := t.oneofs[i];
    assert o in t.oneofs && o.variants[j] in o.variants && o.variants[j].typ == RefFor(w, current, d.kind);
  }

  lemma FieldMentionsTargets(w: World, current: string, name: string, f: PyField, ref: TypeRef, n: Node)
    requires Known(w) && name in w.messages && f in TypeFor(w, current, MessageNode(name)).fields && MentionsInField(f, ref)
    ensures LeadsTo(w, ref, n) ==> n in Successors(w, MessageNode(name))
    ensures FileOf(ref).Some? ==> FileOf(ref).value in FilesOf(w, MessageNode(name))
  {
    var d := FieldOf(w, current, name, f);
    FieldIn(w, current, name, d);
    FieldMentions(w, current, d, n);
  }

  lemma VariantMentionsTargets(w: World, current: string, name: string, o: PyOneof, v: PyVariant, n: Node)
    requires Known(w) && name in w.messages && o in TypeFor(w, current, MessageNode(name)).oneofs && v in o.variants
    ensures LeadsTo(w, v.typ, n) ==> n in Successors(w, MessageNode(name))
    ensures FileOf(v.typ).Some? ==> FileOf(v.typ).value in FilesOf(w, MessageNode(name))
  {
    var c, d := VariantOf(w, current, name, o, v);
    KindLeads(w, current, d.kind, n);
  }

  /** What a type mentions is what its descriptor leads to. */
  lemma MentionsTargets(w: World, current: string, name: string, ref: TypeRef, n: Node)
    requires Known(w) && name in w.messages && Mentions(TypeFor(w, current, MessageNode(name)), ref)
    ensures LeadsTo(w, ref, n) ==> n in Successors(w, MessageNode(name))
    ensures FileOf(ref).Some? ==> FileOf(ref).value in FilesOf(w, MessageNode(name))
  {
    var t := TypeFor(w, current, MessageNode(name));
    if f :| f in t.fields && MentionsInField(f, ref) {
      FieldMentionsTargets(w, current, name, f, ref, n);
    } else {
      var o, v :| o in t.oneofs && v in o.variants && v.typ == ref;
      VariantMentionsTargets(w, current, name, o, v, n);
    }
  }

  lemma TargetsMentioned(w: World, current: string, name: string, n: Node) returns (ref: TypeRef)
    requires Known(w) && name in w.messages && n in Successors(w, MessageNode(name))
    ensures Mentions(TypeFor(w, current, MessageNode(name)), ref) && LeadsTo(w, ref, n)
  {
    var m := w.messages[name];
    if d :| d in m.fields && n in FieldTargets(w, d) {
      FieldIn(w, current, name, d);
      FieldMentions(w, current, d, n);
      ref :| MentionsInField(FieldFor(w, current, d), ref) && LeadsTo(w, ref, n);
    } else {
      var c, d :| c in m.oneofs && d in c.fields && n in KindTargets(w, d.kind);
      VariantIn(w, current, name, c, d);
      KindLeads(w, current, d.kind, n);
      ref := RefFor(w, current, d.kind);
    }
  }

  lemma FilesMentioned(w: World, current: string, name: string, p: string) returns (ref: TypeRef)
    requires Known(w) && name in w.messages && p in FilesOf(w, MessageNode(name)) && p != w.messages[name].file
    ensures Mentions(TypeFor(w, current, MessageNode(name)), ref) && FileOf(ref) == Some(p)
  {
    var m := w.messages[name];
    if d :| d in m.fields && p in FieldFiles(w, d) {
      FieldIn(w, current, name, d);
      FieldMentions(w, current, d, MessageNode(name));
      ref :| MentionsInField(FieldFor(w, current, d), ref) && FileOf(ref) == Some(p);
    } else {
      var c, d :| c in m.oneofs && d in c.fields && p in KindFiles(w, d.kind);
      VariantIn(w, current, name, c, d);
      KindLeads(w, current, d.kind, MessageNode(name));
      ref := RefFor(w, current, d.kind);
    }
  }

  lemma MentionedImported(w: World, current: string, roots: set<Node>, name: string, ref: TypeRef)
    requires Known(w) && name in w.messages && Reached(w, roots, MessageNode(name))
    requires Mentions(TypeFor(w, current, MessageNode(name)), ref) && FileOf(ref).Some?
    ensures Imported(w, roots, FileOf(ref).value)
  {
    MentionsTargets(w, current, name, ref, MessageNode(name));
  }

  lemma MentionedReached(w: World, current: string, roots: set<Node>, name: string, ref: TypeRef, n: Node)
    requires Known(w) && name in w.messages && Reached(w, roots, MessageNode(name))
    requires Mentions(TypeFor(w, current, MessageNode(name)), ref) && LeadsTo(w, ref, n)
    ensures Reached(w, roots, n)
  {
    MentionsTargets(w, current, name, ref, n);
    TargetReached(w, roots, MessageNode(name), n);
  }

  /** Whatever a type of the graph mentions is in the graph, and the other files that it mentions are imported. */
  lemma MentionedIsThere(w: World, current: string, roots: set<Node>, g: PyGraph, t: PyType, ref: TypeRef)
    requires Known(w) && Collected(w, current, roots, g) && t in g.types && Mentions(t, ref)
    ensures forall n | LeadsTo(w, ref, n) :: n in Nodes(g.types)
    ensures FileOf(ref).Some? && FileOf(ref).value != current ==> FileOf(ref).value in g.imports
  {
    assert t.Node() in Nodes(g.types) && Reached(w, roots, MessageNode(t.fullName));
    forall n | LeadsTo(w, ref, n)
      ensures n in Nodes(g.types)
    {
      MentionedReached(w, current, roots, t.fullName, ref, n);
    }
    if FileOf(ref).Some? {
      MentionedImported(w, current, roots, t.fullName, ref);
    }
  }

  /** Nothing is in the graph but the roots and what some type in it mentions. */
  lemma CollectedIsMentioned(w: World, current: string, roots: set<Node>, g: PyGraph, n: Node) returns (t: PyType, ref: TypeRef)
    requires Known(w) && Collected(w, current, roots, g) && n in Nodes(g.types) && n !in roots
    ensures t in g.types && Mentions(t, ref) && LeadsTo(w, ref, n)
  {
    var a := ReachLast(Graph(w), roots, n);
    assert a in Nodes(g.types);
    t :| t in g.types && t.Node() == a;
    ref := TargetsMentioned(w, current, t.fullName, n);
  }

  /** Nothing is imported but the other files of the graph's types and of what they mention. */
  lemma ImportIsMentioned(w: World, current: string, roots: set<Node>, g: PyGraph, p: string) returns (t: PyType)
    requires Known(w) && Collected(w, current, roots, g) && p in g.imports
    ensures p != current && t in g.types && (t.owner.protoPath == p || exists ref :: Mentions(t, ref) && FileOf(ref) == Some(p))
  {
    var a :| Reached(w, roots, a) && p in FilesOf(w, a);
    assert a in Nodes(g.types);
    t :| t in g.types && t.Node() == a;
    if t.owner.protoPath != p {
      var ref := FilesMentioned(w, current, t.fullName, p);
    }
  }

  // Import aliases.

  /** A graph that was collected without a conflict imports each module under an alias of its own. */
  lemma AliasesDiffer(w: World, current: string, roots: set<Node>, g: PyGraph, p: string, q: string)
    requires Known(w) && Collected(w, current, roots, g) && !Conflict(w, current, roots)
    requires p in g.imports && q in g.imports && p in w.files && q in w.files
    ensures p != q ==> w.files[p].publicAlias != w.files[q].publicAlias && w.files[p].protobufAlias != w.files[q].protobufAlias
    ensures w.files[p].publicAlias != w.files[q].protobufAlias
  {
    var a :| Reached(w, roots, a) && p in FilesOf(w, a);
    var b :| Reached(w, roots, b) && q in FilesOf(w, b);
    assert !Disagree(w, current, a, b);
    forall c, d | c in AliasClaims(w, p) && d in AliasClaims(w, q)
      ensures c.slot == d.slot ==> c.key == d.key
    {
      assert ClaimedBy(w, current, a, c) && ClaimedBy(w, current, b, d);
    }
    KeysApart(p, q);
    assert Claim(ImportAlias(w.files[p].publicAlias), p + ":public") in AliasClaims(w, p);
    assert Claim(ImportAlias(w.files[p].protobufAlias), p + ":protobuf") in AliasClaims(w, p);
    assert Claim(ImportAlias(w.files[q].publicAlias), q + ":public") in AliasClaims(w, q);
    assert Claim(ImportAlias(w.files[q].protobufAlias), q + ":protobuf") in AliasClaims(w, q);
  }

  lemma KeysApart(p: string, q: string)
    ensures p != q ==> p + ":public" != q + ":public" && p + ":protobuf" != q + ":protobuf"
    ensures p + ":public" != q + ":protobuf"
  {
    var a, b := p + ":public", q + ":public";
    if a == b {
      assert p == a[..|a| - 7] && q == b[..|b| - 7];
    }
    var c, d := p + ":protobuf", q + ":protobuf";
    if c == d {
      assert p == c[..|c| - 9] && q == d[..|d| - 9];
    }
    assert a[|a| - 1] == 'c' && d[|d| - 1] == 'f';
  }
}
