/**
 The class names of a file's module after a successful pass: when they are distinct. The
 collector checks each file's own names, but the merge compares only the types' names.
 */
module ClassNames {
  import opened Wrappers
  import opened PythonTypes
  import opened PythonScopes
  import opened PythonCollector
  import opened PythonGraphs
  import opened TypeGraphs
  import opened CrossFile

  // Definitions and claims.

  lemma {:induction false} VariantDefinitionsExact(t: PyType, o: PyOneof, variants: seq<PyVariant>)
    ensures forall d :: d in VariantDefinitions(t, o, variants) <==>
              exists v | v in variants :: d == Definition(v.wrapper, VariantClass(t.fullName, o.name, v.name))
  {
    if variants != [] {
      VariantDefinitionsExact(t, o, variants[1..]);
      assert variants == [variants[0]] + variants[1..];
    }
  }

  predicate DefinedByOneof(t: PyType, o: PyOneof, d: Definition) {
    || d == Definition(o.wrapper, BaseClass(t.fullName, o.name))
    || exists v | v in o.variants :: d == Definition(v.wrapper, VariantClass(t.fullName, o.name, v.name))
  }

  lemma {:induction false} OneofDefinitionsExact(t: PyType, oneofs: seq<PyOneof>)
    ensures forall d :: d in OneofDefinitions(t, oneofs) <==> exists o | o in oneofs :: DefinedByOneof(t, o, d)
  {
    if oneofs != [] {
      var first, rest := oneofs[0], oneofs[1..];
      OneofDefinitionsExact(t, rest);
      VariantDefinitionsExact(t, first, first.variants);
      assert oneofs == [first] + rest;
      forall d
        ensures d in OneofDefinitions(t, oneofs) <==> exists o | o in oneofs :: DefinedByOneof(t, o, d)
      {
        OneofSplit(t, oneofs, d);
        assert d in VariantDefinitions(t, first, first.variants) || d == Definition(first.wrapper, BaseClass(t.fullName, first.name))
               <==> DefinedByOneof(t, first, d);
      }
    }
  }

  lemma OneofSplit(t: PyType, oneofs: seq<PyOneof>, d: Definition)
    requires oneofs != []
    ensures (exists o | o in oneofs :: DefinedByOneof(t, o, d)) <==>
              DefinedByOneof(t, oneofs[0], d) || exists o | o in oneofs[1..] :: DefinedByOneof(t, o, d)
  {
    assert oneofs == [oneofs[0]] + oneofs[1..];
  }

  lemma {:induction false} ClassDefinitionsExact(types: seq<PyType>)
    ensures forall d :: d in ClassDefinitions(types) <==>
              exists t | t in types :: t.owner.isCurrentFile && d in TypeDefinitions(t)
  {
    if types != [] {
      ClassDefinitionsExact(types[1..]);
      assert types == [types[0]] + types[1..];
    }
  }

  /** The collector's key for a class. */
  function KeyText(k: ClassKey): string {
    match k
    case TypeClass(n) => n
    case BaseClass(n, o) => n + "." + o
    case VariantClass(n, o, f) => n + "." + o + "." + f
    case Builtin(n) => n
    case HandlerClass(n) => n
  }

  function ClaimOf(w: World, n: Node, d: Definition): Claim
    requires Known(w) && Described(w, n) && OwnFile(w, n) in w.files
  {
    Claim(NameSlot(w, OwnFile(w, n), d.name), KeyText(d.key))
  }

  /** The definitions that the Python form of `n` makes. */
  ghost predicate Defines(w: World, current: string, n: Node, d: Definition)
    requires Known(w) && Described(w, n)
  {
    d in TypeDefinitions(TypeFor(w, current, n))
  }

  lemma MessageOneof(w: World, current: string, name: string, o: PyOneof) returns (desc: OneofDesc)
    requires Known(w) && name in w.messages && o in TypeFor(w, current, MessageNode(name)).oneofs
    ensures desc in w.messages[name].oneofs && FieldsKnown(w, desc.fields) && o == OneofFor(w, current, desc)
  {
    var os := OneofsFor(w, current, w.messages[name].oneofs);
    var i :| 0 <= i < |os| && os[i] == o;
    desc := w.messages[name].oneofs[i];
  }

  lemma OwnNameClaimed(w: World, n: Node)
    requires Known(w) && Described(w, n)
    ensures OwnName(w, n) in NameClaims(w, n)
  {
  }

  lemma WrapperClaimed(w: World, name: string, o: OneofDesc)
    requires Known(w) && name in w.messages && o in w.messages[name].oneofs
    ensures WrapperClaim(w, name, o) in NameClaims(w, MessageNode(name))
  {
  }

  lemma VariantClaimed(w: World, name: string, o: OneofDesc, f: FieldDesc)
    requires Known(w) && name in w.messages && o in w.messages[name].oneofs && f in o.fields
    ensures VariantClaim(w, name, o, f) in NameClaims(w, MessageNode(name))
  {
  }

  lemma ClaimCases(w: World, n: Node, c: Claim)
    requires Known(w) && Described(w, n) && c in NameClaims(w, n)
    ensures || c == OwnName(w, n)
            || (n.MessageNode? && exists o | o in w.messages[n.name].oneofs :: c == WrapperClaim(w, n.name, o))
            || (n.MessageNode? && exists o, f | o in w.messages[n.name].oneofs && f in o.fields :: c == VariantClaim(w, n.name, o, f))
  {
  }

  lemma TypeDefinitionCases(t: PyType, d: Definition)
    ensures d in TypeDefinitions(t) <==>
              d == Definition(t.publicName, TypeClass(t.fullName))
              || (t.PyMessage? && exists o | o in t.oneofs :: DefinedByOneof(t, o, d))
  {
    if t.PyMessage? {
      OneofDefinitionsExact(t, t.oneofs);
    }
  }

  lemma TypeNames(w: World, current: string, n: Node)
    requires Known(w) && Described(w, n)
    ensures var t := TypeFor(w, current, n);
            ClaimOf(w, n, Definition(t.publicName, TypeClass(t.fullName))) == OwnName(w, n) && t.fullName == n.name
    ensures n.EnumNode? ==> TypeFor(w, current, n).PyEnum?
  {
  }

  lemma OneofVariant(w: World, current: string, desc: OneofDesc, v: PyVariant) returns (f: FieldDesc)
    requires Known(w) && FieldsKnown(w, desc.fields) && v in OneofFor(w, current, desc).variants
    ensures f in desc.fields && v.name == f.name && v.wrapper == f.variantWrapper
  {
    var vs := VariantsFor(w, current, desc.fields);
    var j :| 0 <= j < |vs| && vs[j] == v;
    f := desc.fields[j];
  }

  lemma OneofClaimed(w: World, current: string, name: string, o: PyOneof, d: Definition)
    requires Known(w) && name in w.messages && o in TypeFor(w, current, MessageNode(name)).oneofs
    requires DefinedByOneof(TypeFor(w, current, MessageNode(name)), o, d)
    ensures ClaimOf(w, MessageNode(name), d) in NameClaims(w, MessageNode(name))
  {
    var desc := MessageOneof(w, current, name, o);
    if d == Definition(o.wrapper, BaseClass(name, o.name)) {
      WrapperClaimed(w, name, desc);
    } else {
      var v :| v in o.variants && d == Definition(v.wrapper, VariantClass(name, o.name, v.name));
      var f := OneofVariant(w, current, desc, v);
      VariantClaimed(w, name, desc, f);
    }
  }

  /** Every class is claimed. */
  lemma DefinitionIsClaimed(w: World, current: string, n: Node, d: Definition)
    requires Known(w) && Described(w, n) && Defines(w, current, n, d)
    ensures ClaimOf(w, n, d) in NameClaims(w, n)
  {
    var t := TypeFor(w, current, n);
    TypeDefinitionCases(t, d);
    TypeNames(w, current, n);
    if d == Definition(t.publicName, TypeClass(t.fullName)) {
      OwnNameClaimed(w, n);
    } else {
      var o :| o in t.oneofs && DefinedByOneof(t, o, d);
      OneofClaimed(w, current, n.name, o, d);
    }
  }

  lemma BaseDefined(w: World, current: string, name: string, o: OneofDesc)
    requires Known(w) && name in w.messages && o in w.messages[name].oneofs
    ensures Defines(w, current, MessageNode(name), Definition(o.wrapper, BaseClass(name, o.name)))
  {
    var t, m := TypeFor(w, current, MessageNode(name)), w.messages[name];
    var i :| 0 <= i < |m.oneofs| && m.oneofs[i] == o;
    var d := Definition(o.wrapper, BaseClass(name, o.name));
    assert t.oneofs[i] in t.oneofs && DefinedByOneof(t, t.oneofs[i], d);
    TypeDefinitionCases(t, d);
  }

  lemma VariantDefined(w: World, current: string, name: string, o: OneofDesc, f: FieldDesc)
    requires Known(w) && name in w.messages && o in w.messages[name].oneofs && f in o.fields
    ensures Defines(w, current, MessageNode(name), Definition(f.variantWrapper, VariantClass(name, o.name, f.name)))
  {
    var t, m := TypeFor(w, current, MessageNode(name)), w.messages[name];
    var i :| 0 <= i < |m.oneofs| && m.oneofs[i] == o;
    var j :| 0 <= j < |o.fields| && o.fields[j] == f;
    var d := Definition(f.variantWrapper, VariantClass(name, o.name, f.name));
    assert t.oneofs[i].variants[j] in t.oneofs[i].variants;
    assert t.oneofs[i] in t.oneofs && DefinedByOneof(t, t.oneofs[i], d);
    TypeDefinitionCases(t, d);
  }

  /** And every claim on a name is a class. */
  lemma ClaimIsDefinition(w: World, current: string, n: Node, c: Claim) returns (d: Definition)
    requires Known(w) && Described(w, n) && c in NameClaims(w, n)
    ensures Defines(w, current, n, d) && ClaimOf(w, n, d) == c
  {
    ClaimCases(w, n, c);
    if c == OwnName(w, n) {
      var t := TypeFor(w, current, n);
      d := Definition(t.publicName, TypeClass(t.fullName));
      TypeNames(w, current, n);
      TypeDefinitionCases(t, d);
    } else if o :| o in w.messages[n.name].oneofs && c == WrapperClaim(w, n.name, o) {
      d := Definition(o.wrapper, BaseClass(n.name, o.name));
      BaseDefined(w, current, n.name, o);
    } else {
      var o, f :| o in w.messages[n.name].oneofs && f in o.fields && c == VariantClaim(w, n.name, o, f);
      d := Definition(f.variantWrapper, VariantClass(n.name, o.name, f.name));
      VariantDefined(w, current, n.name, o, f);
    }
  }

  // Distinct names, said of the descriptors.

  /** Two types that give one class name to different symbols. */
  ghost predicate ShareClassName(w: World, a: Node, b: Node)
    requires Known(w) && Described(w, a) && Described(w, b)
  {
    exists c, d | c in NameClaims(w, a) && d in NameClaims(w, b) :: c.slot == d.slot && c.key != d.key
  }

  ghost predicate ClassNamesDisjoint(w: World, file: string, roots: set<Node>)
    requires Known(w)
  {
    forall a, b | Reached(w, roots, a) && Reached(w, roots, b) && OwnFile(w, a) == file && OwnFile(w, b) == file ::
      !ShareClassName(w, a, b)
  }

  /** Protobuf symbols are unique: two different classes never stand for one symbol. */
  ghost predicate SymbolsUnique(w: World)
    requires Known(w)
  {
    forall current, a, b, c, d | Described(w, a) && Described(w, b) && Defines(w, current, a, c) && Defines(w, current, b, d) ::
      KeyText(c.key) == KeyText(d.key) ==> c.key == d.key
  }

  predicate SameNameSameKey(defs: seq<Definition>) {
    forall c, d | c in defs && d in defs && c.name == d.name :: c.key == d.key
  }

  lemma ApartMeansSameKey(defs: seq<Definition>)
    ensures NamesApart(defs) <==> SameNameSameKey(defs)
  {
    if NamesApart(defs) {
      forall c, d | c in defs && d in defs && c.name == d.name
        ensures c.key == d.key
      {
        var i :| 0 <= i < |defs| && defs[i] == c;
        var j :| 0 <= j < |defs| && defs[j] == d;
        assert i < j || j < i || i == j;
      }
    }
  }

  lemma OwnDefinition(w: World, file: string, roots: set<Node>, g: PyGraph, d: Definition) returns (n: Node)
    requires Known(w) && Collected(w, file, roots, g) && d in ClassDefinitions(g.types)
    ensures Reached(w, roots, n) && OwnFile(w, n) == file && Defines(w, file, n, d)
  {
    ClassDefinitionsExact(g.types);
    var t :| t in g.types && t.owner.isCurrentFile && d in TypeDefinitions(t);
    n := t.Node();
    assert n in Nodes(g.types);
  }

  lemma DefinitionIsOwn(w: World, file: string, roots: set<Node>, g: PyGraph, n: Node, d: Definition)
    requires Known(w) && Collected(w, file, roots, g) && Reached(w, roots, n) && OwnFile(w, n) == file && Defines(w, file, n, d)
    ensures d in ClassDefinitions(g.types)
  {
    ClassDefinitionsExact(g.types);
    assert n in Nodes(g.types);
    var t :| t in g.types && t.Node() == n;
  }

  lemma ApartIsDisjoint(w: World, file: string, roots: set<Node>, g: PyGraph)
    requires Known(w) && Collected(w, file, roots, g) && NamesApart(ClassDefinitions(g.types))
    ensures ClassNamesDisjoint(w, file, roots)
  {
    ApartMeansSameKey(ClassDefinitions(g.types));
    forall a, b, c, d | Reached(w, roots, a) && Reached(w, roots, b) && OwnFile(w, a) == file && OwnFile(w, b) == file
                        && c in NameClaims(w, a) && d in NameClaims(w, b) && c.slot == d.slot
      ensures c.key == d.key
    {
      var p := ClaimIsDefinition(w, file, a, c);
      var q := ClaimIsDefinition(w, file, b, d);
      DefinitionIsOwn(w, file, roots, g, a, p);
      DefinitionIsOwn(w, file, roots, g, b, q);
    }
  }

  lemma DisjointIsApart(w: World, file: string, roots: set<Node>, g: PyGraph)
    requires Known(w) && SymbolsUnique(w) && Collected(w, file, roots, g) && ClassNamesDisjoint(w, file, roots)
    ensures NamesApart(ClassDefinitions(g.types))
  {
    var defs := ClassDefinitions(g.types);
    ApartMeansSameKey(defs);
    forall c, d | c in defs && d in defs && c.name == d.name
      ensures c.key == d.key
    {
      var a := OwnDefinition(w, file, roots, g, c);
      var b := OwnDefinition(w, file, roots, g, d);
      DefinitionIsClaimed(w, file, a, c);
      DefinitionIsClaimed(w, file, b, d);
      assert !ShareClassName(w, a, b);
    }
  }

  /**
   After a successful pass the classes of a generated file, oneof and variant classes
   included, have distinct names exactly when no two types of the file that it ends up with
   claim a class name for different symbols.
   */
  lemma DistinctIffDisjoint(w: World, files: seq<FileDesc>, models: map<string, PyGraph>, f: FileDesc)
    requires Known(w) && SymbolsUnique(w) && FilesOk(w, files) && f in files && FinalGraphs(w, files, models)
    ensures f.path in models
    ensures NamesApart(ClassDefinitions(models[f.path].types)) <==> ClassNamesDisjoint(w, f.path, FinalRoots(w, files, f))
  {
    assert FinalAt(w, files, models, f);
    if NamesApart(ClassDefinitions(models[f.path].types)) {
      ApartIsDisjoint(w, f.path, FinalRoots(w, files, f), models[f.path]);
    }
    if ClassNamesDisjoint(w, f.path, FinalRoots(w, files, f)) {
      DisjointIsApart(w, f.path, FinalRoots(w, files, f), models[f.path]);
    }
  }
}
