/**
 Whether Python can load a generated module. The generator writes the names of descriptors
 as they are, so a keyword among them leaves a text that does not parse; and class bodies
 are run while the module is loaded, with the names that they have bound so far.
 */
module PythonModules {
  import opened Wrappers
  import opened Reachability
  import opened PythonTypes
  import opened PythonGraphs
  import opened PythonScopes
  import opened PythonMappers
  import opened MapperRoundTrip

  // Identifiers.

  /** Section 2.3.1 of the Python language reference, and the one other name that cannot be assigned. */
  predicate Keyword(s: string) {
    match |s|
    case 2 => s == "as" || s == "if" || s == "in" || s == "is" || s == "or"
    case 3 => s == "and" || s == "def" || s == "del" || s == "for" || s == "not" || s == "try"
    case 4 => s == "None" || s == "True" || s == "elif" || s == "else" || s == "from" || s == "pass" || s == "with"
    case 5 =>
      s == "False" || s == "async" || s == "await" || s == "break" || s == "class" || s == "raise" || s == "while" || s == "yield"
    case 6 => s == "assert" || s == "except" || s == "global" || s == "import" || s == "lambda" || s == "return"
    case 7 => s == "finally"
    case 8 => s == "continue" || s == "nonlocal"
    case 9 => s == "__debug__"
    case _ => false
  }

  predicate IsDigit(c: char) {
    '0' <= c <= '9'
  }

  predicate IsWordChar(c: char) {
    IsUpper(c) || IsLower(c) || IsDigit(c) || c == '_'
  }

  predicate Identifier(s: string) {
    s != "" && !IsDigit(s[0]) && (forall c | c in s :: IsWordChar(c)) && !Keyword(s)
  }

  // The names that a module spells.

  /** The parts of a dotted name. */
  function Parts(s: string): seq<string> {
    if s == "" then [""]
    else
      var rest := Parts(s[1..]);
      if s[0] == '.' then [""] + rest else [[s[0]] + rest[0]] + rest[1..]
  }

  lemma {:induction false} UndottedIsOnePart(s: string)
    requires '.' !in s
    ensures Parts(s) == [s]
  {
    if s != "" {
      assert s[0] in s;
      UndottedIsOnePart(s[1..]);
      assert [s[0]] + s[1..] == s;
    }
  }

  function WithoutPackage(fullName: string, package: string): string {
    if package + "." <= fullName then fullName[|package| + 1..] else fullName
  }

  function AsSet(names: seq<string>): set<string> {
    set n | n in names
  }

  /** The names in the import statements for a type's file. */
  function FileSpelled(names: FileNames, t: PyType): set<string> {
    if t.owner.isCurrentFile then (if t.PyMessage? then {names.protobufModule} else {})
    else AsSet(Parts(names.publicModule)) + {names.publicAlias} + if t.PyMessage? then {names.protobufAlias} else {}
  }

  function MembersSpelled(t: PyType): set<string> {
    match t
    case PyMessage(_, _, _, fields, oneofs) =>
      PlainNames(fields) + OneofNames(oneofs) + set o, v | o in oneofs && v in o.variants :: v.name
    case PyEnum(_, _, owner, values) => if owner.isCurrentFile then set v | v in values && !v.hidden :: v.name else {}
  }

  function ClassesSpelled(t: PyType): set<string> {
    {t.publicName}
    + if t.PyEnum? then {}
      else
        (set o, v | o in t.oneofs && v in o.variants :: v.wrapper)
        + if t.owner.isCurrentFile then set o | o in t.oneofs :: o.wrapper else {}
  }

  /** The names that classes and mappers of a type spell: its classes', its members' and those of its protobuf class. */
  function Spelled(w: World, t: PyType): set<string>
    requires t.owner.protoPath in w.files
  {
    var names := w.files[t.owner.protoPath];
    FileSpelled(names, t) + ClassesSpelled(t) + MembersSpelled(t) + ProtobufClass(t, names.package)
  }

  function ProtobufClass(t: PyType, package: string): set<string> {
    if t.PyMessage? then AsSet(Parts(WithoutPackage(t.fullName, package))) else {}
  }

  predicate AllIdentifiers(names: set<string>) {
    forall s | s in names :: Identifier(s)
  }

  predicate TypeParses(w: World, t: PyType) {
    t.owner.protoPath in w.files && AllIdentifiers(Spelled(w, t))
  }

  lemma PartsParse(w: World, t: PyType)
    requires t.owner.protoPath in w.files
    requires AllIdentifiers(FileSpelled(w.files[t.owner.protoPath], t)) && AllIdentifiers(ClassesSpelled(t))
    requires AllIdentifiers(MembersSpelled(t)) && AllIdentifiers(ProtobufClass(t, w.files[t.owner.protoPath].package))
    ensures TypeParses(w, t)
  {
  }

  /** No parameter is there twice. */
  predicate FunctionParses(f: Function) {
    && Identifier(f.name) && (forall p | p in f.parameters :: Identifier(p))
    && forall i, j | 0 <= i < j < |f.parameters| :: f.parameters[i] != f.parameters[j]
  }

  predicate HandlerParses(h: Handler) {
    Identifier(h.name) && forall f | f in h.functions :: FunctionParses(f)
  }

  // What runs while the module is loaded.

  const FIELD := "field"
  const PROTOCOL := "Protocol"

  predicate MadeByFactory(f: PyField) {
    f.oneof.None? && (f.isRepeated || f.isMap)
  }

  /** A member called `field` that has a default, before one whose default is a call of the dataclass function `field`. */
  predicate FactoryShadowed(fields: seq<PyField>) {
    exists i, j | 0 <= i < j < |fields| ::
      fields[i].name == FIELD && (MadeByFactory(fields[i]) || UsesUnset(fields[i])) && MadeByFactory(fields[j])
  }

  /** A name with one underscore at each end. */
  predicate Sunder(s: string) {
    |s| > 2 && s[0] == '_' && s[1] != '_' && s[|s| - 1] == '_' && s[|s| - 2] != '_'
  }

  /** Names that the enum library does not let a member have. */
  predicate Reserved(s: string) {
    s == "mro" || Sunder(s)
  }

  predicate BodyRuns(t: PyType) {
    if t.PyMessage? then !FactoryShadowed(t.fields)
    else forall v | v in t.values && !v.hidden :: !Reserved(v.name)
  }

  predicate HasMembers(t: PyType) {
    t.PyEnum? && exists v | v in t.values :: !v.hidden
  }

  /** The handlers' base class is not an enum with members, which nothing may extend. */
  predicate BaseExtends(types: seq<PyType>) {
    !exists t | t in types ::
      t.owner.isCurrentFile && HasMembers(t) && Resolve(ClassDefinitions(types), PROTOCOL) == Some(TypeClass(t.fullName))
  }

  predicate TypeSound(w: World, t: PyType) {
    TypeParses(w, t) && (t.owner.isCurrentFile ==> BodyRuns(t))
  }

  /** The module's own text parses and its own statements run. */
  predicate ModuleSound(w: World, types: seq<PyType>, handlers: seq<Handler>) {
    && (forall t | t in types :: TypeSound(w, t))
    && (forall h | h in handlers :: HandlerParses(h))
    && (handlers != [] ==> BaseExtends(types))
  }

  // Modules import each other.

  function ImportsOf(types: seq<PyType>): set<string> {
    set t | t in types && !t.owner.isCurrentFile :: t.owner.protoPath
  }

  function ImportGraph(models: map<string, PyGraph>): map<string, set<string>> {
    map p | p in models :: ImportsOf(models[p].types)
  }

  function HandlersOf(handlers: map<string, seq<Handler>>, path: string): seq<Handler> {
    if path in handlers then handlers[path] else []
  }

  predicate SoundAt(w: World, models: map<string, PyGraph>, handlers: map<string, seq<Handler>>, path: string) {
    path in models && ModuleSound(w, models[path].types, HandlersOf(handlers, path))
  }

  /** Of a run's modules, this one and all that it leads to are there and sound. */
  ghost predicate Loads(w: World, models: map<string, PyGraph>, handlers: map<string, seq<Handler>>, path: string) {
    forall p | Reach(ImportGraph(models), {path}, p) :: SoundAt(w, models, handlers, p)
  }

  /** A module loads exactly when it is there, is sound, and everything that it imports loads. */
  lemma LoadsStep(w: World, models: map<string, PyGraph>, handlers: map<string, seq<Handler>>, path: string)
    ensures Loads(w, models, handlers, path) <==>
              SoundAt(w, models, handlers, path) && forall q | q in ImportsOf(models[path].types) :: Loads(w, models, handlers, q)
  {
    ReachRoot(ImportGraph(models), {path}, path);
    if Loads(w, models, handlers, path) {
      forall q, p | q in ImportsOf(models[path].types) && Reach(ImportGraph(models), {q}, p)
        ensures SoundAt(w, models, handlers, p)
      {
        ReachVia(ImportGraph(models), path, q, p);
      }
    } else {
      var p :| Reach(ImportGraph(models), {path}, p) && !SoundAt(w, models, handlers, p);
      if p != path {
        var q := ReachFirst(ImportGraph(models), path, p);
        assert q in ImportsOf(models[path].types) && !Loads(w, models, handlers, q);
      }
    }
  }

  // Modules that cannot be loaded.

  /** A keyword among the names that a module spells keeps it, and every module that imports it, from loading. */
  lemma KeywordNeverLoads(w: World, models: map<string, PyGraph>, handlers: map<string, seq<Handler>>, path: string, p: string,
                          t: PyType, s: string)
    requires Reach(ImportGraph(models), {path}, p) && p in models && t in models[p].types && t.owner.protoPath in w.files
    requires s in Spelled(w, t) && Keyword(s)
    ensures !Loads(w, models, handlers, path)
  {
    assert !TypeSound(w, t);
    assert !SoundAt(w, models, handlers, p);
  }

  /** The names that a message makes its module spell, one by one. */
  lemma MessageSpells(w: World, t: PyType, s: string)
    requires t.PyMessage? && t.owner.protoPath in w.files
    ensures var names := w.files[t.owner.protoPath];
            s in Spelled(w, t) <==>
              || s == t.publicName
              || (exists f | f in t.fields :: f.oneof.None? && f.name == s)
              || (exists o | o in t.oneofs :: o.name == s || (t.owner.isCurrentFile && o.wrapper == s))
              || (exists o, v | o in t.oneofs && v in o.variants :: v.name == s || v.wrapper == s)
              || s in Parts(WithoutPackage(t.fullName, names.package))
              || (if t.owner.isCurrentFile then s == names.protobufModule
                  else s in Parts(names.publicModule) || s == names.publicAlias || s == names.protobufAlias)
  {
    ClassesSpell(t, s);
    MembersSpell(t, s);
  }

  lemma ClassesSpell(t: PyType, s: string)
    requires t.PyMessage?
    ensures s in ClassesSpelled(t) <==>
              || s == t.publicName
              || (exists o | o in t.oneofs :: t.owner.isCurrentFile && o.wrapper == s)
              || (exists o, v | o in t.oneofs && v in o.variants :: v.wrapper == s)
  {
  }

  lemma MembersSpell(t: PyType, s: string)
    requires t.PyMessage?
    ensures s in MembersSpelled(t) <==>
              || (exists f | f in t.fields :: f.oneof.None? && f.name == s)
              || (exists o | o in t.oneofs :: o.name == s)
              || (exists o, v | o in t.oneofs && v in o.variants :: v.name == s)
  {
  }

  /** The names that an enum does. */
  lemma EnumSpells(w: World, t: PyType, s: string)
    requires t.PyEnum? && t.owner.protoPath in w.files
    ensures var names := w.files[t.owner.protoPath];
            s in Spelled(w, t) <==>
              || s == t.publicName
              || (t.owner.isCurrentFile && exists v | v in t.values :: !v.hidden && v.name == s)
              || (!t.owner.isCurrentFile && (s in Parts(names.publicModule) || s == names.publicAlias))
  {
  }

  /** The field has a default, and so a place in the class body where its name is bound. */
  predicate HasDefault(f: PyField) {
    f.oneof.None? && (f.isRepeated || f.isMap || (f.hasPresence && !f.isSchemaRequired))
  }

  /** So does a member called `field` that hides the dataclass function from a later list or map. */
  lemma ShadowNeverLoads(w: World, models: map<string, PyGraph>, handlers: map<string, seq<Handler>>, path: string, p: string,
                         t: PyType, i: nat, j: nat)
    requires Reach(ImportGraph(models), {path}, p) && p in models && t in models[p].types
    requires t.owner.isCurrentFile && t.PyMessage? && i < j < |t.fields|
    requires t.fields[i].name == "field" && HasDefault(t.fields[i])
    requires t.fields[j].oneof.None? && (t.fields[j].isRepeated || t.fields[j].isMap)
    ensures !Loads(w, models, handlers, path)
  {
    assert FactoryShadowed(t.fields);
    assert !TypeSound(w, t);
    assert !SoundAt(w, models, handlers, p);
  }

  /** And an enum value that is shown under a name of the enum library: `mro`, or one underscore at each end. */
  lemma ReservedNeverLoads(w: World, models: map<string, PyGraph>, handlers: map<string, seq<Handler>>, path: string, p: string,
                           t: PyType, v: EnumValueDesc)
    requires Reach(ImportGraph(models), {path}, p) && p in models && t in models[p].types
    requires t.owner.isCurrentFile && t.PyEnum? && v in t.values && !v.hidden
    requires v.name == "mro" || exists s :: BetweenUnderscores(v.name, s)
    ensures !Loads(w, models, handlers, path)
  {
    SunderIs(v.name);
    assert !TypeSound(w, t);
    assert !SoundAt(w, models, handlers, p);
  }

  /** And an enum with a value that is shown, called `Protocol`, in a file that has a service, a prompt or a resource. */
  lemma ProtocolNeverLoads(w: World, models: map<string, PyGraph>, handlers: map<string, seq<Handler>>, path: string, p: string,
                           t: PyType, v: EnumValueDesc)
    requires Reach(ImportGraph(models), {path}, p) && p in models && t in models[p].types && HandlersOf(handlers, p) != []
    requires t.owner.isCurrentFile && t.PyEnum? && v in t.values && !v.hidden && t.publicName == "Protocol"
    requires Found(ClassDefinitions(models[p].types), Definition("Protocol", TypeClass(t.fullName)))
    ensures !Loads(w, models, handlers, path)
  {
    assert HasMembers(t);
    assert !BaseExtends(models[p].types);
    assert !SoundAt(w, models, handlers, p);
  }

  /** These are all the ways, but for names that are no identifiers: a class body of the file's own runs exactly without them. */
  lemma BodiesRun(t: PyType)
    ensures t.PyMessage? ==>
              (BodyRuns(t) <==>
                 !exists i, j | 0 <= i < j < |t.fields| ::
                   && t.fields[i].name == "field" && HasDefault(t.fields[i])
                   && t.fields[j].oneof.None? && (t.fields[j].isRepeated || t.fields[j].isMap))
    ensures t.PyEnum? ==>
              (BodyRuns(t) <==> !exists v | v in t.values :: !v.hidden && (v.name == "mro" || exists s :: BetweenUnderscores(v.name, s)))
  {
    if t.PyMessage? {
      forall f | f in t.fields
        ensures MadeByFactory(f) || UsesUnset(f) <==> HasDefault(f)
      {
      }
    } else {
      forall v | v in t.values
        ensures Sunder(v.name) <==> exists s :: BetweenUnderscores(v.name, s)
      {
        SunderIs(v.name);
      }
    }
  }

  /** One underscore at each end, and none next to them. */
  predicate BetweenUnderscores(name: string, s: string) {
    name == "_" + s + "_" && s != "" && s[0] != '_' && s[|s| - 1] != '_'
  }

  lemma SunderIs(name: string)
    ensures Sunder(name) <==> exists s :: BetweenUnderscores(name, s)
  {
    if Sunder(name) {
      var s := name[1..|name| - 1];
      assert name == ['_'] + s + ['_'];
      assert BetweenUnderscores(name, s);
    }
    if s :| BetweenUnderscores(name, s) {
      assert name[1] == s[0] && name[|name| - 2] == s[|s| - 1];
    }
  }
}
