/**
 Protobuf descriptors as the Python generator sees them, the Python types it makes
 of them, and which types a type refers to. Names that the generator derives from
 descriptor names by string rewriting are attributes here.
 */
module PythonTypes {
  import opened Wrappers
  import opened Reachability
  import opened WellKnownTypes

  datatype Scalar = Unknown | BoolScalar | Bytes | Text | Int32 | UInt32 | Int64 | UInt64 | Float | Double

  datatype Kind =
    | ScalarKind(scalar: Scalar)
    | EnumKind(enumName: string)
    | MessageKind(messageName: string)
    | GroupKind

  /** `oneof` is the real oneof of the field; `variantWrapper` the class name of its variant. */
  datatype FieldDesc = FieldDesc(
    name: string,
    jsonName: string,
    number: int,
    kind: Kind,
    isList: bool,
    isMap: bool,
    hasPresence: bool,
    optionalKeyword: bool,
    oneof: Option<string>,
    variantWrapper: string)

  datatype OneofDesc = OneofDesc(name: string, wrapper: string, fields: seq<FieldDesc>)

  datatype MessageDesc = MessageDesc(
    file: string,
    publicName: string,
    isMapEntry: bool,
    fields: seq<FieldDesc>,
    oneofs: seq<OneofDesc>)

  datatype EnumValueDesc = EnumValueDesc(name: string, number: int, hidden: bool)

  datatype EnumDesc = EnumDesc(file: string, publicName: string, values: seq<EnumValueDesc>)

  /**
   The names a proto file gives rise to: the path of its module, the aliases under which other
   modules import it and its protobuf module, and its own name for its protobuf module.
   */
  datatype FileNames = FileNames(
    package: string,
    publicModule: string,
    publicAlias: string,
    protobufAlias: string,
    protobufModule: string)

  datatype World = World(messages: map<string, MessageDesc>, enums: map<string, EnumDesc>, files: map<string, FileNames>)

  datatype Node = MessageNode(name: string) | EnumNode(name: string)

  datatype Standing = Supported | Unsupported | Ordinary

  function Classify(fullName: string): Standing {
    if IsWellKnown(fullName) then Supported
    else if IsUnsupported(fullName) then Unsupported
    else Ordinary
  }

  // Python types.

  datatype Owner = Owner(protoPath: string, isCurrentFile: bool)

  datatype TypeRef =
    | ScalarRef(scalar: Scalar)
    | EnumRef(fullName: string, publicName: string, owner: Owner)
    | WellKnownRef(fullName: string, owner: Owner)
    | MessageRef(fullName: string, publicName: string, owner: Owner)

  datatype PyField = PyField(
    name: string,
    jsonName: string,
    number: int,
    typ: TypeRef,
    isRepeated: bool,
    isMap: bool,
    mapKey: Scalar,
    mapValue: Option<TypeRef>,
    hasPresence: bool,
    isSchemaRequired: bool,
    oneof: Option<string>,
    variantWrapper: string)

  datatype PyVariant = PyVariant(name: string, number: int, wrapper: string, typ: TypeRef, hasPresence: bool)

  datatype PyOneof = PyOneof(name: string, wrapper: string, variants: seq<PyVariant>)

  datatype PyType =
    | PyMessage(fullName: string, publicName: string, owner: Owner, fields: seq<PyField>, oneofs: seq<PyOneof>)
    | PyEnum(fullName: string, publicName: string, owner: Owner, values: seq<EnumValueDesc>)
  {
    function Node(): Node {
      if PyMessage? then MessageNode(fullName) else EnumNode(fullName)
    }
  }

  /** Every name that a descriptor mentions is described. */
  predicate KindKnown(w: World, k: Kind) {
    match k
    case EnumKind(n) => n in w.enums
    case MessageKind(n) => n in w.messages
    case _ => true
  }

  predicate FieldsKnown(w: World, fields: seq<FieldDesc>) {
    forall f | f in fields :: KindKnown(w, f.kind)
  }

  predicate MessageKnown(w: World, m: MessageDesc) {
    m.file in w.files && FieldsKnown(w, m.fields) && forall o | o in m.oneofs :: FieldsKnown(w, o.fields)
  }

  /** Every mention is described, and no message shares its full name with an enum. */
  predicate Known(w: World) {
    && w.messages.Keys !! w.enums.Keys
    && (forall n | n in w.messages :: MessageKnown(w, w.messages[n]))
    && (forall n | n in w.enums :: w.enums[n].file in w.files)
  }

  type KnownWorld = w: World | Known(w) witness World(map[], map[], map[])

  predicate Described(w: World, n: Node) {
    match n
    case MessageNode(name) => name in w.messages
    case EnumNode(name) => name in w.enums
  }

  /** The entry value of a map field, when its entry message has two fields. */
  function MapEntry(w: World, f: FieldDesc): Option<(FieldDesc, FieldDesc)>
    requires KindKnown(w, f.kind)
  {
    if f.isMap && f.kind.MessageKind? && |w.messages[f.kind.messageName].fields| == 2
    then Some((w.messages[f.kind.messageName].fields[0], w.messages[f.kind.messageName].fields[1]))
    else None
  }

  /** What a value of this kind makes the generator collect. */
  function KindTargets(w: World, k: Kind): set<Node>
    requires KindKnown(w, k)
  {
    match k
    case EnumKind(n) => {EnumNode(n)}
    case MessageKind(n) =>
      if Classify(n).Ordinary? && !w.messages[n].isMapEntry then {MessageNode(n)} else {}
    case _ => {}
  }

  function FieldTargets(w: World, f: FieldDesc): set<Node>
    requires Known(w) && KindKnown(w, f.kind)
  {
    KindTargets(w, f.kind)
    + match MapEntry(w, f)
      case Some((_, value)) => KindTargets(w, value.kind)
      case None => {}
  }

  /** The types a message refers to: through fields, map values and oneof variants. */
  ghost function Successors(w: World, n: Node): set<Node>
    requires Known(w) && Described(w, n)
  {
    match n
    case EnumNode(_) => {}
    case MessageNode(name) =>
      var m := w.messages[name];
      (set f, t | f in m.fields && t in FieldTargets(w, f) :: t)
      + (set o, f, t | o in m.oneofs && f in o.fields && t in KindTargets(w, f.kind) :: t)
  }

  ghost function AllNodes(w: World): set<Node> {
    (set n | n in w.messages :: MessageNode(n)) + (set n | n in w.enums :: EnumNode(n))
  }

  ghost function Graph(w: World): map<Node, set<Node>>
    requires Known(w)
  {
    map n | n in AllNodes(w) :: Successors(w, n)
  }

  // The translation of one descriptor, independent of the order in which types are found.

  function OwnerOf(file: string, current: string): Owner {
    Owner(file, file == current)
  }

  function RefFor(w: World, current: string, k: Kind): TypeRef
    requires KindKnown(w, k)
  {
    match k
    case ScalarKind(s) => ScalarRef(s)
    case EnumKind(n) => EnumRef(n, w.enums[n].publicName, OwnerOf(w.enums[n].file, current))
    case MessageKind(n) =>
      var owner := OwnerOf(w.messages[n].file, current);
      if Classify(n).Ordinary? then MessageRef(n, w.messages[n].publicName, owner) else WellKnownRef(n, owner)
    case GroupKind => ScalarRef(Unknown)
  }

  function ScalarFor(k: Kind): Scalar {
    if k.ScalarKind? then k.scalar else Unknown
  }

  function FieldFor(w: World, current: string, f: FieldDesc): PyField
    requires Known(w) && KindKnown(w, f.kind)
  {
    PyField(
      f.name, f.jsonName, f.number,
      RefFor(w, current, f.kind),
      f.isList && !f.isMap,
      f.isMap,
      match MapEntry(w, f) { case Some((key, _)) => ScalarFor(key.kind) case None => Unknown },
      match MapEntry(w, f) { case Some((_, value)) => Some(RefFor(w, current, value.kind)) case None => None },
      f.hasPresence,
      !f.isList && !f.isMap && f.oneof.None? && !f.optionalKeyword,
      f.oneof,
      if f.oneof.Some? then f.variantWrapper else "")
  }

  function FieldsFor(w: World, current: string, fields: seq<FieldDesc>): (r: seq<PyField>)
    requires Known(w) && FieldsKnown(w, fields)
    ensures |r| == |fields|
    ensures forall i | 0 <= i < |r| :: KindKnown(w, fields[i].kind) && r[i] == FieldFor(w, current, fields[i])
  {
    seq(|fields|, i requires 0 <= i < |fields| => FieldFor(w, current, fields[i]))
  }

  function VariantFor(w: World, current: string, f: FieldDesc): PyVariant
    requires KindKnown(w, f.kind)
  {
    PyVariant(f.name, f.number, f.variantWrapper, RefFor(w, current, f.kind), f.hasPresence)
  }

  function VariantsFor(w: World, current: string, fields: seq<FieldDesc>): seq<PyVariant>
    requires FieldsKnown(w, fields)
  {
    seq(|fields|, i requires 0 <= i < |fields| => VariantFor(w, current, fields[i]))
  }

  function OneofFor(w: World, current: string, o: OneofDesc): PyOneof
    requires FieldsKnown(w, o.fields)
  {
    PyOneof(o.name, o.wrapper, VariantsFor(w, current, o.fields))
  }

  function OneofsFor(w: World, current: string, oneofs: seq<OneofDesc>): (r: seq<PyOneof>)
    requires forall o | o in oneofs :: FieldsKnown(w, o.fields)
    ensures |r| == |oneofs|
    ensures forall i | 0 <= i < |r| :: FieldsKnown(w, oneofs[i].fields) && r[i] == OneofFor(w, current, oneofs[i])
  {
    seq(|oneofs|, i requires 0 <= i < |oneofs| => OneofFor(w, current, oneofs[i]))
  }

  function TypeFor(w: World, current: string, n: Node): PyType
    requires Known(w) && Described(w, n)
  {
    match n
    case MessageNode(name) =>
      var m := w.messages[name];
      PyMessage(name, m.publicName, OwnerOf(m.file, current), FieldsFor(w, current, m.fields), OneofsFor(w, current, m.oneofs))
    case EnumNode(name) =>
      var e := w.enums[name];
      PyEnum(name, e.publicName, OwnerOf(e.file, current), e.values)
  }

  // Names and files that a type lays claim to.

  /** A place in one of the generator's name registries. */
  datatype Slot = PublicName(publicModule: string, name: string) | ImportAlias(alias: string)

  datatype Claim = Claim(slot: Slot, key: string)

  function KindFiles(w: World, k: Kind): set<string>
    requires KindKnown(w, k)
  {
    match k
    case EnumKind(n) => {w.enums[n].file}
    case MessageKind(n) => {w.messages[n].file}
    case _ => {}
  }

  function FieldFiles(w: World, f: FieldDesc): set<string>
    requires Known(w) && KindKnown(w, f.kind)
  {
    KindFiles(w, f.kind)
    + match MapEntry(w, f)
      case Some((_, value)) => KindFiles(w, value.kind)
      case None => {}
  }

  /** The files whose modules the Python form of `n` mentions. */
  ghost function FilesOf(w: World, n: Node): set<string>
    requires Known(w) && Described(w, n)
  {
    match n
    case EnumNode(name) => {w.enums[name].file}
    case MessageNode(name) =>
      var m := w.messages[name];
      {m.file}
      + (set f, p | f in m.fields && p in FieldFiles(w, f) :: p)
      + (set o, f, p | o in m.oneofs && f in o.fields && p in KindFiles(w, f.kind) :: p)
  }

  function AliasClaims(w: World, file: string): set<Claim>
    requires file in w.files
  {
    {Claim(ImportAlias(w.files[file].publicAlias), file + ":public"),
     Claim(ImportAlias(w.files[file].protobufAlias), file + ":protobuf")}
  }

  function NameSlot(w: World, file: string, name: string): Slot
    requires file in w.files
  {
    PublicName(w.files[file].publicModule, name)
  }

  /** The class names that the Python form of `n` defines. */
  ghost function NameClaims(w: World, n: Node): set<Claim>
    requires Known(w) && Described(w, n)
  {
    match n
    case EnumNode(name) => {Claim(NameSlot(w, w.enums[name].file, w.enums[name].publicName), name)}
    case MessageNode(name) =>
      var m := w.messages[name];
      {Claim(NameSlot(w, m.file, m.publicName), name)}
      + (set o | o in m.oneofs :: Claim(NameSlot(w, m.file, o.wrapper), name + "." + o.name))
      + (set o, f | o in m.oneofs && f in o.fields ::
           Claim(NameSlot(w, m.file, f.variantWrapper), name + "." + o.name + "." + f.name))
  }

  ghost predicate ClaimedBy(w: World, current: string, n: Node, c: Claim)
    requires Known(w) && Described(w, n)
  {
    c in NameClaims(w, n) || exists p | p in FilesOf(w, n) && p in w.files && p != current :: c in AliasClaims(w, p)
  }

  /** A reference to a well-known type that the generator does not know. */
  predicate KindRejected(k: Kind) {
    k.MessageKind? && Classify(k.messageName).Unsupported?
  }

  ghost predicate Rejected(w: World, n: Node)
    requires Known(w) && Described(w, n)
  {
    n.MessageNode? &&
    var m := w.messages[n.name];
    || (exists f | f in m.fields :: KindRejected(f.kind) || (MapEntry(w, f).Some? && KindRejected(MapEntry(w, f).value.1.kind)))
    || (exists o, f | o in m.oneofs && f in o.fields :: KindRejected(f.kind))
  }
}
