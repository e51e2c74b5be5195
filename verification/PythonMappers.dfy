/**
 What the mappers that the generator emits are to compute, over the types they are
 emitted for: to_pb turns a dataclass into a protobuf message, from_pb turns it back.
 Every name means here what the generator meant by it; `GeneratedMappers` interprets the
 emitted text, in which names can be captured. `None` stands for an exception. Every
 mapper call takes one unit of `depth`, Python's recursion limit.
 */
module PythonMappers {
  import opened Wrappers
  import opened WellKnownTypes
  import opened PythonTypes

  /** A scalar of a given type; code 0 is the type's default. */
  datatype Leaf = Leaf(scalar: Scalar, code: int)

  // Dataclasses.

  datatype Value =
    | Plain(leaf: Leaf)
    | Member(enumName: string, number: int)
    | WellKnownValue(typeName: string, payload: int)
    | Object(name: string, attrs: map<string, Attr>)

  /**
   `Unset` is the UNSET of the mappers' own module and `Chosen` holds an instance of a
   oneof's variant class. `Stray` is what no dataclass field is meant to hold.
   */
  datatype Attr =
    | Unset
    | Single(value: Value)
    | Items(items: seq<Value>)
    | Entries(entries: map<Leaf, Value>)
    | Chosen(wrapper: string, value: Value)
    | Stray(thing: Thing)

  /** What another local variable left behind, or the UNSET of another file's module. */
  datatype Thing = CaseText(text: string) | Nothing | UnsetOf(path: string)

  // Protobuf messages: only what differs from an empty message is there.

  datatype Pb =
    | PbPlain(leaf: Leaf)
    | PbEnum(number: int)
    | PbKnown(typeName: string, payload: int)
    | PbMessage(name: string, fields: map<string, Piece>)

  datatype Piece = PSingle(value: Pb) | PItems(items: seq<Pb>) | PEntries(entries: map<Leaf, Pb>)

  type Env = map<string, PyType>

  predicate UsesUnset(f: PyField) {
    f.oneof.None? && !f.isRepeated && !f.isMap && !f.isSchemaRequired && f.hasPresence
  }

  predicate IsMessage(env: Env, name: string) {
    name in env && env[name].PyMessage? && env[name].fullName == name
  }

  /** An enum class has a member for each value that is not hidden. */
  predicate IsMember(env: Env, name: string, number: int) {
    name in env && env[name].PyEnum? && exists v | v in env[name].values :: !v.hidden && v.number == number
  }

  /** What reading a field that is not there gives. */
  function Default(ref: TypeRef): Pb {
    match ref
    case ScalarRef(s) => PbPlain(Leaf(s, 0))
    case EnumRef(_, _, _) => PbEnum(0)
    case WellKnownRef(n, _) => PbKnown(n, 0)
    case MessageRef(n, _, _) => PbMessage(n, map[])
  }

  predicate IsScalarDefault(pb: Pb) {
    (pb.PbPlain? && pb.leaf.code == 0) || (pb.PbEnum? && pb.number == 0)
  }

  // Setting fields of a message.

  type Fields = map<string, Piece>

  /** A default in a field without presence leaves no trace. */
  function SetSingle(fields: Fields, f: PyField, pb: Pb): Fields {
    if !f.hasPresence && IsScalarDefault(pb) then fields - {f.name} else fields[f.name := PSingle(pb)]
  }

  function SetItems(fields: Fields, name: string, items: seq<Pb>): Fields {
    if items == [] then fields else fields[name := PItems(items)]
  }

  function SetEntries(fields: Fields, name: string, entries: map<Leaf, Pb>): Fields {
    if entries == map[] then fields else fields[name := PEntries(entries)]
  }

  // The to_pb mappers.

  function ToRef(env: Env, ref: TypeRef, v: Value, depth: nat): Option<Pb>
    decreases depth, 0
  {
    match ref
    case ScalarRef(s) => if v.Plain? && v.leaf.scalar == s then Some(PbPlain(v.leaf)) else None
    case EnumRef(n, _, _) => if v.Member? && v.enumName == n then Some(PbEnum(v.number)) else None
    case WellKnownRef(n, _) => if v.WellKnownValue? && v.typeName == n then Some(PbKnown(n, v.payload)) else None
    case MessageRef(n, _, _) =>
      if depth > 0 && v.Object? && v.name == n && IsMessage(env, n) then ToMessage(env, env[n], v.attrs, depth - 1) else None
  }

  function ToItems(env: Env, ref: TypeRef, items: seq<Value>, depth: nat): Option<seq<Pb>>
    decreases depth, 1, |items|
  {
    if items == [] then Some([])
    else
      match (ToItems(env, ref, items[..|items| - 1], depth), ToRef(env, ref, items[|items| - 1], depth))
      case (Some(front), Some(last)) => Some(front + [last])
      case _ => None
  }

  function ToEntries(env: Env, ref: TypeRef, entries: map<Leaf, Value>, depth: nat): Option<map<Leaf, Pb>>
    decreases depth, 1
  {
    if forall k | k in entries :: ToRef(env, ref, entries[k], depth).Some?
    then Some(map k | k in entries :: ToRef(env, ref, entries[k], depth).value)
    else None
  }

  /** A message type whose to_pb looks at nothing in the value. */
  predicate Untouched(t: PyType)
    requires t.PyMessage?
  {
    t.oneofs == [] && forall f | f in t.fields && f.oneof.None? :: !f.isRepeated && f.isMap && f.mapValue.None?
  }

  /** What becomes of an UNSET that is not the mapper's own: it is converted like a value. */
  function ToStray(env: Env, ref: TypeRef, depth: nat): Option<Pb> {
    match ref
    case WellKnownRef(n, _) => if WellKnownOf(n) == Some(EmptyType) then Some(Default(ref)) else None
    case MessageRef(n, _, _) => if depth > 0 && IsMessage(env, n) && Untouched(env[n]) then Some(Default(ref)) else None
    case _ => None
  }

  predicate IsForeignUnset(a: Attr) {
    a.Stray? && a.thing.UnsetOf?
  }

  /** The assignment that the mapper makes for one field outside oneofs. */
  function ToField(env: Env, f: PyField, a: Attr, fields: Fields, depth: nat): Option<Fields>
    decreases depth, 2
  {
    if f.isRepeated then
      if !a.Items? then None
      else
        match ToItems(env, f.typ, a.items, depth)
        case Some(items) => Some(SetItems(fields, f.name, items))
        case None => None
    else if f.isMap then
      match f.mapValue
      case None => Some(fields)
      case Some(ref) =>
        if !a.Entries? then None
        else
          match ToEntries(env, ref, a.entries, depth)
          case Some(entries) => Some(SetEntries(fields, f.name, entries))
          case None => None
    else if UsesUnset(f) && a.Unset? then Some(fields)
    else if !a.Single? && !IsForeignUnset(a) then None
    else
      match if a.Single? then ToRef(env, f.typ, a.value, depth) else ToStray(env, f.typ, depth)
      case Some(pb) => Some(SetSingle(fields, f, pb))
      case None => None
  }

  /** The message after the first fields of the type have been assigned. */
  function ToFields(env: Env, fs: seq<PyField>, attrs: map<string, Attr>, depth: nat): Option<Fields>
    decreases depth, 3, |fs|
  {
    if fs == [] then Some(map[])
    else
      var f := fs[|fs| - 1];
      match ToFields(env, fs[..|fs| - 1], attrs, depth)
      case None => None
      case Some(fields) =>
        if f.oneof.Some? then Some(fields)
        else if f.name !in attrs then None
        else ToField(env, f, attrs[f.name], fields, depth)
  }

  /** The first variant whose class the value has. */
  function VariantOf(variants: seq<PyVariant>, wrapper: string): Option<PyVariant> {
    if variants == [] then None
    else if variants[0].wrapper == wrapper then Some(variants[0])
    else VariantOf(variants[1..], wrapper)
  }

  /** A value that is no variant raises; setting a member of a oneof clears the others. */
  function ToOneof(env: Env, o: PyOneof, a: Attr, fields: Fields, depth: nat): Option<Fields>
    decreases depth, 2
  {
    if a.Unset? then Some(fields)
    else if !a.Chosen? then None
    else
      match VariantOf(o.variants, a.wrapper)
      case None => None
      case Some(variant) =>
        match ToRef(env, variant.typ, a.value, depth)
        case None => None
        case Some(pb) => Some((fields - VariantNames(o.variants))[variant.name := PSingle(pb)])
  }

  function VariantNames(variants: seq<PyVariant>): set<string> {
    set v | v in variants :: v.name
  }

  function ToOneofs(env: Env, os: seq<PyOneof>, attrs: map<string, Attr>, fields: Fields, depth: nat): Option<Fields>
    decreases depth, 3, |os|
  {
    if os == [] then Some(fields)
    else
      var o := os[|os| - 1];
      match ToOneofs(env, os[..|os| - 1], attrs, fields, depth)
      case None => None
      case Some(after) => if o.name !in attrs then None else ToOneof(env, o, attrs[o.name], after, depth)
  }

  function ToMessage(env: Env, t: PyType, attrs: map<string, Attr>, depth: nat): Option<Pb>
    requires t.PyMessage?
    decreases depth, 4
  {
    match ToFields(env, t.fields, attrs, depth)
    case None => None
    case Some(fields) =>
      match ToOneofs(env, t.oneofs, attrs, fields, depth)
      case None => None
      case Some(all) => Some(PbMessage(t.fullName, all))
  }

  // The from_pb mappers.

  function FromRef(env: Env, ref: TypeRef, pb: Pb, depth: nat): Option<Value>
    decreases depth, 0
  {
    match ref
    case ScalarRef(s) => if pb.PbPlain? && pb.leaf.scalar == s then Some(Plain(pb.leaf)) else None
    case EnumRef(n, _, _) => if pb.PbEnum? && IsMember(env, n, pb.number) then Some(Member(n, pb.number)) else None
    case WellKnownRef(n, _) => if pb.PbKnown? && pb.typeName == n then Some(WellKnownValue(n, pb.payload)) else None
    case MessageRef(n, _, _) =>
      if depth > 0 && pb.PbMessage? && pb.name == n && IsMessage(env, n) then FromMessage(env, env[n], pb.fields, depth - 1) else None
  }

  function FromItems(env: Env, ref: TypeRef, items: seq<Pb>, depth: nat): Option<seq<Value>>
    decreases depth, 1, |items|
  {
    if items == [] then Some([])
    else
      match (FromItems(env, ref, items[..|items| - 1], depth), FromRef(env, ref, items[|items| - 1], depth))
      case (Some(front), Some(last)) => Some(front + [last])
      case _ => None
  }

  function FromEntries(env: Env, ref: TypeRef, entries: map<Leaf, Pb>, depth: nat): Option<map<Leaf, Value>>
    decreases depth, 1
  {
    if forall k | k in entries :: FromRef(env, ref, entries[k], depth).Some?
    then Some(map k | k in entries :: FromRef(env, ref, entries[k], depth).value)
    else None
  }

  function GetSingle(fields: Fields, f: PyField): Pb {
    if f.name in fields && fields[f.name].PSingle? then fields[f.name].value else Default(f.typ)
  }

  function GetItems(fields: Fields, name: string): seq<Pb> {
    if name in fields && fields[name].PItems? then fields[name].items else []
  }

  function GetEntries(fields: Fields, name: string): map<Leaf, Pb> {
    if name in fields && fields[name].PEntries? then fields[name].entries else map[]
  }

  /** The entries of a map whose value type is unknown, as they come. */
  function RawEntries(entries: map<Leaf, Pb>): map<Leaf, Value> {
    map k | k in entries && entries[k].PbPlain? :: Plain(entries[k].leaf)
  }

  /** The keyword argument that the mapper passes for one field outside oneofs. */
  function FromField(env: Env, f: PyField, fields: Fields, depth: nat): Option<Attr>
    decreases depth, 2
  {
    if f.isRepeated then
      match FromItems(env, f.typ, GetItems(fields, f.name), depth)
      case Some(items) => Some(Items(items))
      case None => None
    else if f.isMap then
      match f.mapValue
      case None => Some(Entries(RawEntries(GetEntries(fields, f.name))))
      case Some(ref) =>
        match FromEntries(env, ref, GetEntries(fields, f.name), depth)
        case Some(entries) => Some(Entries(entries))
        case None => None
    else if UsesUnset(f) && f.name !in fields then Some(Unset)
    else
      match FromRef(env, f.typ, GetSingle(fields, f), depth)
      case Some(v) => Some(Single(v))
      case None => None
  }

  function FromFields(env: Env, fs: seq<PyField>, fields: Fields, depth: nat): Option<map<string, Attr>>
    decreases depth, 3, |fs|
  {
    if fs == [] then Some(map[])
    else
      var f := fs[|fs| - 1];
      match FromFields(env, fs[..|fs| - 1], fields, depth)
      case None => None
      case Some(attrs) =>
        if f.oneof.Some? then Some(attrs)
        else
          match FromField(env, f, fields, depth)
          case None => None
          case Some(a) => Some(attrs[f.name := a])
  }

  /** The variant whose member is set. */
  function WhichOneof(variants: seq<PyVariant>, fields: Fields): Option<PyVariant> {
    if variants == [] then None
    else if variants[0].name in fields then Some(variants[0])
    else WhichOneof(variants[1..], fields)
  }

  function FromOneof(env: Env, o: PyOneof, fields: Fields, depth: nat): Option<Attr>
    decreases depth, 2
  {
    match WhichOneof(o.variants, fields)
    case None => Some(Unset)
    case Some(variant) =>
      if variant.name !in fields || !fields[variant.name].PSingle? then None
      else
        match FromRef(env, variant.typ, fields[variant.name].value, depth)
        case Some(v) => Some(Chosen(variant.wrapper, v))
        case None => None
  }

  function FromOneofs(env: Env, os: seq<PyOneof>, fields: Fields, attrs: map<string, Attr>, depth: nat): Option<map<string, Attr>>
    decreases depth, 3, |os|
  {
    if os == [] then Some(attrs)
    else
      var o := os[|os| - 1];
      match FromOneofs(env, os[..|os| - 1], fields, attrs, depth)
      case None => None
      case Some(after) =>
        match FromOneof(env, o, fields, depth)
        case None => None
        case Some(a) => Some(after[o.name := a])
  }

  function FromMessage(env: Env, t: PyType, fields: Fields, depth: nat): Option<Value>
    requires t.PyMessage?
    decreases depth, 4
  {
    match FromFields(env, t.fields, fields, depth)
    case None => None
    case Some(attrs) =>
      match FromOneofs(env, t.oneofs, fields, attrs, depth)
      case None => None
      case Some(all) => Some(Object(t.fullName, all))
  }
}
