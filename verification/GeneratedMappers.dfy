/**
 The mappers as Python text: what the emitted statements compute when every name is
 looked up where Python looks it up. A name that a mapper assigns anywhere is local to
 it: `message`, and for each oneof its own name and that name with `_case` behind it.
 `None` stands for an exception, and for a call of some other class.
 */
module GeneratedMappers {
  import opened Wrappers
  import opened WellKnownTypes
  import opened PythonTypes
  import opened PythonMappers
  import opened PythonScopes

  const MESSAGE := "message"
  const ENUM_HELPER := "_enum_from_pb"
  const LIST := "list"
  const DICT := "dict"

  function CaseName(oneof: string): string {
    oneof + "_case"
  }

  function OneofVariables(os: seq<PyOneof>): set<string> {
    (set o | o in os :: o.name) + (set o | o in os :: CaseName(o.name))
  }

  /** The names that a from_pb mapper treats as its own variables. */
  function LocalNames(t: PyType): set<string>
    requires t.PyMessage?
  {
    {MESSAGE} + OneofVariables(t.oneofs)
  }

  // Expressions: `locals` are the variables of the mapper that an expression stands in.

  function RunFromRef(env: Env, scope: Scope, locals: set<string>, ref: TypeRef, pb: Pb, depth: nat): Option<Value>
    decreases depth, 0
  {
    match ref
    case ScalarRef(s) => FromRef(env, ref, pb, depth)
    case EnumRef(n, publicName, owner) =>
      if ENUM_HELPER in locals || scope.Root(owner, publicName) in locals then None
      else if scope.TypeNamed(owner, publicName) != Some(TypeClass(n)) then None
      else FromRef(env, ref, pb, depth)
    case WellKnownRef(n, _) =>
      if scope.KnownHelper("from_pb", n) in locals || !EmptyClassKept(scope, n) then None
      else FromRef(env, ref, pb, depth)
    case MessageRef(n, publicName, owner) =>
      if scope.Helper("from_pb", owner, publicName) in locals then None
      else if depth > 0 && pb.PbMessage? && pb.name == n && IsMessage(env, n)
      then RunFromMessage(env, scope, env[n], pb.fields, depth - 1)
      else None
  }

  /** The helper for google.protobuf.Empty calls the module's `Empty`. */
  predicate EmptyClassKept(scope: Scope, fullName: string) {
    WellKnownOf(fullName) == Some(EmptyType) ==> Resolve(scope.own, EMPTY_CLASS) == Some(Builtin(EMPTY_CLASS))
  }

  /** No class of the module has taken the name UNSET. */
  predicate UnsetKept(scope: Scope) {
    Resolve(scope.own, UNSET) == Some(Builtin(UNSET))
  }

  function RunFromItems(env: Env, scope: Scope, locals: set<string>, ref: TypeRef, items: seq<Pb>, depth: nat): Option<seq<Value>>
    decreases depth, 1, |items|
  {
    if items == [] then Some([])
    else
      match (RunFromItems(env, scope, locals, ref, items[..|items| - 1], depth),
             RunFromRef(env, scope, locals, ref, items[|items| - 1], depth))
      case (Some(front), Some(last)) => Some(front + [last])
      case _ => None
  }

  function RunFromEntries(env: Env, scope: Scope, locals: set<string>, ref: TypeRef, entries: map<Leaf, Pb>, depth: nat)
    : Option<map<Leaf, Value>>
    decreases depth, 1
  {
    if forall k | k in entries :: RunFromRef(env, scope, locals, ref, entries[k], depth).Some?
    then Some(map k | k in entries :: RunFromRef(env, scope, locals, ref, entries[k], depth).value)
    else None
  }

  /** Lists and maps of scalars are made by the built-in functions. */
  predicate CallsBuiltin(f: PyField, locals: set<string>) {
    || (f.isRepeated && f.typ.ScalarRef? && LIST in locals)
    || (!f.isRepeated && f.isMap && (f.mapValue.None? || f.mapValue.value.ScalarRef?) && DICT in locals)
  }

  function RunFromField(env: Env, scope: Scope, locals: set<string>, f: PyField, fields: Fields, depth: nat): Option<Attr>
    decreases depth, 2
  {
    if CallsBuiltin(f, locals) then None
    else if f.isRepeated then
      match RunFromItems(env, scope, locals, f.typ, GetItems(fields, f.name), depth)
      case Some(items) => Some(Items(items))
      case None => None
    else if f.isMap then
      match f.mapValue
      case None => Some(Entries(RawEntries(GetEntries(fields, f.name))))
      case Some(ref) =>
        match RunFromEntries(env, scope, locals, ref, GetEntries(fields, f.name), depth)
        case Some(entries) => Some(Entries(entries))
        case None => None
    else if UsesUnset(f) && f.name !in fields then (if UNSET in locals || !UnsetKept(scope) then None else Some(Unset))
    else
      match RunFromRef(env, scope, locals, f.typ, GetSingle(fields, f), depth)
      case Some(v) => Some(Single(v))
      case None => None
  }

  function RunFromFields(env: Env, scope: Scope, locals: set<string>, fs: seq<PyField>, fields: Fields, depth: nat)
    : Option<map<string, Attr>>
    decreases depth, 3, |fs|
  {
    if fs == [] then Some(map[])
    else
      var f := fs[|fs| - 1];
      match RunFromFields(env, scope, locals, fs[..|fs| - 1], fields, depth)
      case None => None
      case Some(attrs) =>
        if f.oneof.Some? then Some(attrs)
        else
          match RunFromField(env, scope, locals, f, fields, depth)
          case None => None
          case Some(a) => Some(attrs[f.name := a])
  }

  // Oneofs: statements over local variables.

  datatype Local = Argument | CaseOf(member: Option<string>) | Holds(attr: Attr)

  type Locals = map<string, Local>

  /** A class statement rewrites names that begin with two underscores, unless two more end them. */
  predicate Private(name: string) {
    && |name| > 2 && name[0] == '_' && name[1] == '_'
    && !(name[|name| - 1] == '_' && name[|name| - 2] == '_')
  }

  /** A variant's class, called by its bare name. */
  predicate VariantCallable(scope: Scope, t: PyType, o: PyOneof, v: PyVariant)
    requires t.PyMessage?
  {
    && v.wrapper !in LocalNames(t) && !Private(v.name)
    && Resolve(scope.own, v.wrapper) == Some(VariantClass(t.fullName, o.name, v.name))
  }

  /** The if-elif chain over the variants, with the member that is set. */
  function RunFromVariant(env: Env, scope: Scope, t: PyType, o: PyOneof, fields: Fields, depth: nat): Option<Attr>
    requires t.PyMessage?
    decreases depth, 1
  {
    match WhichOneof(o.variants, fields)
    case None => if UnsetKept(scope) then Some(Unset) else None
    case Some(v) =>
      if v.name !in fields || !fields[v.name].PSingle? || !VariantCallable(scope, t, o, v) then None
      else
        match RunFromRef(env, scope, LocalNames(t), v.typ, fields[v.name].value, depth)
        case Some(value) => Some(Chosen(v.wrapper, value))
        case None => None
  }

  function MemberName(o: PyOneof, fields: Fields): Option<string> {
    match WhichOneof(o.variants, fields)
    case Some(v) => Some(v.name)
    case None => None
  }

  /** One oneof's statements: assign UNSET, ask the message which member is set, then the chain. */
  function RunOneof(env: Env, scope: Scope, t: PyType, o: PyOneof, fields: Fields, before: Locals, depth: nat): Option<Locals>
    requires t.PyMessage?
    decreases depth, 2
  {
    if UNSET in LocalNames(t) then None
    else
      var started := before[o.name := Holds(Unset)];
      if MESSAGE !in started || !started[MESSAGE].Argument? then None
      else
        var asked := started[CaseName(o.name) := CaseOf(MemberName(o, fields))];
        match RunFromVariant(env, scope, t, o, fields, depth)
        case None => None
        case Some(a) => Some(if a.Unset? then asked else asked[o.name := Holds(a)])
  }

  function RunOneofs(env: Env, scope: Scope, t: PyType, os: seq<PyOneof>, fields: Fields, depth: nat): Option<Locals>
    requires t.PyMessage?
    decreases depth, 3, |os|
  {
    if os == [] then Some(map[MESSAGE := Argument])
    else
      match RunOneofs(env, scope, t, os[..|os| - 1], fields, depth)
      case None => None
      case Some(before) => RunOneof(env, scope, t, os[|os| - 1], fields, before, depth)
  }

  /** What `name=name` passes to the dataclass. */
  function Passed(local: Local): Attr {
    match local
    case Holds(a) => a
    case CaseOf(Some(member)) => Stray(CaseText(member))
    case _ => Stray(Nothing)
  }

  function PassOneofs(os: seq<PyOneof>, locals: Locals, attrs: map<string, Attr>): Option<map<string, Attr>> {
    if os == [] then Some(attrs)
    else
      var o := os[|os| - 1];
      match PassOneofs(os[..|os| - 1], locals, attrs)
      case None => None
      case Some(after) => if o.name in locals then Some(after[o.name := Passed(locals[o.name])]) else None
  }

  /** A list or map called UNSET is what a later default in the same class body finds under that name. */
  predicate UnsetHidden(t: PyType)
    requires t.PyMessage?
  {
    exists i | 0 <= i < |t.fields| ::
      && t.fields[i].name == UNSET && t.fields[i].oneof.None? && (t.fields[i].isRepeated || t.fields[i].isMap)
      && (t.oneofs != [] || exists j | i < j < |t.fields| :: UsesUnset(t.fields[j]))
  }

  /** The dataclass has the fields that it is to have, under their names. */
  predicate FieldsKept(t: PyType)
    requires t.PyMessage?
  {
    && (forall f | f in t.fields && f.oneof.None? :: !Private(f.name))
    && (forall o | o in t.oneofs :: !Private(o.name))
    && !UnsetHidden(t)
  }

  predicate ClassCallable(scope: Scope, t: PyType)
    requires t.PyMessage?
  {
    && FieldsKept(t) && scope.Root(t.owner, t.publicName) !in LocalNames(t)
    && scope.TypeNamed(t.owner, t.publicName) == Some(TypeClass(t.fullName))
  }

  function RunFromMessage(env: Env, scope: Scope, t: PyType, fields: Fields, depth: nat): Option<Value>
    requires t.PyMessage?
    decreases depth, 4
  {
    match RunOneofs(env, scope, t, t.oneofs, fields, depth)
    case None => None
    case Some(locals) =>
      if !scope.loads || !ClassCallable(scope, t) then None
      else
        match RunFromFields(env, scope, LocalNames(t), t.fields, fields, depth)
        case None => None
        case Some(attrs) =>
          match PassOneofs(t.oneofs, locals, attrs)
          case None => None
          case Some(all) => Some(Object(t.fullName, all))
  }

  // to_pb: its only variables are `value`, `message`, `key` and `item`, but it tests classes by name.

  /** isinstance: a variant class is also an instance of its oneof's class. */
  predicate IsInstance(instance: ClassKey, key: ClassKey) {
    key == instance || (instance.VariantClass? && key == BaseClass(instance.fullName, instance.oneof))
  }

  /** The first branch of the chain that is taken; a name that stands for nothing raises. */
  function TakenBranch(scope: Scope, variants: seq<PyVariant>, instance: ClassKey): Option<PyVariant> {
    if variants == [] then None
    else
      match Resolve(scope.own, variants[0].wrapper)
      case None => None
      case Some(key) => if IsInstance(instance, key) then Some(variants[0]) else TakenBranch(scope, variants[1..], instance)
  }

  /** The helper for a well-known type finds the protobuf library's module, not the file's own. */
  predicate KnownModuleKept(scope: Scope, fullName: string) {
    WellKnownOf(fullName).Some? ==> KnownModule(WellKnownOf(fullName).value) != scope.protobufModule
  }

  predicate RefModuleKept(scope: Scope, ref: TypeRef) {
    ref.WellKnownRef? ==> KnownModuleKept(scope, ref.fullName)
  }

  function RunToRef(env: Env, scope: Scope, ref: TypeRef, v: Value, depth: nat): Option<Pb>
    decreases depth, 0
  {
    match ref
    case WellKnownRef(n, _) => if KnownModuleKept(scope, n) then ToRef(env, ref, v, depth) else None
    case MessageRef(n, _, _) =>
      if depth > 0 && v.Object? && v.name == n && IsMessage(env, n) then RunToMessage(env, scope, env[n], v.attrs, depth - 1) else None
    case _ => ToRef(env, ref, v, depth)
  }

  function RunToItems(env: Env, scope: Scope, ref: TypeRef, items: seq<Value>, depth: nat): Option<seq<Pb>>
    decreases depth, 1, |items|
  {
    if items == [] then Some([])
    else
      match (RunToItems(env, scope, ref, items[..|items| - 1], depth), RunToRef(env, scope, ref, items[|items| - 1], depth))
      case (Some(front), Some(last)) => Some(front + [last])
      case _ => None
  }

  function RunToEntries(env: Env, scope: Scope, ref: TypeRef, entries: map<Leaf, Value>, depth: nat): Option<map<Leaf, Pb>>
    decreases depth, 1
  {
    if forall k | k in entries :: RunToRef(env, scope, ref, entries[k], depth).Some?
    then Some(map k | k in entries :: RunToRef(env, scope, ref, entries[k], depth).value)
    else None
  }

  function RunToStray(env: Env, scope: Scope, ref: TypeRef, depth: nat): Option<Pb> {
    if RefModuleKept(scope, ref) then ToStray(env, ref, depth) else None
  }

  function RunToField(env: Env, scope: Scope, f: PyField, a: Attr, fields: Fields, depth: nat): Option<Fields>
    decreases depth, 2
  {
    if f.isRepeated then
      if !a.Items? then None
      else
        match RunToItems(env, scope, f.typ, a.items, depth)
        case Some(items) => Some(SetItems(fields, f.name, items))
        case None => None
    else if f.isMap then
      match f.mapValue
      case None => Some(fields)
      case Some(ref) =>
        if !a.Entries? then None
        else
          match RunToEntries(env, scope, ref, a.entries, depth)
          case Some(entries) => Some(SetEntries(fields, f.name, entries))
          case None => None
    else if UsesUnset(f) && a.Unset? then (if UnsetKept(scope) then Some(fields) else None)
    else if !a.Single? && !IsForeignUnset(a) then None
    else
      match if a.Single? then RunToRef(env, scope, f.typ, a.value, depth) else RunToStray(env, scope, f.typ, depth)
      case Some(pb) => Some(SetSingle(fields, f, pb))
      case None => None
  }

  function RunToFields(env: Env, scope: Scope, fs: seq<PyField>, attrs: map<string, Attr>, depth: nat): Option<Fields>
    decreases depth, 3, |fs|
  {
    if fs == [] then Some(map[])
    else
      var f := fs[|fs| - 1];
      match RunToFields(env, scope, fs[..|fs| - 1], attrs, depth)
      case None => None
      case Some(fields) =>
        if f.oneof.Some? then Some(fields)
        else if f.name !in attrs then None
        else RunToField(env, scope, f, attrs[f.name], fields, depth)
  }

  /** Only the branch of the value's own variant finds the attribute that it reads. */
  function RunToOneof(env: Env, scope: Scope, t: PyType, o: PyOneof, a: Attr, fields: Fields, depth: nat): Option<Fields>
    decreases depth, 2
  {
    if a.Unset? then (if UnsetKept(scope) then Some(fields) else None)
    else if !a.Chosen? then None
    else
      match VariantOf(o.variants, a.wrapper)
      case None => None
      case Some(variant) =>
        match TakenBranch(scope, o.variants, VariantClass(t.fullName, o.name, variant.name))
        case None => None
        case Some(branch) =>
          if branch.name != variant.name || Private(branch.name) then None
          else
            match RunToRef(env, scope, branch.typ, a.value, depth)
            case None => None
            case Some(pb) => Some((fields - VariantNames(o.variants))[branch.name := PSingle(pb)])
  }

  function RunToOneofs(env: Env, scope: Scope, t: PyType, os: seq<PyOneof>, attrs: map<string, Attr>, fields: Fields, depth: nat)
    : Option<Fields>
    decreases depth, 3, |os|
  {
    if os == [] then Some(fields)
    else
      var o := os[|os| - 1];
      match RunToOneofs(env, scope, t, os[..|os| - 1], attrs, fields, depth)
      case None => None
      case Some(after) => if o.name !in attrs then None else RunToOneof(env, scope, t, o, attrs[o.name], after, depth)
  }

  function RunToMessage(env: Env, scope: Scope, t: PyType, attrs: map<string, Attr>, depth: nat): Option<Pb>
    requires t.PyMessage?
    decreases depth, 4
  {
    match if scope.loads && FieldsKept(t) then RunToFields(env, scope, t.fields, attrs, depth) else None
    case None => None
    case Some(fields) =>
      match RunToOneofs(env, scope, t, t.oneofs, attrs, fields, depth)
      case None => None
      case Some(all) => Some(PbMessage(t.fullName, all))
  }
}
