/**
 What the names in a generated Python module stand for: the classes that it defines, later
 ones replacing earlier ones of the same name, and the names that a mapper reads.
 */
module PythonScopes {
  import opened Wrappers
  import opened WellKnownTypes
  import opened PythonTypes

  // Names of helper functions.

  predicate IsUpper(c: char) {
    'A' <= c <= 'Z'
  }

  predicate IsLower(c: char) {
    'a' <= c <= 'z'
  }

  function ToLower(c: char): char {
    if IsUpper(c) then ((c as int) + 32) as char else c
  }

  predicate IsSeparator(c: char) {
    c == '.' || c == '-' || c == ' '
  }

  /** An upper-case letter after a word, or before one, starts a new word. */
  predicate StartsWord(s: string, i: nat)
    requires 0 < i < |s|
  {
    && s[i - 1] != '_' && !IsSeparator(s[i - 1])
    && (IsLower(s[i - 1]) || '0' <= s[i - 1] <= '9' || (i + 1 < |s| && IsLower(s[i + 1])))
  }

  function SnakePrefix(s: string, n: nat): string
    requires n <= |s|
  {
    if n == 0 then ""
    else
      var i := n - 1;
      SnakePrefix(s, i) +
      if IsUpper(s[i]) then (if i > 0 && StartsWord(s, i) then "_" else "") + [ToLower(s[i])]
      else [if IsSeparator(s[i]) then '_' else s[i]]
  }

  /** toSnakeCase, on the ASCII letters that identifiers are made of. */
  function SnakeCase(s: string): string {
    SnakePrefix(s, |s|)
  }

  function KnownSuffix(t: WellKnown): string {
    match t
    case EmptyType => "empty"
    case TimestampType => "timestamp"
    case DurationType => "duration"
    case FieldMaskType => "field_mask"
    case StructType => "struct"
    case ListValueType => "list_value"
    case ValueType => "value"
    case AnyType => "any"
    case WrapperType(BoolW) => "bool_value"
    case WrapperType(StringW) => "string_value"
    case WrapperType(BytesW) => "bytes_value"
    case WrapperType(Int32W) => "int32_value"
    case WrapperType(UInt32W) => "uint32_value"
    case WrapperType(Int64W) => "int64_value"
    case WrapperType(UInt64W) => "uint64_value"
    case WrapperType(FloatW) => "float_value"
    case WrapperType(DoubleW) => "double_value"
  }

  /** The protobuf library's module for a well-known type. */
  function KnownModule(t: WellKnown): string {
    match t
    case AnyType => "any_pb2"
    case EmptyType => "empty_pb2"
    case TimestampType => "timestamp_pb2"
    case DurationType => "duration_pb2"
    case FieldMaskType => "field_mask_pb2"
    case WrapperType(_) => "wrappers_pb2"
    case _ => "struct_pb2"
  }

  // Classes.

  datatype ClassKey =
    | TypeClass(fullName: string)
    | BaseClass(fullName: string, oneof: string)
    | VariantClass(fullName: string, oneof: string, field: string)
    | Builtin(name: string)
    | HandlerClass(name: string)

  datatype Definition = Definition(name: string, key: ClassKey)

  function VariantDefinitions(t: PyType, o: PyOneof, variants: seq<PyVariant>): seq<Definition> {
    if variants == [] then []
    else [Definition(variants[0].wrapper, VariantClass(t.fullName, o.name, variants[0].name))] + VariantDefinitions(t, o, variants[1..])
  }

  function OneofDefinitions(t: PyType, oneofs: seq<PyOneof>): seq<Definition> {
    if oneofs == [] then []
    else
      [Definition(oneofs[0].wrapper, BaseClass(t.fullName, oneofs[0].name))]
      + VariantDefinitions(t, oneofs[0], oneofs[0].variants)
      + OneofDefinitions(t, oneofs[1..])
  }

  /** The class statements for one type, in order. */
  function TypeDefinitions(t: PyType): seq<Definition> {
    (if t.PyMessage? then OneofDefinitions(t, t.oneofs) else []) + [Definition(t.publicName, TypeClass(t.fullName))]
  }

  /** The class statements of a module: one group for each type of its own file. */
  function ClassDefinitions(types: seq<PyType>): seq<Definition> {
    if types == [] then []
    else (if types[0].owner.isCurrentFile then TypeDefinitions(types[0]) else []) + ClassDefinitions(types[1..])
  }

  /** A protocol class after the types: one for each service, one for the prompts, one for the resources. */
  datatype Handler = Handler(name: string, functions: seq<Function>)

  datatype Function = Function(name: string, parameters: seq<string>)

  const UNSET := "UNSET"
  const EMPTY_CLASS := "Empty"

  /** A whole module: UNSET and the built-in `Empty` come before the types' classes, the handlers after them. */
  function ModuleDefinitions(types: seq<PyType>, handlers: seq<Handler>): seq<Definition> {
    [Definition(UNSET, Builtin(UNSET)), Definition(EMPTY_CLASS, Builtin(EMPTY_CLASS))]
    + ClassDefinitions(types) + HandlerDefinitions(handlers)
  }

  function HandlerDefinitions(handlers: seq<Handler>): seq<Definition> {
    if handlers == [] then [] else [Definition(handlers[0].name, HandlerClass(handlers[0].name))] + HandlerDefinitions(handlers[1..])
  }

  /** What a name stands for when the module is complete: its last definition. */
  function Resolve(defs: seq<Definition>, name: string): Option<ClassKey> {
    if defs == [] then None
    else if defs[|defs| - 1].name == name then Some(defs[|defs| - 1].key)
    else Resolve(defs[..|defs| - 1], name)
  }

  /**
   What the names in a module stand for. `own` are its definitions, `imported` those of the
   modules it imports, by proto path; `protobufModule` is its name for its protobuf module,
   and `loads` says whether Python can load it at all.
   */
  datatype Scope = Scope(
    own: seq<Definition>,
    imported: map<string, seq<Definition>>,
    aliases: map<string, string>,
    protobufModule: string,
    loads: bool)
  {
    function Alias(owner: Owner): string {
      if owner.protoPath in aliases then aliases[owner.protoPath] else ""
    }

    /** The identifier that an expression for a type starts with. */
    function Root(owner: Owner, publicName: string): string {
      if owner.isCurrentFile then publicName else Alias(owner)
    }

    function TypeNamed(owner: Owner, publicName: string): Option<ClassKey> {
      if owner.isCurrentFile then Resolve(own, publicName)
      else if owner.protoPath in imported then Resolve(imported[owner.protoPath], publicName)
      else None
    }

    function Helper(prefix: string, owner: Owner, publicName: string): string {
      "_" + prefix + "_" + (if owner.isCurrentFile then "" else SnakeCase(Alias(owner)) + "_") + SnakeCase(publicName)
    }

    function KnownHelper(prefix: string, fullName: string): string {
      "_" + prefix + "_" + match WellKnownOf(fullName) case Some(t) => KnownSuffix(t) case None => ""
    }
  }

  // Resolution.

  /** No name is defined for two classes. */
  predicate NamesApart(defs: seq<Definition>) {
    forall i, j | 0 <= i < j < |defs| && defs[i].name == defs[j].name :: defs[i].key == defs[j].key
  }

  lemma {:induction false} ResolveFinds(defs: seq<Definition>, name: string)
    ensures Resolve(defs, name).Some? ==> Definition(name, Resolve(defs, name).value) in defs
    ensures Resolve(defs, name).None? ==> forall d | d in defs :: d.name != name
  {
    if defs != [] {
      ResolveFinds(defs[..|defs| - 1], name);
      assert defs == defs[..|defs| - 1] + [defs[|defs| - 1]];
    }
  }

  predicate Found(defs: seq<Definition>, d: Definition) {
    Resolve(defs, d.name) == Some(d.key)
  }

  lemma ApartIsFound(defs: seq<Definition>, d: Definition)
    requires NamesApart(defs) && d in defs
    ensures Found(defs, d)
  {
    ResolveFinds(defs, d.name);
    var e := Definition(d.name, Resolve(defs, d.name).value);
    var i :| 0 <= i < |defs| && defs[i] == d;
    var j :| 0 <= j < |defs| && defs[j] == e;
    assert i < j || j < i || i == j;
  }

  /** Every class is found under its own name exactly when no name is defined for two classes. */
  lemma AllFoundIffApart(defs: seq<Definition>)
    ensures (forall d | d in defs :: Found(defs, d)) <==> NamesApart(defs)
  {
    if NamesApart(defs) {
      forall d | d in defs {
        ApartIsFound(defs, d);
      }
    }
    if forall d | d in defs :: Found(defs, d) {
      forall i, j | 0 <= i < j < |defs| && defs[i].name == defs[j].name
        ensures defs[i].key == defs[j].key
      {
        assert Found(defs, defs[i]) && Found(defs, defs[j]);
      }
    }
  }
}
