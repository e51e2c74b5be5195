/**
 JSON values, the JSON Schema keywords that the compiler emits, and what it
 means for a schema to accept a value.
 */
module JsonSchema {
  import opened Wrappers
  import opened Digits

  datatype Json =
    | JNull
    | JBool(b: bool)
    | JNumber(n: real)
    | JString(s: string)
    | JArray(items: seq<Json>)
    | JObject(fields: map<string, Json>)

  datatype JsonType = TNull | TBoolean | TInteger | TNumber | TString | TArray | TObject

  /** The three regular expressions that occur in generated schemas, or none. */
  datatype Pattern = NoPattern | SignedInteger | UnsignedInteger | Duration

  /** `"#"` or `"#/$defs/name"`. */
  datatype Ref = NoRef | RootRef | DefRef(name: string)

  /** A schema object: absent keywords are None, empty or the No... constructor. */
  datatype Schema = Schema(
    ref: Ref,
    typ: Option<JsonType>,
    types: seq<JsonType>,
    enum: seq<string>,
    pattern: Pattern,
    format: string,
    contentEncoding: string,
    items: Option<Schema>,
    properties: map<string, Schema>,
    required: seq<string>,
    additionalProperties: Option<Schema>,
    propertyNames: Option<Schema>,
    allOf: seq<Schema>,
    anyOf: seq<Schema>,
    oneOf: seq<Schema>,
    negated: Option<Schema>)

  /** The empty schema `{}`, which accepts everything. */
  const EMPTY: Schema :=
    Schema(NoRef, None, [], [], NoPattern, "", "", None, map[], [], None, None, [], [], [], None)

  function OfType(t: JsonType): Schema {
    EMPTY.(typ := Some(t))
  }

  function OfRef(r: Ref): Schema {
    EMPTY.(ref := r)
  }

  function Not(s: Schema): Schema {
    EMPTY.(negated := Some(s))
  }

  predicate HasType(t: JsonType, v: Json) {
    match t
    case TNull => v.JNull?
    case TBoolean => v.JBool?
    case TInteger => v.JNumber? && v.n.Floor as real == v.n
    case TNumber => v.JNumber?
    case TString => v.JString?
    case TArray => v.JArray?
    case TObject => v.JObject?
  }

  /** `(0|[1-9][0-9]*)` */
  predicate IsPlainInteger(s: string) {
    s == "0" || (|s| > 0 && AllDigits(s) && s[0] != '0')
  }

  predicate PatternMatches(p: Pattern, s: string) {
    match p
    case NoPattern => true
    case UnsignedInteger => IsPlainInteger(s)
    case SignedInteger => IsPlainInteger(s) || (|s| > 0 && s[0] == '-' && IsPlainInteger(s[1..]))
    case Duration => IsDuration(s)
  }

  /** `-?[0-9]+(\.[0-9]{1,9})?s` */
  predicate IsDuration(s: string) {
    var body := if |s| > 0 && s[0] == '-' then s[1..] else s;
    |body| > 1 && body[|body| - 1] == 's' && IsSeconds(body[..|body| - 1])
  }

  /** `[0-9]+(\.[0-9]{1,9})?`, of what is not empty */
  predicate IsSeconds(number: string) {
    || AllDigits(number)
    || exists dot | 0 < dot < |number| - 1 ::
         && number[dot] == '.'
         && |number| - dot - 1 <= 9
         && AllDigits(number[..dot])
         && AllDigits(number[dot + 1..])
  }

  predicate TypeAccepts(s: Schema, v: Json) {
    && (s.typ.Some? ==> HasType(s.typ.value, v))
    && (|s.types| > 0 ==> exists i | 0 <= i < |s.types| :: HasType(s.types[i], v))
  }

  predicate EnumAccepts(s: Schema, v: Json) {
    |s.enum| > 0 ==> v.JString? && v.s in s.enum
  }

  predicate PatternAccepts(s: Schema, v: Json) {
    v.JString? ==> PatternMatches(s.pattern, v.s)
  }

  /** The keywords that look at the value itself, not at its parts. */
  predicate LeafAccepts(s: Schema, v: Json) {
    TypeAccepts(s, v) && EnumAccepts(s, v) && PatternAccepts(s, v)
  }

  /** The document that references resolve against: the root schema and its `$defs`. */
  datatype Document = Document(root: Schema, defs: map<string, Schema>)

  /**
   A chain of references from one value visits a target twice when it is longer
   than this; such a chain never ends and JSON Schema gives it no result.
   */
  function MaxHops(doc: Document): nat {
    |doc.defs| + 1
  }

  predicate ExactlyOne(verdicts: seq<bool>) {
    exists i | 0 <= i < |verdicts| :: verdicts[i] && forall j | 0 <= j < |verdicts| && j != i :: !verdicts[j]
  }

  predicate RefAccepts(doc: Document, hops: nat, s: Schema, v: Json)
    decreases v, hops, s, 0
  {
    match s.ref
    case NoRef => true
    case RootRef => hops > 0 && Accepts(doc, hops - 1, doc.root, v)
    case DefRef(name) => hops > 0 && name in doc.defs && Accepts(doc, hops - 1, doc.defs[name], v)
  }

  predicate ItemsAccept(doc: Document, hops: nat, s: Schema, v: Json)
    decreases v, hops, s, 0
  {
    s.items.Some? && v.JArray? ==>
      forall i | 0 <= i < |v.items| :: Accepts(doc, MaxHops(doc), s.items.value, v.items[i])
  }

  /** Property names are only ever constrained by type, enum and pattern. */
  predicate ObjectAccepts(doc: Document, hops: nat, s: Schema, v: Json)
    decreases v, hops, s, 0
  {
    v.JObject? ==>
      && (forall k | k in s.required :: k in v.fields)
      && (forall k | k in v.fields ::
            && (k in s.properties ==> Accepts(doc, MaxHops(doc), s.properties[k], v.fields[k]))
            && (k !in s.properties && s.additionalProperties.Some? ==>
                  Accepts(doc, MaxHops(doc), s.additionalProperties.value, v.fields[k]))
            && (s.propertyNames.Some? ==> LeafAccepts(s.propertyNames.value, JString(k))))
  }

  predicate AllOfAccepts(doc: Document, hops: nat, s: Schema, v: Json)
    decreases v, hops, s, 0
  {
    forall i | 0 <= i < |s.allOf| :: Accepts(doc, hops, s.allOf[i], v)
  }

  predicate AnyOfAccepts(doc: Document, hops: nat, s: Schema, v: Json)
    decreases v, hops, s, 0
  {
    |s.anyOf| > 0 ==> exists i | 0 <= i < |s.anyOf| :: Accepts(doc, hops, s.anyOf[i], v)
  }

  function OneOfVerdicts(doc: Document, hops: nat, s: Schema, v: Json): (verdicts: seq<bool>)
    ensures |verdicts| == |s.oneOf|
    decreases v, hops, s, 0
  {
    seq(|s.oneOf|, i requires 0 <= i < |s.oneOf| => Accepts(doc, hops, s.oneOf[i], v))
  }

  predicate OneOfAccepts(doc: Document, hops: nat, s: Schema, v: Json)
    decreases v, hops, s, 1
  {
    |s.oneOf| > 0 ==> ExactlyOne(OneOfVerdicts(doc, hops, s, v))
  }

  predicate NegatedAccepts(doc: Document, hops: nat, s: Schema, v: Json)
    decreases v, hops, s, 0
  {
    s.negated.Some? ==> !Accepts(doc, hops, s.negated.value, v)
  }

  /** `v` is valid against `s` inside `doc`, following at most `hops` references before it reaches a part of `v`. */
  predicate Accepts(doc: Document, hops: nat, s: Schema, v: Json)
    decreases v, hops, s, 2
  {
    && RefAccepts(doc, hops, s, v)
    && LeafAccepts(s, v)
    && ItemsAccept(doc, hops, s, v)
    && ObjectAccepts(doc, hops, s, v)
    && AllOfAccepts(doc, hops, s, v)
    && AnyOfAccepts(doc, hops, s, v)
    && OneOfAccepts(doc, hops, s, v)
    && NegatedAccepts(doc, hops, s, v)
  }

  /** `v` is valid against the whole document. */
  predicate Validates(doc: Document, v: Json) {
    Accepts(doc, MaxHops(doc), doc.root, v)
  }

  /** Every `$defs` reference anywhere in `s` names a member of `names`. */
  predicate RefsWithin(s: Schema, names: set<string>)
    decreases s
  {
    && (s.ref.DefRef? ==> s.ref.name in names)
    && (s.items.Some? ==> RefsWithin(s.items.value, names))
    && (forall k | k in s.properties :: RefsWithin(s.properties[k], names))
    && (s.additionalProperties.Some? ==> RefsWithin(s.additionalProperties.value, names))
    && (s.propertyNames.Some? ==> RefsWithin(s.propertyNames.value, names))
    && (forall i | 0 <= i < |s.allOf| :: RefsWithin(s.allOf[i], names))
    && (forall i | 0 <= i < |s.anyOf| :: RefsWithin(s.anyOf[i], names))
    && (forall i | 0 <= i < |s.oneOf| :: RefsWithin(s.oneOf[i], names))
    && (s.negated.Some? ==> RefsWithin(s.negated.value, names))
  }
}
