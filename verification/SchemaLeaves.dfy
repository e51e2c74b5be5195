/** What the schemas of single values and of map keys accept, spelled out. */
module SchemaLeaves {
  import opened Wrappers
  import opened Digits
  import opened JsonSchema
  import opened ProtoGraph
  import opened Rendering
  import opened SchemaMeaning
  import opened WellKnownTypes

  // Numbers.

  function Whole(n: int): Json {
    JNumber(n as real)
  }

  lemma WholeNumbers(v: Json)
    ensures HasType(TInteger, v) <==> exists n: int :: v == Whole(n)
  {
    if HasType(TInteger, v) {
      assert v == Whole(v.n.Floor);
    }
  }

  // Map keys.

  lemma {:induction false} DecimalIsPlain(n: nat)
    ensures IsPlainInteger(Decimal(n)) && (n > 0 ==> Decimal(n)[0] != '0')
  {
    if n >= 10 {
      DecimalIsPlain(n / 10);
      assert Decimal(n)[0] == Decimal(n / 10)[0];
    }
  }

  lemma {:induction false} PlainIsDecimal(s: string)
    requires |s| > 0 && AllDigits(s) && (s[0] != '0' || |s| == 1)
    ensures s == Decimal(DigitsValue(s))
    ensures s[0] != '0' ==> DigitsValue(s) > 0
    decreases |s|
  {
    var front, last := s[..|s| - 1], s[|s| - 1];
    if |s| == 1 {
      assert front == "";
      assert Digit(DigitOf(last)) == last;
      assert s == [last];
    } else {
      PlainIsDecimal(front);
      assert DigitsValue(s) == DigitsValue(front) * 10 + DigitOf(last);
      assert Digit(DigitOf(last)) == last;
      assert s == front + [last];
    }
  }

  /** The unsigned pattern matches the decimal numbers, zero included, without leading zeros. */
  lemma PlainIntegers(s: string)
    ensures IsPlainInteger(s) <==> exists n: nat :: s == Decimal(n)
  {
    if IsPlainInteger(s) {
      PlainIsDecimal(s);
    }
    if n: nat :| s == Decimal(n) {
      DecimalIsPlain(n);
    }
  }

  predicate IsSigned(key: string, n: nat) {
    key == Decimal(n) || key == "-" + Decimal(n)
  }

  lemma SignedIntegers(s: string)
    ensures PatternMatches(SignedInteger, s) <==> exists n: nat :: IsSigned(s, n)
  {
    PlainIntegers(s);
    if |s| > 0 && s[0] == '-' {
      PlainIntegers(s[1..]);
      if n: nat :| s[1..] == Decimal(n) {
        assert s == "-" + Decimal(n) && IsSigned(s, n);
      }
    }
    if n: nat :| s == Decimal(n) {
      assert IsSigned(s, n);
    }
    if n: nat :| IsSigned(s, n) {
      DecimalIsPlain(n);
      assert ("-" + Decimal(n))[1..] == Decimal(n);
    }
  }

  /** A map takes the keys of its kind: whole numbers in decimal, with a sign if the kind has one, the two truth values, or anything. */
  lemma MapKeys(k: Kind, key: string)
    requires KeySchema(k).Some?
    ensures LeafAccepts(KeySchema(k).value, JString(key)) <==>
              match k
              case KBool => key == "true" || key == "false"
              case KInt32 => exists n: nat :: IsSigned(key, n)
              case KInt64 => exists n: nat :: IsSigned(key, n)
              case KUint32 => exists n: nat :: key == Decimal(n)
              case KUint64 => exists n: nat :: key == Decimal(n)
              case _ => true
    ensures k.KString? || k.KBool? || k.KInt32? || k.KInt64? || k.KUint32? || k.KUint64?
  {
    PlainIntegers(key);
    SignedIntegers(key);
  }

  // Durations.

  /** Digits, and perhaps a point and up to nine more. */
  predicate SpellsNumber(number: string, whole: string, fraction: string) {
    && whole != "" && AllDigits(whole) && AllDigits(fraction) && |fraction| <= 9
    && number == if fraction == "" then whole else whole + ['.'] + fraction
  }

  lemma NumberParts(number: string) returns (whole: string, fraction: string)
    requires number != "" && IsSeconds(number)
    ensures SpellsNumber(number, whole, fraction)
  {
    if AllDigits(number) {
      whole, fraction := number, "";
    } else {
      var dot :| 0 < dot < |number| - 1 && number[dot] == '.' && |number| - dot - 1 <= 9
                 && AllDigits(number[..dot]) && AllDigits(number[dot + 1..]);
      whole, fraction := number[..dot], number[dot + 1..];
      CutAt(number, dot);
    }
  }

  lemma CutAt<T>(s: seq<T>, i: nat)
    requires i < |s|
    ensures s == s[..i] + [s[i]] + s[i + 1..]
  {
  }

  lemma CutsBack<T>(a: seq<T>, x: T, b: seq<T>)
    ensures (a + [x] + b)[..|a|] == a && (a + [x] + b)[|a|] == x && (a + [x] + b)[|a| + 1..] == b
  {
  }

  lemma SpelledIsNumber(number: string, whole: string, fraction: string)
    requires SpellsNumber(number, whole, fraction)
    ensures number != "" && IsSeconds(number) && IsDigit(number[0])
  {
    assert IsDigit(whole[0]);
    if fraction != "" {
      CutsBack(whole, '.', fraction);
    }
  }

  /** Perhaps a minus, a number, and an s. */
  predicate SpellsDuration(s: string, sign: string, whole: string, fraction: string) {
    && (sign == [] || sign == ['-'])
    && |sign| < |s| && sign <= s && s[|s| - 1] == 's' && SpellsNumber(s[|sign|..|s| - 1], whole, fraction)
  }

  lemma DurationIsNumber(s: string, sign: string)
    requires sign == (if |s| > 0 && s[0] == '-' then ['-'] else [])
    ensures IsDuration(s) <==> |s| > |sign| + 1 && s[|s| - 1] == 's' && IsSeconds(s[|sign|..|s| - 1])
  {
    var body := if |s| > 0 && s[0] == '-' then s[1..] else s;
    if |body| > 1 {
      assert body[..|body| - 1] == s[|sign|..|s| - 1];
    }
  }

  lemma DurationParts(s: string) returns (sign: string, whole: string, fraction: string)
    requires IsDuration(s)
    ensures SpellsDuration(s, sign, whole, fraction)
  {
    sign := if |s| > 0 && s[0] == '-' then ['-'] else [];
    DurationIsNumber(s, sign);
    whole, fraction := NumberParts(s[|sign|..|s| - 1]);
  }

  lemma SpelledIsDuration(s: string, sign: string, whole: string, fraction: string)
    requires SpellsDuration(s, sign, whole, fraction)
    ensures IsDuration(s)
  {
    SpelledIsNumber(s[|sign|..|s| - 1], whole, fraction);
    DurationIsNumber(s, sign);
  }

  /** The schema of a duration accepts exactly its ProtoJSON spellings. */
  lemma Durations(doc: Document, hops: nat, v: Json)
    ensures Accepts(doc, hops, WellKnownSchema(DurationType), v) <==>
              v.JString? && exists sign, whole, fraction :: SpellsDuration(v.s, sign, whole, fraction)
  {
    ScalarMeaning(doc, hops, WellKnownSchema(DurationType), v);
    if v.JString? && IsDuration(v.s) {
      var sign, whole, fraction := DurationParts(v.s);
    }
    if v.JString? {
      forall sign, whole, fraction | SpellsDuration(v.s, sign, whole, fraction) {
        SpelledIsDuration(v.s, sign, whole, fraction);
      }
    }
  }

  // Enums.

  lemma {:induction false} VisibleNamesExact(values: seq<EnumValue>, name: string)
    ensures name in VisibleNames(values) <==> exists e | e in values :: !e.hidden && e.name == name
    ensures VisibleNames(values) == [] <==> forall e | e in values :: e.hidden
  {
    if values != [] {
      VisibleNamesExact(values[1..], name);
      assert forall e :: e in values <==> e == values[0] || e in values[1..];
    }
  }

  ghost predicate ScalarAccepts(k: Kind, v: Json) {
    match k
    case KBool => v == JBool(true) || v == JBool(false)
    case KInt32 => exists n: int :: v == Whole(n)
    case KUint32 => exists n: int :: v == Whole(n)
    case KFloat => v.JNumber? || v == JString("NaN") || v == JString("Infinity") || v == JString("-Infinity")
    case KEnum(values) =>
      v.JString? && ((forall e | e in values :: e.hidden) || exists e | e in values :: !e.hidden && e.name == v.s)
    case _ => v.JString?
  }

  /** What the schema of a scalar or enum accepts: an enum that shows no value is not constrained. */
  lemma Scalars(doc: Document, hops: nat, k: Kind, v: Json)
    requires IsLeaf(k) && !k.KMessage?
    ensures Accepts(doc, hops, LeafSchema(k), v) <==> ScalarAccepts(k, v)
  {
    LeafMeaning(map[], false, doc, hops, k, v);
    WholeNumbers(v);
    if k.KEnum? && v.JString? {
      VisibleNamesExact(k.values, v.s);
    }
  }

  // Keywords that do not constrain.

  lemma {:induction false} AmongNamed(types: seq<WellKnown>, short: string)
    ensures Among(types, short).Some? ==> ShortName(Among(types, short).value) == short && Among(types, short).value in types
    ensures forall t | t in types && ShortName(t) == short :: Among(types, short).Some?
  {
    if types != [] {
      AmongNamed(types[1..], short);
    }
  }

  lemma AllOfThem(t: WellKnown)
    ensures t in ALL
  {
    match t
    case EmptyType => assert ALL[0] == t;
    case TimestampType => assert ALL[1] == t;
    case DurationType => assert ALL[2] == t;
    case FieldMaskType => assert ALL[3] == t;
    case StructType => assert ALL[4] == t;
    case ListValueType => assert ALL[5] == t;
    case ValueType => assert ALL[6] == t;
    case AnyType => assert ALL[7] == t;
    case WrapperType(BoolW) => assert ALL[8] == t;
    case WrapperType(StringW) => assert ALL[9] == t;
    case WrapperType(BytesW) => assert ALL[10] == t;
    case WrapperType(Int32W) => assert ALL[11] == t;
    case WrapperType(UInt32W) => assert ALL[12] == t;
    case WrapperType(Int64W) => assert ALL[13] == t;
    case WrapperType(UInt64W) => assert ALL[14] == t;
    case WrapperType(FloatW) => assert ALL[15] == t;
    case WrapperType(DoubleW) => assert ALL[16] == t;
  }

  lemma PrefixCut(short: string)
    ensures IsGoogleName(GOOGLE_PREFIX + short) && (GOOGLE_PREFIX + short)[|GOOGLE_PREFIX|..] == short
  {
  }

  /** No two of the well-known types have one name. */
  lemma ShortNamesDiffer(t: WellKnown, u: WellKnown)
    requires ShortName(t) == ShortName(u)
    ensures t == u
  {
    var n := |ShortName(t)|;
    assert n == |ShortName(u)|;
    var a, b := ShortName(t), ShortName(u);
    assert a[0] == b[0] && (n > 3 ==> a[3] == b[3]);
  }

  /** A name is known exactly if it is Google's package, a point, and the name of a type. */
  lemma KnownByName(t: WellKnown, name: string)
    ensures WellKnownOf(name) == Some(t) <==> name == "google.protobuf." + ShortName(t)
  {
    if IsGoogleName(name) {
      var short := name[|GOOGLE_PREFIX|..];
      assert name == GOOGLE_PREFIX + short;
      AmongNamed(ALL, short);
      AllOfThem(t);
      if short == ShortName(t) {
        ShortNamesDiffer(t, WellKnownOf(name).value);
      }
    }
    PrefixCut(ShortName(t));
  }

  /** Seventeen of Google's types are known, each under its full name. */
  lemma KnownNames(t: WellKnown, name: string)
    ensures var short :=
              match t
              case EmptyType => "Empty"
              case TimestampType => "Timestamp"
              case DurationType => "Duration"
              case FieldMaskType => "FieldMask"
              case StructType => "Struct"
              case ListValueType => "ListValue"
              case ValueType => "Value"
              case AnyType => "Any"
              case WrapperType(BoolW) => "BoolValue"
              case WrapperType(StringW) => "StringValue"
              case WrapperType(BytesW) => "BytesValue"
              case WrapperType(Int32W) => "Int32Value"
              case WrapperType(UInt32W) => "UInt32Value"
              case WrapperType(Int64W) => "Int64Value"
              case WrapperType(UInt64W) => "UInt64Value"
              case WrapperType(FloatW) => "FloatValue"
              case WrapperType(DoubleW) => "DoubleValue";
            WellKnownOf(name) == Some(t) <==> name == "google.protobuf." + short
  {
    KnownByName(t, name);
  }

  /** Timestamps are marked with their format, bytes with their encoding, and nothing else is marked. */
  lemma Marks(k: Kind)
    requires IsLeaf(k)
    ensures LeafSchema(k).format == if k.KMessage? && WellKnownOf(k.name) == Some(TimestampType) then "date-time" else ""
    ensures LeafSchema(k).contentEncoding ==
              if k.KBytes? || (k.KMessage? && WellKnownOf(k.name) == Some(WrapperType(BytesW))) then "base64" else ""
  {
    if k.KMessage? {
      WellKnownMarks(WellKnownOf(k.name).value);
    }
  }

  lemma WellKnownMarks(t: WellKnown)
    ensures WellKnownSchema(t).format == if t.TimestampType? then "date-time" else ""
    ensures WellKnownSchema(t).contentEncoding == if t == WrapperType(BytesW) then "base64" else ""
  {
  }
}
