/** The well-known protobuf types that the generators know. */
module WellKnownTypes {
  import opened Wrappers

  datatype Wrapped = BoolW | StringW | BytesW | Int32W | UInt32W | Int64W | UInt64W | FloatW | DoubleW

  datatype WellKnown =
    | EmptyType
    | TimestampType
    | DurationType
    | FieldMaskType
    | StructType
    | ListValueType
    | ValueType
    | AnyType
    | WrapperType(wrapped: Wrapped)

  const GOOGLE_PREFIX := "google.protobuf."

  predicate IsGoogleName(name: string) {
    GOOGLE_PREFIX <= name
  }

  function ShortName(t: WellKnown): string {
    match t
    case EmptyType => "Empty"
    case TimestampType => "Timestamp"
    case DurationType => "Duration"
    case FieldMaskType => "FieldMask"
    case StructType => "Struct"
    case ListValueType => "ListValue"
    case ValueType => "Value"
    case AnyType => "Any"
    case WrapperType(BoolW) => "BoolValue"
    case WrapperType(StringW) => "StringValue"
    case WrapperType(BytesW) => "BytesValue"
    case WrapperType(Int32W) => "Int32Value"
    case WrapperType(UInt32W) => "UInt32Value"
    case WrapperType(Int64W) => "Int64Value"
    case WrapperType(UInt64W) => "UInt64Value"
    case WrapperType(FloatW) => "FloatValue"
    case WrapperType(DoubleW) => "DoubleValue"
  }

  const ALL: seq<WellKnown> := [
    EmptyType, TimestampType, DurationType, FieldMaskType, StructType, ListValueType, ValueType, AnyType,
    WrapperType(BoolW), WrapperType(StringW), WrapperType(BytesW), WrapperType(Int32W), WrapperType(UInt32W),
    WrapperType(Int64W), WrapperType(UInt64W), WrapperType(FloatW), WrapperType(DoubleW)]

  function Among(types: seq<WellKnown>, short: string): Option<WellKnown> {
    if types == [] then None
    else if ShortName(types[0]) == short then Some(types[0])
    else Among(types[1..], short)
  }

  /** The supported well-known type of this full name. */
  function WellKnownOf(name: string): Option<WellKnown> {
    if IsGoogleName(name) then Among(ALL, name[|GOOGLE_PREFIX|..]) else None
  }

  predicate IsWellKnown(name: string) {
    WellKnownOf(name).Some?
  }

  /** Google's types that no generator knows. */
  predicate IsUnsupported(name: string) {
    IsGoogleName(name) && !IsWellKnown(name)
  }
}
