/**
 * The values a settings property can hold, their runtime types, the .NET type codes the
 * conversion switch dispatches on, and the exceptions the engine can raise.
 */
module Values {

  /** The integral primitive types that have a typed attribute constructor. */
  datatype IntKind = Byte | SByte | Int16 | UInt16 | Int32 | UInt32 | Int64 | UInt64

  /** The non-integral numeric primitives; their arithmetic is not modelled. */
  datatype FloatKind = Decimal | Double | Single

  /**
   * A property's declared type. An enumeration records its name and its underlying integral
   * type; `OtherType` stands for every type the conversion switch has no case for
   * (DateTime, Guid, user classes, ...).
   */
  datatype ValueType =
    | BoolType
    | CharType
    | IntType(kind: IntKind)
    | FloatType(fkind: FloatKind)
    | StringType
    | EnumType(name: string, underlying: IntKind)
    | OtherType(typeName: string)

  /**
   * A boxed runtime value. Floating-point and decimal values are kept as an opaque bit pattern,
   * values of other types as an opaque representation.
   */
  datatype Value =
    | BoolVal(b: bool)
    | CharVal(c: char)
    | IntVal(kind: IntKind, i: int)
    | FloatVal(fkind: FloatKind, bits: int)
    | StringVal(s: string)
    | EnumVal(enumType: string, underlying: IntKind, member: string)
    | OtherVal(typeName: string, repr: string)

  /** `value.GetType()`. */
  function TypeOf(v: Value): ValueType
  {
    match v
    case BoolVal(_) => BoolType
    case CharVal(_) => CharType
    case IntVal(k, _) => IntType(k)
    case FloatVal(k, _) => FloatType(k)
    case StringVal(_) => StringType
    case EnumVal(e, u, _) => EnumType(e, u)
    case OtherVal(n, _) => OtherType(n)
  }

  /** `System.TypeCode`, restricted to the codes a settings property can report. */
  datatype TypeCode =
    | Empty | Object | Boolean | Char
    | SByte | Byte | Int16 | UInt16 | Int32 | UInt32 | Int64 | UInt64
    | Single | Double | Decimal | String

  function IntCode(k: IntKind): TypeCode
  {
    match k
    case Byte => TypeCode.Byte
    case SByte => TypeCode.SByte
    case Int16 => TypeCode.Int16
    case UInt16 => TypeCode.UInt16
    case Int32 => TypeCode.Int32
    case UInt32 => TypeCode.UInt32
    case Int64 => TypeCode.Int64
    case UInt64 => TypeCode.UInt64
  }

  /** `Type.GetTypeCode(t)`: an enumeration reports the code of its underlying integral type. */
  function TypeCodeOf(t: ValueType): TypeCode
  {
    match t
    case BoolType => TypeCode.Boolean
    case CharType => TypeCode.Char
    case IntType(k) => IntCode(k)
    case FloatType(k) =>
      (match k
       case Decimal => TypeCode.Decimal
       case Double => TypeCode.Double
       case Single => TypeCode.Single)
    case StringType => TypeCode.String
    case EnumType(_, u) => IntCode(u)
    case OtherType(_) => TypeCode.Object
  }

  /** The exceptions the modelled code can raise. */
  datatype Error =
    | InvalidRootElement(name: string)                    // ArgumentException from the root-name check
    | EnumDefaultTypeMismatch(valueType: ValueType)        // ArgumentException from the attribute
    | InvalidCast                                          // `(string)defaultValue` on a non-string
    | DefaultConversionFailed(target: ValueType, text: string) // the attribute's converter rejects its text
    | MissingDynamicDefault(property: string)              // no Defaults type or no matching property
    | MissingValueAttribute(category: string, key: string) // a Key element without a Value attribute
    | ConversionFailed(property: string, text: string)     // a stored Value that does not parse
    | InvariantTextFailed(property: string)                // the getter or the converter throws in `Save`
    | NullDocument                                         // Save on a document that was never created
}
