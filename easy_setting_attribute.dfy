/**
 * The setting descriptor the engine reads from each property: its category, its value type and
 * a default that is either concrete or null (meaning "dynamic", resolved by property name).
 */
module EasySettingAttribute {
  import opened Wrappers
  import opened Values

  /** The immutable record an attribute instance holds: `CategoryName`, `DefaultValue`, `ValueType`. */
  datatype Descriptor = Descriptor(categoryName: string, defaultValue: Option<Value>, valueType: ValueType)

  /**
   * The argument of one of the typed constructors; C# picks the overload from its static type.
   * A `string` default may be null.
   */
  datatype TypedArg =
    | BoolArg(b: bool)
    | CharArg(c: char)
    | IntArg(kind: IntKind, i: int)
    | FloatArg(fkind: FloatKind, bits: int)
    | StringArg(s: Option<string>)

  /** The arguments of one attribute usage, one alternative per constructor shape. */
  datatype AttributeArgs =
    | TypedArgs(category: string, arg: TypedArg)
    | TypeOnlyArgs(category: string, valueType: ValueType)
    | ConvertingArgs(category: string, valueType: ValueType, defaultValue: Option<Value>)

  /** A concrete default is of the descriptor's value type. */
  predicate Consistent(d: Descriptor)
  {
    d.defaultValue.Some? ==> TypeOf(d.defaultValue.value) == d.valueType
  }

  /** The overload a primitive value would be passed to, if any. */
  function ArgOf(v: Value): Option<TypedArg>
  {
    match v
    case BoolVal(b) => Some(BoolArg(b))
    case CharVal(c) => Some(CharArg(c))
    case IntVal(k, i) => Some(IntArg(k, i))
    case FloatVal(k, bits) => Some(FloatArg(k, bits))
    case StringVal(s) => Some(StringArg(Some(s)))
    case _ => None
  }

  /**
   * The fourteen typed constructors: the default is the argument itself and the value type is
   * the parameter's own type. A null string default is stored as null.
   */
  function Typed(categoryName: string, arg: TypedArg): (r: Descriptor)
    ensures r.categoryName == categoryName
    ensures Consistent(r)
    ensures !r.valueType.EnumType? && !r.valueType.OtherType?
    ensures r.defaultValue.None? <==> arg == StringArg(None)
    ensures r.defaultValue.Some? ==> ArgOf(r.defaultValue.value) == Some(arg)
    ensures arg.StringArg? ==> r.valueType == StringType
  {
    match arg
    case BoolArg(b) => Descriptor(categoryName, Some(BoolVal(b)), BoolType)
    case CharArg(c) => Descriptor(categoryName, Some(CharVal(c)), CharType)
    case IntArg(k, i) => Descriptor(categoryName, Some(IntVal(k, i)), IntType(k))
    case FloatArg(k, bits) => Descriptor(categoryName, Some(FloatVal(k, bits)), FloatType(k))
    case StringArg(s) =>
      Descriptor(categoryName, if s.Some? then Some(StringVal(s.value)) else None, StringType)
  }

  /**
   * The three-argument constructor. A null default is left null (dynamic). An enumeration
   * default must be of exactly that enumeration and is stored unchanged. Any other default must
   * be a string, which the value type's converter parses.
   */
  function WithType(categoryName: string, valueType: ValueType, defaultValue: Option<Value>,
                    fromInvariant: (ValueType, string) -> Option<Value>): (r: Result<Descriptor, Error>)
    ensures r.Ok? ==> r.value.categoryName == categoryName && r.value.valueType == valueType
    ensures defaultValue.None? ==> r.Ok? && r.value.defaultValue.None?
    ensures defaultValue.Some? && valueType.EnumType? ==>
      if TypeOf(defaultValue.value) == valueType then r.Ok? && r.value.defaultValue == defaultValue
      else r == Err(EnumDefaultTypeMismatch(valueType))
    ensures defaultValue.Some? && !valueType.EnumType? ==>
      (r.Ok? <==> defaultValue.value.StringVal? && fromInvariant(valueType, defaultValue.value.s).Some?) &&
      (r.Ok? ==> r.value.defaultValue == fromInvariant(valueType, defaultValue.value.s)) &&
      (!defaultValue.value.StringVal? ==> r == Err(InvalidCast)) &&
      (defaultValue.value.StringVal? && fromInvariant(valueType, defaultValue.value.s).None? ==>
         r == Err(DefaultConversionFailed(valueType, defaultValue.value.s)))
  {
    if defaultValue.None? then
      Ok(Descriptor(categoryName, None, valueType))
    else if valueType.EnumType? then
      if TypeOf(defaultValue.value) != valueType then Err(EnumDefaultTypeMismatch(valueType))
      else Ok(Descriptor(categoryName, defaultValue, valueType))
    else
      match defaultValue.value
      case StringVal(s) =>
        (match fromInvariant(valueType, s)
         case None => Err(DefaultConversionFailed(valueType, s))
         case Some(v) => Ok(Descriptor(categoryName, Some(v), valueType)))
      case _ => Err(InvalidCast)
  }

  /** The Type-only constructor delegates with a null default: it never fails and is dynamic. */
  function TypeOnly(categoryName: string, valueType: ValueType,
                    fromInvariant: (ValueType, string) -> Option<Value>): (r: Result<Descriptor, Error>)
    ensures r == Ok(Descriptor(categoryName, None, valueType))
  {
    WithType(categoryName, valueType, None, fromInvariant)
  }

  /** Instantiating the attribute, as the runtime does each time the engine asks for it. */
  function Construct(args: AttributeArgs, fromInvariant: (ValueType, string) -> Option<Value>): (r: Result<Descriptor, Error>)
    ensures r.Ok? ==> r.value.categoryName == args.category
    ensures !args.ConvertingArgs? ==> r.Ok?
    ensures args.TypeOnlyArgs? ==> r.value.defaultValue.None? && r.value.valueType == args.valueType
  {
    match args
    case TypedArgs(c, a) => Ok(Typed(c, a))
    case TypeOnlyArgs(c, t) => TypeOnly(c, t, fromInvariant)
    case ConvertingArgs(c, t, d) => WithType(c, t, d, fromInvariant)
  }

  /** A converter that only ever produces values of the type it was asked for. */
  ghost predicate WellTypedConverter(fromInvariant: (ValueType, string) -> Option<Value>)
  {
    forall t, s :: fromInvariant(t, s).Some? ==> TypeOf(fromInvariant(t, s).value) == t
  }

  /** Every descriptor that can be constructed keeps its default of its value type. */
  lemma ConstructConsistent(args: AttributeArgs, fromInvariant: (ValueType, string) -> Option<Value>)
    requires WellTypedConverter(fromInvariant)
    ensures Construct(args, fromInvariant).Ok? ==> Consistent(Construct(args, fromInvariant).value)
  {
  }
}
