/**
 * The older descriptor attribute. It records a category and a default but no value type, and
 * its three-argument constructor skips the enumeration type check. The engine never reads it.
 */
module EasySettingsAttribute {
  import opened Wrappers
  import opened Values
  import opened EasySettingAttribute

  /** The two fields `categoryName` and `defaultValue`. */
  datatype LegacyDescriptor = LegacyDescriptor(categoryName: string, defaultValue: Option<Value>)

  /** The fourteen typed constructors: both arguments are stored unchanged. */
  function LegacyTyped(categoryName: string, arg: TypedArg): (r: LegacyDescriptor)
    ensures r.categoryName == categoryName
    ensures r.defaultValue == Typed(categoryName, arg).defaultValue
  {
    match arg
    case BoolArg(b) => LegacyDescriptor(categoryName, Some(BoolVal(b)))
    case CharArg(c) => LegacyDescriptor(categoryName, Some(CharVal(c)))
    case IntArg(k, i) => LegacyDescriptor(categoryName, Some(IntVal(k, i)))
    case FloatArg(k, bits) => LegacyDescriptor(categoryName, Some(FloatVal(k, bits)))
    case StringArg(s) => LegacyDescriptor(categoryName, if s.Some? then Some(StringVal(s.value)) else None)
  }

  /**
   * The three-argument constructor: the default is parsed from invariant text exactly when it is
   * non-null and the value type is not an enumeration; otherwise it is stored as given.
   */
  function LegacyWithType(categoryName: string, valueType: ValueType, defaultValue: Option<Value>,
                          fromInvariant: (ValueType, string) -> Option<Value>): (r: Result<LegacyDescriptor, Error>)
    ensures r.Ok? ==> r.value.categoryName == categoryName
    ensures defaultValue.None? || valueType.EnumType? ==> r == Ok(LegacyDescriptor(categoryName, defaultValue))
    ensures defaultValue.Some? && !valueType.EnumType? ==>
      (r.Ok? <==> defaultValue.value.StringVal? && fromInvariant(valueType, defaultValue.value.s).Some?) &&
      (r.Ok? ==> r.value.defaultValue == fromInvariant(valueType, defaultValue.value.s))
  {
    if defaultValue.Some? && !valueType.EnumType? then
      match defaultValue.value
      case StringVal(s) =>
        (match fromInvariant(valueType, s)
         case None => Err(DefaultConversionFailed(valueType, s))
         case Some(v) => Ok(LegacyDescriptor(categoryName, Some(v))))
      case _ => Err(InvalidCast)
    else
      Ok(LegacyDescriptor(categoryName, defaultValue))
  }

  /** Whenever the current constructor succeeds, the legacy one stores the same category and default. */
  lemma LegacyAgreesWhenStrictSucceeds(categoryName: string, valueType: ValueType, defaultValue: Option<Value>,
                                       fromInvariant: (ValueType, string) -> Option<Value>)
    ensures WithType(categoryName, valueType, defaultValue, fromInvariant).Ok? ==>
      LegacyWithType(categoryName, valueType, defaultValue, fromInvariant)
        == Ok(LegacyDescriptor(categoryName, WithType(categoryName, valueType, defaultValue, fromInvariant).value.defaultValue))
  {
  }

  /**
   * The only inputs the current constructor rejects and the legacy one accepts are enumeration
   * defaults of another runtime type; on every other input both fail with the same error.
   */
  lemma StrictAddsOnlyTheEnumCheck(categoryName: string, valueType: ValueType, defaultValue: Option<Value>,
                                   fromInvariant: (ValueType, string) -> Option<Value>)
    ensures var strict := WithType(categoryName, valueType, defaultValue, fromInvariant);
            var legacy := LegacyWithType(categoryName, valueType, defaultValue, fromInvariant);
            (strict.Err? && legacy.Ok?) <==>
              (defaultValue.Some? && valueType.EnumType? && TypeOf(defaultValue.value) != valueType)
    ensures var strict := WithType(categoryName, valueType, defaultValue, fromInvariant);
            var legacy := LegacyWithType(categoryName, valueType, defaultValue, fromInvariant);
            legacy.Err? ==> strict == Err(legacy.error)
  {
  }
}
