/**
 * Text <-> value conversion as used by the engine. The library converters are parameters;
 * what is modelled is which converter the engine picks for which declared type.
 */
module Coercion {
  import opened Wrappers
  import opened Values

  /**
   * The foreign conversion routines, all culture-invariant:
   *  - convertTo(code, text): `Convert.ToBoolean/ToByte/.../ToDecimal(text, InvariantCulture)`;
   *  - fromInvariant(type, text): `TypeDescriptor.GetConverter(type).ConvertFromInvariantString(text)`;
   *  - toInvariant(type, value): `TypeDescriptor.GetConverter(type).ConvertToInvariantString(value)`
   *    applied to the property's getter.
   * `None` is the exception a converter throws on text it cannot parse, and for `toInvariant` the
   * exception the getter or the converter throws on a value it cannot write (an enumeration value
   * outside its declared members, say).
   */
  datatype Converters = Converters(
    convertTo: (TypeCode, string) -> Option<Value>,
    fromInvariant: (ValueType, string) -> Option<Value>,
    toInvariant: (ValueType, Value) -> Option<string>)

  /**
   * The conversion switch of `SetProperty` applied to a non-null text: the type code of the
   * property type, cleared for enumerations, selects `Convert.ToX`, the identity for strings
   * (`Convert.ToString` of a string), or the type's own converter.
   */
  function ParseAs(conv: Converters, t: ValueType, text: string): (r: Option<Value>)
    ensures t.EnumType? || t.OtherType? ==> r == conv.fromInvariant(t, text)
    ensures t == StringType ==> r == Some(StringVal(text))
    ensures t.BoolType? || t.CharType? || t.IntType? || t.FloatType? ==> r == conv.convertTo(TypeCodeOf(t), text)
  {
    var code := if t.EnumType? then TypeCode.Empty else TypeCodeOf(t);
    match code
    case String => Some(StringVal(text))
    case Empty => conv.fromInvariant(t, text)
    case Object => conv.fromInvariant(t, text)
    case _ => conv.convertTo(code, text)
  }

  /** A value survives being written as invariant text and read back through `SetProperty`'s switch. */
  predicate RoundTrips(conv: Converters, t: ValueType, v: Value)
  {
    conv.toInvariant(t, v).Some? && ParseAs(conv, t, conv.toInvariant(t, v).value) == Some(v)
  }
}
