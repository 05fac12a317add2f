/** Parameter values, descriptors and the check of one against the other.
  * Doubles are a type parameter with a comparison passed in, so nothing is
  * assumed about their order: not-a-number compares false both ways. */
module Parameters {
  import opened Options

  type int64 = i: int | -0x8000_0000_0000_0000 <= i < 0x8000_0000_0000_0000

  datatype ParameterType =
    | TNotSet | TBool | TInteger | TDouble | TString
    | TByteArray | TBoolArray | TIntegerArray | TDoubleArray | TStringArray

  datatype ParameterValue<F> =
    | NotSet
    | Bool(b: bool)
    | Integer(i: int64)
    | Double(d: F)
    | String(s: string)
    | ByteArray(bytes: seq<bv8>)
    | BoolArray(bools: seq<bool>)
    | IntegerArray(ints: seq<int64>)
    | DoubleArray(doubles: seq<F>)
    | StringArray(strings: seq<string>)
  {
    function Type(): ParameterType {
      match this
      case NotSet => TNotSet
      case Bool(_) => TBool
      case Integer(_) => TInteger
      case Double(_) => TDouble
      case String(_) => TString
      case ByteArray(_) => TByteArray
      case BoolArray(_) => TBoolArray
      case IntegerArray(_) => TIntegerArray
      case DoubleArray(_) => TDoubleArray
      case StringArray(_) => TStringArray
    }

    predicate MatchesType(t: ParameterType) {
      Type() == t || Type() == TNotSet || t == TNotSet
    }
  }

  datatype ParameterDescriptor<F> = ParameterDescriptor(
    name: string,
    ty: ParameterType,
    description: string,
    additionalConstraints: string,
    readOnly: bool,
    dynamicTyping: bool,
    integerRange: Option<(int64, int64)>,
    floatingPointRange: Option<(F, F)>)

  /** The descriptor of a parameter set without a declaration. */
  function DefaultDescriptor<F>(): ParameterDescriptor<F> {
    ParameterDescriptor("", TNotSet, "", "", false, false, None, None)
  }

  datatype Parameter<F> = Parameter(name: string, value: ParameterValue<F>, descriptor: ParameterDescriptor<F>)

  datatype CheckError = WrongType(expected: ParameterType, given: ParameterType) | IntegerOutOfRange | DoubleOutOfRange

  /** None when the value satisfies the descriptor, else the first complaint. */
  function Check<F>(lt: (F, F) -> bool, d: ParameterDescriptor<F>, v: ParameterValue<F>): Option<CheckError> {
    if d.ty != TNotSet && !d.dynamicTyping && !v.MatchesType(d.ty) then Some(WrongType(d.ty, v.Type()))
    else if d.integerRange.Some? && v.Integer? && (v.i < d.integerRange.value.0 || v.i > d.integerRange.value.1) then
      Some(IntegerOutOfRange)
    else if d.floatingPointRange.Some? && v.Double?
      && (lt(v.d, d.floatingPointRange.value.0) || lt(d.floatingPointRange.value.1, v.d)) then
      Some(DoubleOutOfRange)
    else None
  }

  /** Values of each type, by how they are built. */
  predicate IsOf<F>(v: ParameterValue<F>, t: ParameterType) {
    || (t == TNotSet && v.NotSet?) || (t == TBool && v.Bool?) || (t == TInteger && v.Integer?)
    || (t == TDouble && v.Double?) || (t == TString && v.String?) || (t == TByteArray && v.ByteArray?)
    || (t == TBoolArray && v.BoolArray?) || (t == TIntegerArray && v.IntegerArray?)
    || (t == TDoubleArray && v.DoubleArray?) || (t == TStringArray && v.StringArray?)
  }

  /** The value has the declared type, or none, or any is allowed. */
  predicate TypeFits<F>(d: ParameterDescriptor<F>, v: ParameterValue<F>) {
    d.ty == TNotSet || d.dynamicTyping || v == NotSet || IsOf(v, d.ty)
  }

  predicate IntegerFits<F>(d: ParameterDescriptor<F>, v: ParameterValue<F>) {
    d.integerRange.Some? && v.Integer? ==> d.integerRange.value.0 <= v.i <= d.integerRange.value.1
  }

  predicate DoubleFits<F>(lt: (F, F) -> bool, d: ParameterDescriptor<F>, v: ParameterValue<F>) {
    d.floatingPointRange.Some? && v.Double? ==>
      !lt(v.d, d.floatingPointRange.value.0) && !lt(d.floatingPointRange.value.1, v.d)
  }

  /** The value is one the descriptor admits. */
  predicate Fits<F>(lt: (F, F) -> bool, d: ParameterDescriptor<F>, v: ParameterValue<F>) {
    TypeFits(d, v) && IntegerFits(d, v) && DoubleFits(lt, d, v)
  }

  lemma TypeMeaning<F>(v: ParameterValue<F>, t: ParameterType)
    ensures v.Type() == t <==> IsOf(v, t)
  {
  }

  /** The check passes exactly the admitted values, and complains of the type first. */
  lemma CheckMeaning<F>(lt: (F, F) -> bool, d: ParameterDescriptor<F>, v: ParameterValue<F>)
    ensures Check(lt, d, v) == None <==> Fits(lt, d, v)
    ensures !TypeFits(d, v) ==> Check(lt, d, v) == Some(WrongType(d.ty, v.Type()))
    ensures TypeFits(d, v) && !IntegerFits(d, v) ==> Check(lt, d, v) == Some(IntegerOutOfRange)
    ensures TypeFits(d, v) && !DoubleFits(lt, d, v) ==> Check(lt, d, v) == Some(DoubleOutOfRange)
  {
    TypeMeaning(v, d.ty);
    TypeMeaning(v, TNotSet);
  }

  /** A parameter set without a declaration admits every value and can be set and removed. */
  lemma DefaultAdmitsAll<F>(lt: (F, F) -> bool, v: ParameterValue<F>)
    ensures Fits(lt, DefaultDescriptor(), v) && !DefaultDescriptor<F>().readOnly
  {
  }
}
