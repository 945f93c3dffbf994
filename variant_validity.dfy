/**
  Validity and construction of Variants (lib/datamodel/variant.js): the range
  checks of isValidScalarVariant / isValidSArrayVariant / isValidVariant, the
  coercion coerceVariantType applies before validation, and the construction
  hook that runs both on the options a Variant is built from.
*/
module VariantValidity {
  import opened Wrappers
  import opened DataTypes

  // ---------------------------------------------------------------------------
  // Range checks (isValidScalarVariant and the ec.isValidXxx helpers)
  // ---------------------------------------------------------------------------

  /**
    A number within `lo..hi`. The `ec.isValidXxx` helpers are not part of
    this model; they are taken to be plain range checks that any value other
    than a number fails.
  */
  predicate InRange(v: Value, lo: int, hi: int) {
    v.NumberValue? && lo <= v.n <= hi
  }

  /**
    isValidScalarVariant: the six integer DataTypes are range-checked, every
    other DataType is valid. A small non-negative number passes every check;
    the unsigned types reject negative numbers.
  */
  function IsValidScalarVariant(dt: DataType, v: Value): (ok: bool)
    ensures !IsRangeChecked(dt) ==> ok
    ensures IsRangeChecked(dt) && ok ==> v.NumberValue?
    ensures ok && dt in {Byte, UInt16, UInt32} ==> v.n >= 0
    ensures ok && dt in {SByte, Byte} ==> -0x80 <= v.n <= 0xFF
    ensures IsRangeChecked(dt) && v.NumberValue? && 0 <= v.n <= 0x7F ==> ok
  {
    match dt
    case UInt32 => InRange(v, 0, 0xFFFF_FFFF)
    case Int32 => InRange(v, -0x8000_0000, 0x7FFF_FFFF)
    case UInt16 => InRange(v, 0, 0xFFFF)
    case Int16 => InRange(v, -0x8000, 0x7FFF)
    case Byte => InRange(v, 0, 0xFF)
    case SByte => InRange(v, -0x80, 0x7F)
    case _ => true
  }

  /** The DataTypes that isValidScalarVariant range-checks. */
  predicate IsRangeChecked(dt: DataType) {
    dt in {SByte, Byte, Int16, UInt16, Int32, UInt32}
  }

  /** Each element is a valid scalar of the DataType. */
  predicate AllScalarValid(dt: DataType, items: seq<Value>) {
    forall i | 0 <= i < |items| :: IsValidScalarVariant(dt, items[i])
  }

  /**
    isValidVariant (and Variant.isValid, which calls it on the variant's own
    fields): a Scalar is checked as one value, an Array element by element; a
    non-array value for an Array fails the isArray assertion, and a Matrix
    calls isValidMatrixVariant, which variant.js does not define.
  */
  function IsValidVariant(at: VariantArrayType, dt: DataType, value: Value): (r: Result<bool, CodecError>)
    ensures at == Scalar ==> r == Ok(IsValidScalarVariant(dt, value))
    ensures at == Array && !value.ArrayValue? ==> r == Err(NotAnArray)
    ensures at == Array && value.ArrayValue? ==>
      (r == Ok(true) <==> forall i | 0 <= i < |value.items| :: IsValidScalarVariant(dt, value.items[i]))
    ensures at == Array && value.ArrayValue? ==> r.Ok?
    ensures at == Matrix ==> r == Err(MatrixValidityUndefined)
  {
    match at
    case Scalar => Ok(IsValidScalarVariant(dt, value))
    case Array => if value.ArrayValue? then Ok(AllScalarValid(dt, value.items)) else Err(NotAnArray)
    case Matrix => Err(MatrixValidityUndefined)
  }

  /** isValidSArrayVariant: clears an `isValid` flag for every element that is not a valid scalar. */
  method IsValidArrayVariant(dt: DataType, value: Value) returns (r: Result<bool, CodecError>)
    ensures r == IsValidVariant(Array, dt, value)
  {
    if !value.ArrayValue? {
      return Err(NotAnArray);
    }
    var items := value.items;
    var isValid := true;
    for i := 0 to |items|
      invariant isValid <==> forall j | 0 <= j < i :: IsValidScalarVariant(dt, items[j])
    {
      if !IsValidScalarVariant(dt, items[i]) {
        isValid := false;
      }
    }
    return Ok(isValid);
  }

  // ---------------------------------------------------------------------------
  // parseInt(value, 10), as the UInt32 coercion uses it
  // ---------------------------------------------------------------------------

  predicate IsDigit(c: char) { '0' <= c <= '9' }

  /** The white space and line terminators parseInt skips (section 7.1.4.1.1 of ECMA-262). */
  predicate IsSpace(c: char) {
    || c in {' ', '\t', '\n', '\r', '\U{B}', '\U{C}', '\U{A0}', '\U{FEFF}', '\U{1680}'}
    || c in {'\U{2028}', '\U{2029}', '\U{202F}', '\U{205F}', '\U{3000}'}
    || '\U{2000}' <= c <= '\U{200A}'
  }

  function DigitValue(c: char): int { c as int - '0' as int }

  /** The length of the run of decimal digits at the start of `s`. */
  function DigitRun(s: string): (k: nat)
    ensures k <= |s|
    ensures forall i | 0 <= i < k :: IsDigit(s[i])
    ensures k < |s| ==> !IsDigit(s[k])
  {
    if s != [] && IsDigit(s[0]) then 1 + DigitRun(s[1..]) else 0
  }

  /** The number written by a string of decimal digits, most significant first. */
  function DigitsValue(ds: string): int {
    if ds == [] then 0 else 10 * DigitsValue(ds[..|ds| - 1]) + DigitValue(ds[|ds| - 1])
  }

  function SkipSpaces(s: string): (t: string)
    ensures |t| <= |s| && t == s[|s| - |t|..]
    ensures t != [] ==> !IsSpace(t[0])
  {
    if s != [] && IsSpace(s[0]) then SkipSpaces(s[1..]) else s
  }

  /** The longest run of decimal digits at the start of `body`, as a number; None (NaN) when there is none. */
  function ParseDigits(body: string): Option<int> {
    var k := DigitRun(body);
    if k == 0 then None else Some(DigitsValue(body[..k]))
  }

  /** An optional sign, then digits. */
  function ParseSigned(t: string): Option<int> {
    if t != [] && t[0] == '-' then
      match ParseDigits(t[1..])
      case None => None
      case Some(m) => Some(-m)
    else if t != [] && t[0] == '+' then
      match ParseDigits(t[1..])
      case None => None
      case Some(m) => Some(m)
    else
      match ParseDigits(t)
      case None => None
      case Some(m) => Some(m)
  }

  /** The text parseInt reads its digits from: white space skipped, and one sign. */
  function DigitsStart(s: string): string {
    var t := SkipSpaces(s);
    if t != [] && (t[0] == '-' || t[0] == '+') then t[1..] else t
  }

  /**
    parseInt(s, 10): leading white space, an optional sign, then the longest
    run of decimal digits; NaN (None) exactly when no digit follows the sign.
  */
  function ParseIntString(s: string): (r: Option<int>)
    ensures r.Some? <==> DigitsStart(s) != [] && IsDigit(DigitsStart(s)[0])
  {
    ParseSigned(SkipSpaces(s))
  }

  /**
    parseInt applied to a value, which it first turns into a string. An
    integer number is read back as itself. An array's string joins its
    elements with commas, and a comma stops parseInt (ParseIntStopsAtComma),
    so only the first element counts; an empty array gives NaN. null,
    booleans and objects render as text with no leading digit, hence NaN.
  */
  function ParseInt(v: Value): (r: Option<int>)
    ensures v.NumberValue? ==> r == ParseIntString(DecimalString(v.n))
    ensures v.ArrayValue? ==> r == (if v.items == [] then None else ParseInt(v.items[0]))
    ensures v.NullValue? || v.BoolValue? || v.EnumItem? ==> r.None?
  {
    match v
    case NumberValue(n) =>
      ParseIntOfDecimalString(n);
      Some(n)
    case StringValue(s) => ParseIntString(s)
    case ArrayValue(items) => if items == [] then None else ParseInt(items[0])
    case _ => None
  }

  /** The decimal rendering `String(n)` of a natural number. */
  function Decimal(n: nat): (ds: string)
    ensures ds != [] && forall i | 0 <= i < |ds| :: IsDigit(ds[i])
  {
    var last := ('0' as int + n % 10) as char;
    if n < 10 then [last] else Decimal(n / 10) + [last]
  }

  /** `String(n)` for any integer. */
  function DecimalString(n: int): string {
    if n < 0 then "-" + Decimal(-n) else Decimal(n)
  }

  lemma {:induction false} DigitsValueOfDecimal(n: nat)
    ensures DigitsValue(Decimal(n)) == n
  {
    var ds := Decimal(n);
    if n >= 10 {
      assert ds[..|ds| - 1] == Decimal(n / 10);
      DigitsValueOfDecimal(n / 10);
    }
  }

  lemma {:induction false} DigitRunOfDigits(ds: string)
    requires forall i | 0 <= i < |ds| :: IsDigit(ds[i])
    ensures DigitRun(ds) == |ds|
  {
    if ds != [] {
      DigitRunOfDigits(ds[1..]);
    }
  }

  lemma ParseDigitsOfDigits(ds: string)
    requires ds != [] && forall i | 0 <= i < |ds| :: IsDigit(ds[i])
    ensures ParseDigits(ds) == Some(DigitsValue(ds))
  {
    DigitRunOfDigits(ds);
    assert ds[..|ds|] == ds;
  }

  lemma SkipSpacesStops(s: string)
    requires s != [] && !IsSpace(s[0])
    ensures SkipSpaces(s) == s
  {
  }

  /** Text that starts with a digit parses as its leading digits. */
  lemma LeadingDigit(ds: string)
    requires ds != [] && IsDigit(ds[0])
    ensures ParseIntString(ds) == ParseDigits(ds)
  {
    SkipSpacesStops(ds);
  }

  lemma MinusThenDigits(ds: string)
    requires ParseDigits(ds).Some?
    ensures ParseIntString("-" + ds) == Some(-ParseDigits(ds).value)
  {
    var s := "-" + ds;
    assert s[0] == '-' && s[1..] == ds;
    assert !IsSpace(s[0]);
    assert SkipSpaces(s) == s by { SkipSpacesStops(s); }
    assert ParseSigned(s) == Some(-ParseDigits(ds).value);
  }

  /** parseInt reads the decimal rendering of an integer back as that integer. */
  lemma ParseIntOfDecimalString(n: int)
    ensures ParseIntString(DecimalString(n)) == Some(n)
  {
    var m: nat := if n < 0 then -n else n;
    DigitsValueOfDecimal(m);
    ParseDigitsOfDigits(Decimal(m));
    if n < 0 {
      MinusThenDigits(Decimal(m));
    } else {
      LeadingDigit(Decimal(m));
    }
  }

  /** Skipping white space stops at a character that is not white space. */
  lemma {:induction false} SkipSpacesAppend(s: string, tail: string)
    requires tail != [] && !IsSpace(tail[0])
    ensures SkipSpaces(s + tail) == SkipSpaces(s) + tail
  {
    if s != [] {
      assert (s + tail)[0] == s[0] && (s + tail)[1..] == s[1..] + tail;
      SkipSpacesAppend(s[1..], tail);
    } else {
      assert s + tail == tail;
    }
  }

  /** A digit run stops at a character that is not a digit. */
  lemma {:induction false} DigitRunAppend(s: string, tail: string)
    requires tail != [] && !IsDigit(tail[0])
    ensures DigitRun(s + tail) == DigitRun(s)
  {
    if s != [] {
      assert (s + tail)[0] == s[0] && (s + tail)[1..] == s[1..] + tail;
      DigitRunAppend(s[1..], tail);
    } else {
      assert s + tail == tail;
    }
  }

  lemma ParseDigitsAppend(body: string, tail: string)
    requires tail != [] && !IsDigit(tail[0])
    ensures ParseDigits(body + tail) == ParseDigits(body)
  {
    DigitRunAppend(body, tail);
    var k := DigitRun(body);
    assert (body + tail)[..k] == body[..k];
  }

  /** A sign and its digits are not changed by text that starts with neither a digit nor a sign. */
  lemma ParseSignedAppend(t: string, tail: string)
    requires tail != [] && !IsDigit(tail[0]) && tail[0] != '-' && tail[0] != '+'
    ensures ParseSigned(t + tail) == ParseSigned(t)
  {
    if t == [] {
      assert t + tail == tail;
      ParseDigitsAppend(t, tail);
    } else {
      assert (t + tail)[0] == t[0] && (t + tail)[1..] == t[1..] + tail;
      if t[0] == '-' || t[0] == '+' {
        ParseDigitsAppend(t[1..], tail);
      } else {
        ParseDigitsAppend(t, tail);
      }
    }
  }

  /**
    What parseInt reads from a string is not changed by text after a comma:
    `parseInt(String([a, b]))` is `parseInt(String(a))`.
  */
  lemma ParseIntStopsAtComma(s: string, rest: string)
    ensures ParseIntString(s + [','] + rest) == ParseIntString(s)
  {
    var tail := [','] + rest;
    assert s + [','] + rest == s + tail;
    SkipSpacesAppend(s, tail);
    ParseSignedAppend(SkipSpaces(s), tail);
  }

  // ---------------------------------------------------------------------------
  // coerceVariantType
  // ---------------------------------------------------------------------------

  /** An enumeration item, as the UInt32 coercion recognises one: an object with `value` and a non-empty `key`. */
  predicate IsEnumerationLike(v: Value) {
    v.EnumItem? && v.key != ""
  }

  /**
    coerceVariantType: Null forces null; LocalizedText and QualifiedName wrap
    any value that is not already an instance of their schema (reading the
    schema of null throws); UInt32 unwraps an enumeration item or parses the
    value, and a NaN fails the isFinite assertion; every other DataType keeps
    the value as it is.
  */
  function CoerceVariantType(dt: DataType, v: Value): (r: Result<Value, CodecError>)
    ensures dt == Null ==> r == Ok(NullValue)
    ensures dt == UInt32 && IsEnumerationLike(v) ==> r == Ok(NumberValue(v.ordinal))
    ensures dt == UInt32 && r.Ok? ==> r.value.NumberValue?
    ensures (dt == LocalizedText || dt == QualifiedName) && r.Ok? ==>
      r.value.SchemaObject? && r.value.schema == dt
    ensures r.Err? ==> dt in {UInt32, LocalizedText, QualifiedName}
    ensures !(dt in {Null, UInt32, LocalizedText, QualifiedName}) ==> r == Ok(v)
    ensures dt == UInt32 && !IsEnumerationLike(v) ==>
      r == (if ParseInt(v).Some? then Ok(NumberValue(ParseInt(v).value)) else Err(NotFinite))
    ensures dt in {LocalizedText, QualifiedName} ==> (r.Err? <==> v.NullValue?)
    ensures dt in {LocalizedText, QualifiedName} && !v.NullValue? ==>
      r == Ok(if v.SchemaObject? && v.schema == dt then v else SchemaObject(dt, v))
  {
    match dt
    case Null => Ok(NullValue)
    case LocalizedText | QualifiedName =>
      if v.NullValue? then Err(NullSchemaAccess)
      else if v.SchemaObject? && v.schema == dt then Ok(v)
      else Ok(SchemaObject(dt, v))
    case UInt32 =>
      var parsed := if IsEnumerationLike(v) then Some(v.ordinal) else ParseInt(v);
      if parsed.None? then Err(NotFinite) else Ok(NumberValue(parsed.value))
    case _ => Ok(v)
  }

  /** Coercion is idempotent: a coerced value is left as it is by a second coercion. */
  lemma CoerceIdempotent(dt: DataType, v: Value)
    requires CoerceVariantType(dt, v).Ok?
    ensures CoerceVariantType(dt, CoerceVariantType(dt, v).value) == CoerceVariantType(dt, v)
  {
  }

  /** `value.map(coerceVariantType)`: the first element whose coercion throws aborts the map. */
  function CoerceAll(dt: DataType, items: seq<Value>): (r: Result<seq<Value>, CodecError>)
    ensures r.Ok? <==> forall i | 0 <= i < |items| :: CoerceVariantType(dt, items[i]).Ok?
    ensures r.Ok? ==> (|r.value| == |items| &&
      forall i | 0 <= i < |items| :: CoerceVariantType(dt, items[i]) == Ok(r.value[i]))
  {
    if items == [] then Ok([])
    else
      match CoerceVariantType(dt, items[0])
      case Err(e) => Err(e)
      case Ok(first) =>
        match CoerceAll(dt, items[1..])
        case Err(e) => Err(e)
        case Ok(rest) => Ok([first] + rest)
  }

  /** Coercing an already coerced array changes nothing. */
  lemma {:induction false} CoerceAllIdempotent(dt: DataType, items: seq<Value>)
    requires CoerceAll(dt, items).Ok?
    ensures CoerceAll(dt, CoerceAll(dt, items).value) == CoerceAll(dt, items)
  {
    var out := CoerceAll(dt, items).value;
    forall i | 0 <= i < |out|
      ensures CoerceVariantType(dt, out[i]) == Ok(out[i])
    {
      CoerceIdempotent(dt, items[i]);
    }
    var again := CoerceAll(dt, out);
    assert again.Ok?;
    assert again.value == out;
  }

  // ---------------------------------------------------------------------------
  // construct_hook
  // ---------------------------------------------------------------------------

  /**
    The Variant construct_hook builds from `dataType`, `arrayType` (None when
    the option is absent) and `value`: an Array has its elements coerced but
    not validated, a Matrix is not implemented, and anything else becomes a
    Scalar whose coerced value must be valid.
  */
  function Construct(dt: DataType, at: Option<VariantArrayType>, value: Value): (r: Result<Variant, CodecError>)
    ensures r.Ok? ==> r.value.dataType == dt
    ensures at == Some(Matrix) ==> r == Err(MatrixNotImplemented)
    ensures at == Some(Array) ==>
      (r.Ok? <==> value.ArrayValue? && CoerceAll(dt, value.items).Ok?)
    ensures at == Some(Array) && r.Ok? ==>
      r.value == Variant.Variant(dt, Array, ArrayValue(CoerceAll(dt, value.items).value))
    ensures at != Some(Array) && at != Some(Matrix) && r.Ok? ==>
      r.value.arrayType == Scalar && IsValidVariant(Scalar, dt, r.value.value) == Ok(true)
    ensures at != Some(Array) && at != Some(Matrix) ==>
      (r == Err(InvalidVariant) <==>
        CoerceVariantType(dt, value).Ok? && !IsValidScalarVariant(dt, CoerceVariantType(dt, value).value))
    ensures at != Some(Array) && at != Some(Matrix) && CoerceVariantType(dt, value).Err? ==>
      r == Err(CoerceVariantType(dt, value).error)
    ensures at != Some(Array) && at != Some(Matrix) && r.Ok? ==>
      r.value.value == CoerceVariantType(dt, value).value
  {
    if at == Some(Array) then
      if !value.ArrayValue? then Err(NotAnArray)
      else
        match CoerceAll(dt, value.items)
        case Err(e) => Err(e)
        case Ok(items) => Ok(Variant.Variant(dt, Array, ArrayValue(items)))
    else if at == Some(Matrix) then
      Err(MatrixNotImplemented)
    else
      match CoerceVariantType(dt, value)
      case Err(e) => Err(e)
      case Ok(v) =>
        if IsValidScalarVariant(dt, v) then Ok(Variant.Variant(dt, Scalar, v)) else Err(InvalidVariant)
  }

  /** A null DataType forces the value to null, whatever value was given. */
  lemma ConstructNull(value: Value)
    ensures Construct(Null, None, value) == Ok(Variant.Variant(Null, Scalar, NullValue))
    ensures Construct(Null, Some(Scalar), value) == Ok(Variant.Variant(Null, Scalar, NullValue))
  {
  }

  /** A UInt32 enumeration item is unwrapped to its number, which must then fit in 32 bits. */
  lemma ConstructEnumeration(key: string, ordinal: int)
    requires key != ""
    ensures 0 <= ordinal <= 0xFFFF_FFFF ==>
      Construct(UInt32, None, EnumItem(key, ordinal)) == Ok(Variant.Variant(UInt32, Scalar, NumberValue(ordinal)))
    ensures !(0 <= ordinal <= 0xFFFF_FFFF) ==>
      Construct(UInt32, None, EnumItem(key, ordinal)) == Err(InvalidVariant)
  {
  }

  /** Array elements are coerced but not validated: an out-of-range UInt16 array is built, and is invalid. */
  lemma ArrayElementsNotValidated()
    ensures Construct(UInt16, Some(Array), ArrayValue([NumberValue(70000)])) ==
      Ok(Variant.Variant(UInt16, Array, ArrayValue([NumberValue(70000)])))
    ensures IsValidVariant(Array, UInt16, ArrayValue([NumberValue(70000)])) == Ok(false)
  {
    assert CoerceAll(UInt16, [NumberValue(70000)]).value == [NumberValue(70000)];
  }

  /** A UInt32 given as an array is coerced through its text: `[7, 8]` reads as 7 and becomes a scalar. */
  lemma ConstructUInt32FromArray()
    ensures Construct(UInt32, None, ArrayValue([NumberValue(7), NumberValue(8)])) ==
      Ok(Variant.Variant(UInt32, Scalar, NumberValue(7)))
    ensures Construct(UInt32, None, ArrayValue([])) == Err(NotFinite)
  {
    var v := ArrayValue([NumberValue(7), NumberValue(8)]);
    assert ParseInt(v) == Some(7);
    assert CoerceVariantType(UInt32, v) == Ok(NumberValue(7));
    assert IsValidScalarVariant(UInt32, NumberValue(7));
    assert ParseInt(ArrayValue([])) == None;
  }

  /** parseInt skips non-ASCII white space such as the no-break space. */
  lemma NoBreakSpaceSkipped()
    ensures ParseIntString("\U{A0}7") == Some(7)
  {
    SkipOneSpace('\U{A0}', "7");
    assert "\U{A0}7" == ['\U{A0}'] + "7";
    LeadingDigit("7");
    ParseDigitsOfDigits("7");
  }

  /** A leading white-space character is skipped. */
  lemma SkipOneSpace(c: char, rest: string)
    requires IsSpace(c)
    ensures ParseIntString([c] + rest) == ParseIntString(rest)
  {
    assert ([c] + rest)[1..] == rest;
  }

  /** Running the hook again on the Variant it built gives back the same Variant. */
  lemma {:induction false} ConstructIdempotent(dt: DataType, at: Option<VariantArrayType>, value: Value)
    requires Construct(dt, at, value).Ok?
    ensures var v := Construct(dt, at, value).value;
      Construct(v.dataType, Some(v.arrayType), v.value) == Ok(v)
  {
    var v := Construct(dt, at, value).value;
    if at == Some(Array) {
      CoerceAllIdempotent(dt, value.items);
    } else {
      CoerceIdempotent(dt, value);
    }
  }

  /** The options object construct_hook receives and updates in place. */
  class VariantOptions {
    var dataType: DataType
    var arrayType: Option<VariantArrayType>
    var value: Value

    constructor (dataType: DataType, arrayType: Option<VariantArrayType>, value: Value)
      ensures this.dataType == dataType && this.arrayType == arrayType && this.value == value
    {
      this.dataType := dataType;
      this.arrayType := arrayType;
      this.value := value;
    }
  }

  /**
    The value the options hold after a hook that failed: the scalar branch
    stores the coerced value before its validity check throws; every other
    failure leaves the value untouched.
  */
  function ValueAfterFailure(dt: DataType, at: Option<VariantArrayType>, value: Value): Value {
    if at != Some(Array) && at != Some(Matrix) && CoerceVariantType(dt, value).Ok?
    then CoerceVariantType(dt, value).value
    else value
  }

  /**
    construct_hook: returns null for absent options; otherwise updates
    `arrayType` and `value` in place and returns the same options, or throws
    the error Construct names.
  */
  method ConstructHook(options: VariantOptions?) returns (r: Result<VariantOptions?, CodecError>)
    modifies options
    ensures options == null ==> r == Ok(null)
    ensures options != null ==> options.dataType == old(options.dataType)
    ensures options != null ==>
      var built := Construct(old(options.dataType), old(options.arrayType), old(options.value));
      && (built.Ok? ==>
            r == Ok(options) &&
            options.arrayType == Some(built.value.arrayType) && options.value == built.value.value)
      && (built.Err? ==>
            r == Err(built.error) &&
            options.arrayType == (if old(options.arrayType) in {Some(Array), Some(Matrix)}
                                  then old(options.arrayType) else Some(Scalar)) &&
            options.value == ValueAfterFailure(old(options.dataType), old(options.arrayType), old(options.value)))
  {
    if options == null {
      return Ok(null);
    }
    match options.arrayType {
    case Some(Array) =>
      if !options.value.ArrayValue? {
        return Err(NotAnArray);
      }
      var coerced := CoerceAll(options.dataType, options.value.items);
      if coerced.Err? {
        return Err(coerced.error);
      }
      options.value := ArrayValue(coerced.value);
    case Some(Matrix) =>
      return Err(MatrixNotImplemented);
    case _ =>
      options.arrayType := Some(Scalar);
      var coerced := CoerceVariantType(options.dataType, options.value);
      if coerced.Err? {
        return Err(coerced.error);
      }
      options.value := coerced.value;
      var valid := IsValidVariant(Scalar, options.dataType, options.value);
      if valid != Ok(true) {
        return Err(InvalidVariant);
      }
    }
    return Ok(options);
  }
}
