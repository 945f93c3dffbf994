/**
  The element encoders the Variant codec finds in its built-in type registry
  for Null, Boolean and the 8-, 16- and 32-bit integers, laid out as OPC UA
  Part 6 (section 5.2.2) prescribes: nothing for Null, one byte 0/1 for a
  Boolean, two's complement little-endian for the integers. With this
  registry the element round trip is proved, not assumed.
*/
module BuiltInCodecs {
  import opened Wrappers
  import opened LittleEndian
  import opened DataTypes
  import opened VariantValidity
  import opened VariantCodec

  /** Null writes no bytes and reads back null without moving the cursor. */
  function NullCodec(): (c: ElementCodec)
    ensures forall v: Value :: c.accepts(v) <==> v == NullValue
    ensures c.encode(NullValue) == []
    ensures forall s: seq<bv8>, p: nat :: c.decode(s, p) == Some((NullValue, p))
  {
    ElementCodec(
      v => v == NullValue,
      v => [],
      (s, p) => Some((NullValue, p)))
  }

  /**
    JavaScript truthiness (ECMA-262 ToBoolean) of a value: null, false, 0 and
    the empty string are false; every object, array and other value is true.
  */
  function Truthy(v: Value): bool {
    match v
    case NullValue => false
    case BoolValue(b) => b
    case NumberValue(n) => n != 0
    case StringValue(s) => s != ""
    case _ => true
  }

  /**
    A Boolean is one byte, 1 for true and 0 for false; any non-zero byte reads
    back as true. A value that is not a boolean is written by its truthiness.
  */
  function BooleanCodec(): (c: ElementCodec)
    ensures forall v: Value :: c.accepts(v) <==> v.BoolValue?
    ensures forall v: Value :: |c.encode(v)| == 1
  {
    ElementCodec(
      (v: Value) => v.BoolValue?,
      (v: Value) => if Truthy(v) then [1 as bv8] else [0 as bv8],
      (s: seq<bv8>, p: nat) => if p < |s| then Some((BoolValue(s[p] != 0), p + 1)) else None)
  }

  /** The smallest and largest integer a `width`-byte field holds, signed or unsigned. */
  function Low(width: nat, signed: bool): int {
    if signed then -(Pow256(width) / 2) else 0
  }

  function High(width: nat, signed: bool): int {
    if signed then Pow256(width) / 2 - 1 else Pow256(width) - 1
  }

  /** The unsigned field value of `n`: its two's complement (`%` is Euclidean, so never negative). */
  function FieldValue(n: int, width: nat): (u: nat)
    ensures u < Pow256(width)
  {
    n % Pow256(width)
  }

  /** The integer a field value stands for: the upper half is negative when signed. */
  function FromField(u: nat, width: nat, signed: bool): int {
    if signed && u >= Pow256(width) / 2 then u - Pow256(width) else u
  }

  /** A `width`-byte little-endian integer, two's complement when `signed`. */
  function FixedWidthCodec(width: nat, signed: bool): (c: ElementCodec)
    ensures forall v: Value :: c.accepts(v) ==> v.NumberValue?
    ensures forall v: Value :: |c.encode(v)| == width
    ensures forall s: seq<bv8>, p: nat :: c.decode(s, p).Some? <==> p + width <= |s|
    ensures forall s: seq<bv8>, p: nat | p + width <= |s| ::
      c.decode(s, p).value.1 == p + width && c.decode(s, p).value.0.NumberValue?
  {
    ElementCodec(
      v => InRange(v, Low(width, signed), High(width, signed)),
      (v: Value) => ToLE(if v.NumberValue? then FieldValue(v.n, width) else 0, width),
      (s: seq<bv8>, p: nat) => if p + width <= |s| then Some((NumberValue(FromField(FromLE(s[p..p + width]), width, signed)), p + width)) else None)
  }

  /** The registry the codec consults (`factories.findBuiltInType`), for the types modelled here. */
  function StandardRegistry(dt: DataType): (r: Option<ElementCodec>)
    ensures r.Some? <==> dt == Null || dt == Boolean || IsRangeChecked(dt)
  {
    match dt
    case Null => Some(NullCodec())
    case Boolean => Some(BooleanCodec())
    case SByte => Some(FixedWidthCodec(1, true))
    case Byte => Some(FixedWidthCodec(1, false))
    case Int16 => Some(FixedWidthCodec(2, true))
    case UInt16 => Some(FixedWidthCodec(2, false))
    case Int32 => Some(FixedWidthCodec(4, true))
    case UInt32 => Some(FixedWidthCodec(4, false))
    case _ => None
  }

  // ---------------------------------------------------------------------------
  // The element codecs round-trip
  // ---------------------------------------------------------------------------

  lemma NullCodecRoundTrips()
    ensures RoundTrips(NullCodec())
  {
  }

  lemma BooleanCodecRoundTrips()
    ensures RoundTrips(BooleanCodec())
  {
    var c := BooleanCodec();
    forall v: Value, before: seq<bv8>, after: seq<bv8> | c.accepts(v)
      ensures c.decode(before + c.encode(v) + after, |before|) == Some((v, |before| + |c.encode(v)|))
    {
      assert (before + c.encode(v) + after)[|before|] == c.encode(v)[0];
    }
  }

  /** Whatever value a Boolean codec is given, its byte reads back as that value's truthiness. */
  lemma BooleanWritesTruthiness(v: Value, before: seq<bv8>, after: seq<bv8>)
    ensures var c := BooleanCodec();
      c.decode(before + c.encode(v) + after, |before|) == Some((BoolValue(Truthy(v)), |before| + 1))
  {
    var c := BooleanCodec();
    assert (before + c.encode(v) + after)[|before|] == c.encode(v)[0];
  }

  /**
    A Boolean Variant built holding the number 5 (the coercion keeps it and
    Boolean is not range-checked) goes on the wire as true.
  */
  lemma BooleanHoldingFive()
    ensures Construct(Boolean, None, NumberValue(5)) == Ok(Variant.Variant(Boolean, Scalar, NumberValue(5)))
    ensures EncodeVariant(StandardRegistry, Variant.Variant(Boolean, Scalar, NumberValue(5))) == Ok([0x01, 0x01])
    ensures DecodeVariant(StandardRegistry, [0x01, 0x01], 0) == Ok((Variant.Variant(Boolean, Scalar, BoolValue(true)), 2))
  {
    var v := Variant.Variant(Boolean, Scalar, NumberValue(5));
    assert IsValidVariant(Scalar, Boolean, NumberValue(5)) == Ok(true);
    assert EncodingByte(Boolean, Scalar) == 0x01;
    assert StandardRegistry(Boolean) == Some(BooleanCodec());
    assert BooleanCodec().encode(NumberValue(5)) == [0x01];
    assert EncodeVariant(StandardRegistry, v) == Ok([0x01] + [0x01]);
    assert [0x01 as bv8] + [0x01 as bv8] == [0x01, 0x01];
    assert DecodeTag(0x01) == Tag(1, false, false);
  }

  /** Within the field's range, reading back the two's complement gives the number. */
  lemma FieldRoundTrip(n: int, width: nat, signed: bool)
    requires width >= 1
    requires Low(width, signed) <= n <= High(width, signed)
    ensures FromField(FieldValue(n, width), width, signed) == n
  {
    if n >= 0 {
      ModSmall(n, Pow256(width));
    } else {
      ModShift(n, Pow256(width));
    }
  }

  lemma ModSmall(n: int, m: int)
    requires 0 <= n < m
    ensures n % m == n
  {
  }

  lemma ModShift(n: int, m: int)
    requires 0 <= n + m < m
    ensures n % m == n + m
  {
  }

  lemma FixedWidthOne(width: nat, signed: bool, v: Value, before: seq<bv8>, after: seq<bv8>)
    requires width >= 1
    requires FixedWidthCodec(width, signed).accepts(v)
    ensures var c := FixedWidthCodec(width, signed);
      c.decode(before + c.encode(v) + after, |before|) == Some((v, |before| + |c.encode(v)|))
  {
    var u := FieldValue(v.n, width);
    var e := ToLE(u, width);
    assert (before + e + after)[|before|..|before| + width] == e;
    FromToLE(u, width);
    FieldRoundTrip(v.n, width, signed);
  }

  lemma FixedWidthRoundTrips(width: nat, signed: bool)
    requires width >= 1
    ensures RoundTrips(FixedWidthCodec(width, signed))
  {
    var c := FixedWidthCodec(width, signed);
    forall v: Value, before: seq<bv8>, after: seq<bv8> | c.accepts(v)
      ensures c.decode(before + c.encode(v) + after, |before|) == Some((v, |before| + |c.encode(v)|))
    {
      FixedWidthOne(width, signed, v, before, after);
    }
  }

  /** Every codec in the standard registry round-trips, so the general Variant round trip applies to it. */
  lemma StandardRegistrySound()
    ensures SoundRegistry(StandardRegistry)
  {
    NullCodecRoundTrips();
    BooleanCodecRoundTrips();
    FixedWidthRoundTrips(1, true);
    FixedWidthRoundTrips(1, false);
    FixedWidthRoundTrips(2, true);
    FixedWidthRoundTrips(2, false);
    FixedWidthRoundTrips(4, true);
    FixedWidthRoundTrips(4, false);
  }

  // ---------------------------------------------------------------------------
  // Validity and the wire ranges agree
  // ---------------------------------------------------------------------------

  lemma Pow256Values()
    ensures Pow256(1) == 0x100 && Pow256(2) == 0x1_0000 && Pow256(4) == 0x1_0000_0000
  {
    Pow256Four();
  }

  /**
    For the range-checked integer types, a scalar passes isValidScalarVariant
    exactly when its registered encoder can represent it: the validity ranges
    are the wire ranges.
  */
  lemma ValidIffRepresentable(dt: DataType, v: Value)
    requires IsRangeChecked(dt)
    ensures IsValidScalarVariant(dt, v) <==> StandardRegistry(dt).value.accepts(v)
  {
    Pow256Values();
  }

  /** Every element of a valid range-checked variant is one its codec accepts. */
  lemma ValidIsAccepted(v: Variant)
    requires IsRangeChecked(v.dataType)
    requires IsValidVariant(v.arrayType, v.dataType, v.value) == Ok(true)
    ensures AcceptedBy(StandardRegistry(v.dataType).value, v)
  {
    var c := StandardRegistry(v.dataType).value;
    if v.arrayType == Array {
      forall i | 0 <= i < |v.value.items|
        ensures c.accepts(v.value.items[i])
      {
        ValidIffRepresentable(v.dataType, v.value.items[i]);
      }
    } else {
      ValidIffRepresentable(v.dataType, v.value);
    }
  }

  /**
    With the standard registry, any integer variant (scalar or array) that
    encodes decodes back to itself from wherever its bytes stand, with no
    hypothesis about the element codecs.
  */
  lemma StandardIntegerRoundTrip(v: Variant, s: seq<bv8>, p: nat)
    requires IsRangeChecked(v.dataType)
    requires IsValidVariant(v.arrayType, v.dataType, v.value) == Ok(true)
    requires v.arrayType == Array ==> |v.value.items| <= MaxUInt32
    requires var e := EncodeVariant(StandardRegistry, v);
      e.Ok? ==> p + |e.value| <= |s| && s[p..p + |e.value|] == e.value
    ensures EncodeVariant(StandardRegistry, v).Ok?
    ensures DecodeVariant(StandardRegistry, s, p) == Ok((v, p + |EncodeVariant(StandardRegistry, v).value|))
  {
    var reg: Registry := StandardRegistry;
    assert reg(v.dataType).Some?;
    assert EncodeVariant(reg, v).Ok?;
    assert SoundRegistry(reg) by { StandardRegistrySound(); }
    assert AcceptedBy(reg(v.dataType).value, v) by { ValidIsAccepted(v); }
    VariantRoundTrip(reg, v, s, p);
  }

  /** Out-of-range integers are refused by encode before anything reaches the wire. */
  lemma OutOfRangeNotEncoded(n: int)
    requires !(0 <= n <= 0xFFFF)
    ensures EncodeVariant(StandardRegistry, Variant.Variant(UInt16, Scalar, NumberValue(n))) == Err(InvalidVariant)
  {
  }
}
