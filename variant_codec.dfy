/**
  The Variant wire codec (Variant_Schema.encode / decode in
  lib/datamodel/variant.js), which follows OPC UA Part 6, section 5.2.2.16:
  one encoding byte carrying the DataType ordinal and the array flag, then
  either one element or a 4-byte count followed by the elements in order.

  The per-type element encoders (`factories.findBuiltInType(...)`) are a
  registry from DataType to an encode/decode pair; the round trip of the
  whole Variant is proved from the round trip of each registered pair.
*/
module VariantCodec {
  import opened Wrappers
  import opened LittleEndian
  import opened DataTypes
  import opened VariantValidity

  // ---------------------------------------------------------------------------
  // The encoding byte
  // ---------------------------------------------------------------------------

  const ArrayMask: bv8 := 0x80
  const ArrayDimensionsMask: bv8 := 0x40
  const TypeMask: bv8 := 0x3F

  /**
    The encoding byte `encode` writes: the DataType ordinal in bits 0-5, bit 7
    for an Array; bit 6 (array dimensions) is never set.
  */
  function EncodingByte(dt: DataType, at: VariantArrayType): (b: bv8)
    ensures (b & TypeMask) as nat == Ordinal(dt)
    ensures (b & ArrayMask == ArrayMask) <==> at == Array
    ensures b & ArrayDimensionsMask == 0
  {
    var ordinal := Ordinal(dt) as bv8;
    if at == Array then ordinal | ArrayMask else ordinal
  }

  /** What `decode` reads from the encoding byte. */
  datatype Tag = Tag(ordinal: nat, isArray: bool, dimension: bool)

  function DecodeTag(b: bv8): (t: Tag)
    ensures t.ordinal < 64
  {
    Tag((b & TypeMask) as nat, b & ArrayMask == ArrayMask, b & ArrayDimensionsMask == ArrayDimensionsMask)
  }

  /** Decoding the byte `encode` writes recovers the ordinal and the array flag, with no dimensions flag. */
  lemma TagRoundTrip(dt: DataType, at: VariantArrayType)
    ensures DecodeTag(EncodingByte(dt, at)) == Tag(Ordinal(dt), at == Array, false)
  {
  }

  /** Setting the dimensions bit changes neither the ordinal nor the array flag `decode` uses. */
  lemma DimensionBitIgnored(b: bv8)
    ensures DecodeTag(b | ArrayDimensionsMask).ordinal == DecodeTag(b).ordinal
    ensures DecodeTag(b | ArrayDimensionsMask).isArray == DecodeTag(b).isArray
    ensures DecodeTag(b | ArrayDimensionsMask).dimension
  {
  }

  // ---------------------------------------------------------------------------
  // The registry of per-type element codecs
  // ---------------------------------------------------------------------------

  /**
    The encode/decode pair registered for one DataType. `decode(s, p)` reads
    an element at cursor `p` and returns it with the cursor after it, or None
    when it cannot. `accepts` is the set of values the pair represents.
  */
  datatype ElementCodec = ElementCodec(
    accepts: Value -> bool,
    encode: Value -> seq<bv8>,
    decode: (seq<bv8>, nat) -> Option<(Value, nat)>)

  /**
    Whatever bytes come before and after the encoding of an accepted value,
    decoding where it starts gives the value back and moves past exactly it.
  */
  ghost predicate RoundTrips(c: ElementCodec) {
    forall v: Value, before: seq<bv8>, after: seq<bv8> ::
      c.accepts(v) ==> c.decode(before + c.encode(v) + after, |before|) == Some((v, |before| + |c.encode(v)|))
  }

  /** `factories.findBuiltInType`: the codec registered for a DataType, if any. */
  type Registry = DataType -> Option<ElementCodec>

  ghost predicate SoundRegistry(reg: Registry) {
    forall dt | reg(dt).Some? :: RoundTrips(reg(dt).value)
  }

  /** The values a Variant carries are all ones its DataType's codec accepts. */
  predicate AcceptedBy(c: ElementCodec, v: Variant) {
    if v.arrayType == Array then
      v.value.ArrayValue? && forall i | 0 <= i < |v.value.items| :: c.accepts(v.value.items[i])
    else c.accepts(v.value)
  }

  // ---------------------------------------------------------------------------
  // Encoding
  // ---------------------------------------------------------------------------

  /** The elements' encodings, one after another in index order. */
  function EncodeElements(c: ElementCodec, items: seq<Value>): seq<bv8> {
    if items == [] then [] else EncodeElements(c, items[..|items| - 1]) + c.encode(items[|items| - 1])
  }

  /** The same concatenation, peeled from the front. */
  lemma {:induction false} EncodeElementsFront(c: ElementCodec, items: seq<Value>)
    requires items != []
    ensures EncodeElements(c, items) == c.encode(items[0]) + EncodeElements(c, items[1..])
  {
    if |items| > 1 {
      var init := items[..|items| - 1];
      EncodeElementsFront(c, init);
      assert init[1..] == items[1..][..|items[1..]| - 1];
      assert init[0] == items[0];
    } else {
      assert items[..0] == [] && items[1..] == [];
    }
  }

  /**
    Variant_Schema.encode: asserts the variant is valid, writes the encoding
    byte, looks up the element encoder and writes either the single value or a
    4-byte element count followed by each element.
  */
  function EncodeVariant(reg: Registry, v: Variant): (r: Result<seq<bv8>, CodecError>)
    ensures IsValidVariant(v.arrayType, v.dataType, v.value) != Ok(true) ==> r.Err?
    ensures IsValidVariant(v.arrayType, v.dataType, v.value) == Ok(true) && reg(v.dataType).None? ==>
      r == Err(NoEncoder(v.dataType))
    ensures r.Ok? ==> reg(v.dataType).Some? && v.arrayType != Matrix
    ensures (IsValidVariant(v.arrayType, v.dataType, v.value) == Ok(true) && reg(v.dataType).Some? &&
             (v.arrayType == Array ==> |v.value.items| <= MaxUInt32)) ==> r.Ok?
    ensures r.Ok? ==> |r.value| >= 1 && r.value[0] == EncodingByte(v.dataType, v.arrayType)
    ensures r.Ok? && v.arrayType == Scalar ==> r.value[1..] == reg(v.dataType).value.encode(v.value)
    ensures r.Ok? && v.arrayType == Array ==>
      && v.value.ArrayValue?
      && |v.value.items| <= MaxUInt32
      && |r.value| >= 5
      && r.value[1..5] == EncodeUInt32(|v.value.items|)
      && r.value[5..] == EncodeElements(reg(v.dataType).value, v.value.items)
  {
    match IsValidVariant(v.arrayType, v.dataType, v.value)
    case Err(e) => Err(e)
    case Ok(valid) =>
      if !valid then Err(InvalidVariant)
      else
        var tag := EncodingByte(v.dataType, v.arrayType);
        if reg(v.dataType).None? then Err(NoEncoder(v.dataType))
        else
          var c := reg(v.dataType).value;
          if v.arrayType == Array then
            var items := v.value.items;
            if |items| > MaxUInt32 then Err(ArrayTooLong)
            else Ok([tag] + EncodeUInt32(|items|) + EncodeElements(c, items))
          else
            Ok([tag] + c.encode(v.value))
  }

  /** A null Array value fails the isArray assertion of the validity check, so the `|| []` fallback never runs. */
  lemma NullArrayRejected(reg: Registry, dt: DataType)
    ensures EncodeVariant(reg, Variant.Variant(dt, Array, NullValue)) == Err(NotAnArray)
  {
  }

  // ---------------------------------------------------------------------------
  // Decoding
  // ---------------------------------------------------------------------------

  /** `n` elements read one after another from cursor `p`, in order, with the cursor after the last. */
  function DecodeElements(c: ElementCodec, dt: DataType, s: seq<bv8>, p: nat, n: nat): (r: Result<(seq<Value>, nat), CodecError>)
    ensures r.Ok? ==> |r.value.0| == n
    ensures r.Err? ==> r.error == ElementDecodeFailed(dt)
    decreases n
  {
    if n == 0 then Ok(([], p))
    else
      match c.decode(s, p)
      case None => Err(ElementDecodeFailed(dt))
      case Some((v, q)) =>
        match DecodeElements(c, dt, s, q, n - 1)
        case Err(e) => Err(e)
        case Ok((vs, end)) => Ok(([v] + vs, end))
  }

  /** What follows the encoding byte, once the DataType and the array flag are known. */
  function DecodeBody(c: ElementCodec, dt: DataType, isArray: bool, s: seq<bv8>, q: nat): (r: Result<(Variant, nat), CodecError>)
    ensures r.Err? ==> r.error == EndOfStream || r.error == ElementDecodeFailed(dt)
  {
    if isArray then
      match DecodeUInt32(s, q)
      case None => Err(EndOfStream)
      case Some((n, start)) =>
        match DecodeElements(c, dt, s, start, n)
        case Err(e) => Err(e)
        case Ok((items, end)) => Ok((Variant.Variant(dt, Array, ArrayValue(items)), end))
    else
      match c.decode(s, q)
      case None => Err(ElementDecodeFailed(dt))
      case Some((v, end)) => Ok((Variant.Variant(dt, Scalar, v), end))
  }

  /**
    Variant_Schema.decode at cursor `p`: reads the encoding byte, takes the
    DataType from its low six bits and the shape from bit 7 (bit 6 is read but
    not used), fails when no decoder is registered, then reads the body.
  */
  function DecodeVariant(reg: Registry, s: seq<bv8>, p: nat): (r: Result<(Variant, nat), CodecError>)
    ensures p >= |s| ==> r == Err(EndOfStream)
    ensures p < |s| && FromOrdinal((s[p] & TypeMask) as nat).None? ==>
      r == Err(UnknownDataType((s[p] & TypeMask) as nat))
    ensures (p < |s| && FromOrdinal((s[p] & TypeMask) as nat).Some? &&
             reg(FromOrdinal((s[p] & TypeMask) as nat).value).None?) ==>
      r == Err(NoDecoder(FromOrdinal((s[p] & TypeMask) as nat).value))
    ensures r.Ok? ==> p < |s|
    ensures r.Ok? ==> Some(r.value.0.dataType) == FromOrdinal((s[p] & TypeMask) as nat)
    ensures r.Ok? ==> r.value.0.arrayType != Matrix
    ensures r.Ok? ==> (r.value.0.arrayType == Array <==> s[p] & ArrayMask == ArrayMask)
    ensures r.Ok? && r.value.0.arrayType == Array ==> r.value.0.value.ArrayValue?
    ensures r.Err? ==> r.error.EndOfStream? || r.error.UnknownDataType? || r.error.NoDecoder? || r.error.ElementDecodeFailed?
  {
    if p >= |s| then Err(EndOfStream)
    else
      var tag := DecodeTag(s[p]);
      match FromOrdinal(tag.ordinal)
      case None => Err(UnknownDataType(tag.ordinal))
      case Some(dt) =>
        if reg(dt).None? then Err(NoDecoder(dt))
        else DecodeBody(reg(dt).value, dt, tag.isArray, s, p + 1)
  }

  // ---------------------------------------------------------------------------
  // Round trip
  // ---------------------------------------------------------------------------

  /** Decoding the concatenated encodings of accepted elements gives the elements back and stops right after them. */
  lemma {:induction false} ElementsRoundTrip(c: ElementCodec, dt: DataType, items: seq<Value>, s: seq<bv8>, p: nat)
    requires RoundTrips(c)
    requires forall i | 0 <= i < |items| :: c.accepts(items[i])
    requires p + |EncodeElements(c, items)| <= |s| && s[p..p + |EncodeElements(c, items)|] == EncodeElements(c, items)
    ensures DecodeElements(c, dt, s, p, |items|) == Ok((items, p + |EncodeElements(c, items)|))
  {
    if items != [] {
      var head, tail := items[0], items[1..];
      var e, rest := c.encode(head), EncodeElements(c, tail);
      assert EncodeElements(c, items) == e + rest by { EncodeElementsFront(c, items); }
      assert s[p..p + |e|] == e && s[p + |e|..p + |e| + |rest|] == rest by { SplitSlice(s, p, e, rest); }
      assert c.decode(s, p) == Some((head, p + |e|)) by { DecodeOne(c, head, s, p); }
      assert forall i | 0 <= i < |tail| :: c.accepts(tail[i]) by {
        forall i | 0 <= i < |tail| ensures c.accepts(tail[i]) {
          assert tail[i] == items[i + 1];
        }
      }
      ElementsRoundTrip(c, dt, tail, s, p + |e|);
      DecodeCons(c, dt, s, p, p + |e|, head, tail, p + |e| + |rest|);
      assert [head] + tail == items;
    }
  }

  /** Reading one more element in front of a successful run. */
  lemma DecodeCons(c: ElementCodec, dt: DataType, s: seq<bv8>, p: nat, q: nat, head: Value, tail: seq<Value>, end: nat)
    requires c.decode(s, p) == Some((head, q))
    requires DecodeElements(c, dt, s, q, |tail|) == Ok((tail, end))
    ensures DecodeElements(c, dt, s, p, |tail| + 1) == Ok(([head] + tail, end))
  {
  }

  /** One accepted element decodes from where its bytes stand. */
  lemma DecodeOne(c: ElementCodec, v: Value, s: seq<bv8>, p: nat)
    requires RoundTrips(c)
    requires c.accepts(v)
    requires p + |c.encode(v)| <= |s| && s[p..p + |c.encode(v)|] == c.encode(v)
    ensures c.decode(s, p) == Some((v, p + |c.encode(v)|))
  {
    var e := c.encode(v);
    var before, after := s[..p], s[p + |e|..];
    assert s == before + e + after;
    assert c.decode(before + e + after, |before|) == Some((v, |before| + |e|));
  }

  /** A slice holding `a + b` holds `a` and then `b`. */
  lemma SplitSlice(s: seq<bv8>, p: nat, a: seq<bv8>, b: seq<bv8>)
    requires p + |a + b| <= |s| && s[p..p + |a + b|] == a + b
    ensures s[p..p + |a|] == a
    ensures s[p + |a|..p + |a| + |b|] == b
  {
    assert s[p..p + |a|] == s[p..p + |a + b|][..|a|];
    assert s[p + |a|..p + |a| + |b|] == s[p..p + |a + b|][|a|..];
  }

  /**
    The bytes after an encoding byte that names `v`'s DataType and shape
    decode to `v` and are consumed exactly, whatever the dimensions bit says.
  */
  lemma DecodeEncodedBody(reg: Registry, v: Variant, bytes: seq<bv8>, s: seq<bv8>, p: nat)
    requires SoundRegistry(reg)
    requires EncodeVariant(reg, v) == Ok(bytes)
    requires AcceptedBy(reg(v.dataType).value, v)
    requires p + |bytes| <= |s| && s[p + 1..p + |bytes|] == bytes[1..]
    requires DecodeTag(s[p]).ordinal == Ordinal(v.dataType) && DecodeTag(s[p]).isArray == (v.arrayType == Array)
    ensures DecodeVariant(reg, s, p) == Ok((v, p + |bytes|))
  {
    OrdinalRoundTrip(v.dataType);
    var c := reg(v.dataType).value;
    assert RoundTrips(c);
    if v.arrayType == Array {
      DecodeEncodedArray(c, v, bytes, s, p);
    } else {
      DecodeEncodedScalar(c, v, bytes, s, p);
    }
  }

  lemma DecodeEncodedArray(c: ElementCodec, v: Variant, bytes: seq<bv8>, s: seq<bv8>, p: nat)
    requires RoundTrips(c)
    requires v.arrayType == Array && v.value.ArrayValue? && |v.value.items| <= MaxUInt32
    requires AcceptedBy(c, v)
    requires |bytes| >= 5 && bytes[1..5] == EncodeUInt32(|v.value.items|) && bytes[5..] == EncodeElements(c, v.value.items)
    requires p + |bytes| <= |s| && s[p + 1..p + |bytes|] == bytes[1..]
    ensures DecodeBody(c, v.dataType, true, s, p + 1) == Ok((v, p + |bytes|))
  {
    var items := v.value.items;
    var enc := EncodeElements(c, items);
    assert s[p + 1..p + 5] == s[p + 1..p + |bytes|][..4] == bytes[1..][..4] == EncodeUInt32(|items|);
    UInt32RoundTrip(|items|, s, p + 1);
    assert s[p + 5..p + 5 + |enc|] == s[p + 1..p + |bytes|][4..] == bytes[1..][4..] == enc;
    ElementsRoundTrip(c, v.dataType, items, s, p + 5);
  }

  lemma DecodeEncodedScalar(c: ElementCodec, v: Variant, bytes: seq<bv8>, s: seq<bv8>, p: nat)
    requires RoundTrips(c)
    requires v.arrayType == Scalar && c.accepts(v.value)
    requires |bytes| >= 1 && bytes[1..] == c.encode(v.value)
    requires p + |bytes| <= |s| && s[p + 1..p + |bytes|] == bytes[1..]
    ensures DecodeBody(c, v.dataType, false, s, p + 1) == Ok((v, p + |bytes|))
  {
    DecodeOne(c, v.value, s, p + 1);
  }

  /**
    Given element codecs that round-trip, decoding the bytes `encode` produced
    for a variant, wherever they stand, yields that variant (DataType, shape
    and value, empty arrays included) and consumes exactly those bytes.
  */
  lemma VariantRoundTrip(reg: Registry, v: Variant, s: seq<bv8>, p: nat)
    requires SoundRegistry(reg)
    requires EncodeVariant(reg, v).Ok?
    requires AcceptedBy(reg(v.dataType).value, v)
    requires var bytes := EncodeVariant(reg, v).value;
      p + |bytes| <= |s| && s[p..p + |bytes|] == bytes
    ensures DecodeVariant(reg, s, p) == Ok((v, p + |EncodeVariant(reg, v).value|))
  {
    var bytes := EncodeVariant(reg, v).value;
    assert s[p] == s[p..p + |bytes|][0] == bytes[0];
    assert s[p + 1..p + |bytes|] == s[p..p + |bytes|][1..];
    TagRoundTrip(v.dataType, v.arrayType);
    DecodeEncodedBody(reg, v, bytes, s, p);
  }

  /** A message whose encoding byte also carries the dimensions flag decodes to the same variant. */
  lemma DimensionFlagRoundTrip(reg: Registry, v: Variant, s: seq<bv8>, p: nat)
    requires SoundRegistry(reg)
    requires EncodeVariant(reg, v).Ok?
    requires AcceptedBy(reg(v.dataType).value, v)
    requires var bytes := EncodeVariant(reg, v).value;
      p + |bytes| <= |s| && s[p] == bytes[0] | ArrayDimensionsMask && s[p + 1..p + |bytes|] == bytes[1..]
    ensures DecodeVariant(reg, s, p) == Ok((v, p + |EncodeVariant(reg, v).value|))
  {
    var bytes := EncodeVariant(reg, v).value;
    TagRoundTrip(v.dataType, v.arrayType);
    DimensionBitIgnored(bytes[0]);
    DecodeEncodedBody(reg, v, bytes, s, p);
  }

  // ---------------------------------------------------------------------------
  // The stream and the imperative encode / decode
  // ---------------------------------------------------------------------------

  /**
    The binary stream both directions work on: encoding appends to `bytes`,
    decoding reads from `cursor` onwards.
  */
  class BinaryStream {
    var bytes: seq<bv8>
    var cursor: nat

    constructor (bytes: seq<bv8>)
      ensures this.bytes == bytes && cursor == 0
    {
      this.bytes := bytes;
      cursor := 0;
    }

    method WriteBytes(bs: seq<bv8>)
      modifies this
      ensures bytes == old(bytes) + bs && cursor == old(cursor)
    {
      bytes := bytes + bs;
    }

    /** ec.decodeUInt8: the byte at the cursor, or None at the end of the stream. */
    method ReadUInt8() returns (b: Option<bv8>)
      modifies this
      ensures bytes == old(bytes)
      ensures old(cursor) < |bytes| ==> b == Some(bytes[old(cursor)]) && cursor == old(cursor) + 1
      ensures old(cursor) >= |bytes| ==> b == None && cursor == old(cursor)
    {
      if cursor < |bytes| {
        b := Some(bytes[cursor]);
        cursor := cursor + 1;
      } else {
        b := None;
      }
    }

    /** ec.decodeUInt32 at the cursor. */
    method ReadUInt32() returns (n: Option<nat>)
      modifies this
      ensures bytes == old(bytes)
      ensures var d := DecodeUInt32(bytes, old(cursor));
        (d.Some? ==> n == Some(d.value.0) && cursor == d.value.1) && (d.None? ==> n == None && cursor == old(cursor))
    {
      var d := DecodeUInt32(bytes, cursor);
      if d.Some? {
        n := Some(d.value.0);
        cursor := d.value.1;
      } else {
        n := None;
      }
    }

    /** One element through a registered decoder, advancing the cursor past it. */
    method ReadElement(c: ElementCodec) returns (e: Option<Value>)
      modifies this
      ensures bytes == old(bytes)
      ensures var d := c.decode(bytes, old(cursor));
        (d.Some? ==> e == Some(d.value.0) && cursor == d.value.1) && (d.None? ==> e == None && cursor == old(cursor))
    {
      var d := c.decode(bytes, cursor);
      if d.Some? {
        e := Some(d.value.0);
        cursor := d.value.1;
      } else {
        e := None;
      }
    }
  }

  /** The element loop of encode: each element's bytes appended in index order. */
  method WriteElements(c: ElementCodec, items: seq<Value>, stream: BinaryStream)
    modifies stream
    ensures stream.cursor == old(stream.cursor)
    ensures stream.bytes == old(stream.bytes) + EncodeElements(c, items)
  {
    for i := 0 to |items|
      invariant stream.cursor == old(stream.cursor)
      invariant stream.bytes == old(stream.bytes) + EncodeElements(c, items[..i])
    {
      assert items[..i + 1][..i] == items[..i];
      stream.WriteBytes(c.encode(items[i]));
    }
    assert items[..|items|] == items;
  }

  /** The validity assertion encode starts with, run as the loop of isValidSArrayVariant for arrays. */
  method CheckValid(v: Variant) returns (valid: Result<bool, CodecError>)
    ensures valid == IsValidVariant(v.arrayType, v.dataType, v.value)
  {
    if v.arrayType == Array {
      valid := IsValidArrayVariant(v.dataType, v.value);
    } else {
      valid := IsValidVariant(v.arrayType, v.dataType, v.value);
    }
  }

  /**
    Variant_Schema.encode on a stream. The encoding byte is written as soon
    as the variant is found valid, before the encoder lookup, so a later
    failure (no encoder, or an array too long for its count) leaves that one
    byte behind; a validity failure writes nothing.
  */
  method Encode(reg: Registry, v: Variant, stream: BinaryStream) returns (r: Outcome<CodecError>)
    modifies stream
    ensures stream.cursor == old(stream.cursor)
    ensures EncodeVariant(reg, v).Ok? ==> r == Pass && stream.bytes == old(stream.bytes) + EncodeVariant(reg, v).value
    ensures EncodeVariant(reg, v).Err? ==> r == Fail(EncodeVariant(reg, v).error)
    ensures r.Fail? ==> (stream.bytes == old(stream.bytes) +
      (if IsValidVariant(v.arrayType, v.dataType, v.value) == Ok(true) then [EncodingByte(v.dataType, v.arrayType)] else []))
  {
    var valid := CheckValid(v);
    if valid.Err? {
      return Fail(valid.error);
    }
    if !valid.value {
      return Fail(InvalidVariant);
    }
    var tag := EncodingByte(v.dataType, v.arrayType);
    stream.WriteBytes([tag]);
    if reg(v.dataType).None? {
      return Fail(NoEncoder(v.dataType));
    }
    var c := reg(v.dataType).value;
    if v.arrayType == Array {
      var items := v.value.items;
      if |items| > MaxUInt32 {
        return Fail(ArrayTooLong);
      }
      stream.WriteBytes(EncodeUInt32(|items|));
      WriteElements(c, items, stream);
      assert stream.bytes == old(stream.bytes) + ([tag] + EncodeUInt32(|items|) + EncodeElements(c, items));
    } else {
      stream.WriteBytes(c.encode(v.value));
      assert stream.bytes == old(stream.bytes) + ([tag] + c.encode(v.value));
    }
    return Pass;
  }

  /** Puts `prefix` in front of the elements of a successful decode. */
  function Prepend(prefix: seq<Value>, r: Result<(seq<Value>, nat), CodecError>): Result<(seq<Value>, nat), CodecError> {
    match r
    case Err(e) => Err(e)
    case Ok((vs, end)) => Ok((prefix + vs, end))
  }

  /** The element loop of decode: `n` elements through the decoder, pushed in order. */
  method ReadElements(c: ElementCodec, dt: DataType, stream: BinaryStream, n: nat) returns (r: Result<seq<Value>, CodecError>)
    modifies stream
    ensures stream.bytes == old(stream.bytes)
    ensures var spec := DecodeElements(c, dt, old(stream.bytes), old(stream.cursor), n);
      && (spec.Ok? ==> r == Ok(spec.value.0) && stream.cursor == spec.value.1)
      && (spec.Err? ==> r == Err(spec.error))
  {
    ghost var s, start := stream.bytes, stream.cursor;
    var arr: seq<Value> := [];
    PrependNothing(DecodeElements(c, dt, s, start, n));
    for i := 0 to n
      invariant stream.bytes == s
      invariant |arr| == i
      invariant DecodeElements(c, dt, s, start, n) == Prepend(arr, DecodeElements(c, dt, s, stream.cursor, n - i))
    {
      ghost var here := stream.cursor;
      var element := stream.ReadElement(c);
      if element.None? {
        PrependFailure(c, dt, s, here, n - i, arr);
        return Err(ElementDecodeFailed(dt));
      }
      PrependStep(c, dt, s, here, n - i, arr);
      arr := arr + [element.value];
    }
    PrependAll(arr, stream.cursor);
    return Ok(arr);
  }

  lemma PrependNothing(r: Result<(seq<Value>, nat), CodecError>)
    ensures Prepend([], r) == r
  {
    if r.Ok? {
      assert [] + r.value.0 == r.value.0;
    }
  }

  lemma PrependAll(arr: seq<Value>, end: nat)
    ensures Prepend(arr, Ok(([], end))) == Ok((arr, end))
  {
    assert arr + [] == arr;
  }

  /** One element read: it moves from the pending run to the collected prefix. */
  lemma PrependStep(c: ElementCodec, dt: DataType, s: seq<bv8>, here: nat, k: nat, arr: seq<Value>)
    requires k >= 1 && c.decode(s, here).Some?
    ensures var (v, next) := c.decode(s, here).value;
      Prepend(arr, DecodeElements(c, dt, s, here, k)) == Prepend(arr + [v], DecodeElements(c, dt, s, next, k - 1))
  {
    var (v, next) := c.decode(s, here).value;
    var rest := DecodeElements(c, dt, s, next, k - 1);
    if rest.Ok? {
      assert arr + ([v] + rest.value.0) == (arr + [v]) + rest.value.0;
    }
  }

  /** An element that does not decode fails the whole run. */
  lemma PrependFailure(c: ElementCodec, dt: DataType, s: seq<bv8>, here: nat, k: nat, arr: seq<Value>)
    requires k >= 1 && c.decode(s, here).None?
    ensures Prepend(arr, DecodeElements(c, dt, s, here, k)) == Err(ElementDecodeFailed(dt))
  {
  }

  /**
    Variant_Schema.decode on a stream: the result is DecodeVariant's, and on
    success the cursor stands right after the variant.
  */
  method Decode(reg: Registry, stream: BinaryStream) returns (r: Result<Variant, CodecError>)
    modifies stream
    ensures stream.bytes == old(stream.bytes)
    ensures var spec := DecodeVariant(reg, old(stream.bytes), old(stream.cursor));
      && (spec.Ok? ==> r == Ok(spec.value.0) && stream.cursor == spec.value.1)
      && (spec.Err? ==> r == Err(spec.error))
  {
    ghost var s, p := stream.bytes, stream.cursor;
    var encodingByte := stream.ReadUInt8();
    if encodingByte.None? {
      return Err(EndOfStream);
    }
    var tag := DecodeTag(encodingByte.value);
    var dataType := FromOrdinal(tag.ordinal);
    if dataType.None? {
      return Err(UnknownDataType(tag.ordinal));
    }
    var dt := dataType.value;
    if reg(dt).None? {
      return Err(NoDecoder(dt));
    }
    var c := reg(dt).value;
    if tag.isArray {
      var length := stream.ReadUInt32();
      if length.None? {
        return Err(EndOfStream);
      }
      var items := ReadElements(c, dt, stream, length.value);
      if items.Err? {
        return Err(items.error);
      }
      return Ok(Variant.Variant(dt, Array, ArrayValue(items.value)));
    } else {
      var element := stream.ReadElement(c);
      if element.None? {
        return Err(ElementDecodeFailed(dt));
      }
      return Ok(Variant.Variant(dt, Scalar, element.value));
    }
  }
}
