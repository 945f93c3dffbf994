# node-opcua Variant codec and TCP transport, modelled in Dafny

This project models two pieces of the node-opcua stack.

- **The Variant** (`lib/datamodel/variant.js`). This is the self-describing value of
  OPC UA: a DataType, an array shape and a value. The model covers:
  - the coercion of raw values (`coerceVariantType`);
  - the range checks (`isValidScalarVariant`, `isValidSArrayVariant`, `isValidVariant`);
  - the construction hook;
  - the binary codec (`Variant_Schema.encode` / `decode`). It writes one encoding byte with
    the DataType ordinal in bits 0-5 and the array flag in bit 7 (OPC UA Part 6,
    section 5.2.2.16). Then it writes either one element, or a 4-byte little-endian count
    followed by the elements.
- **The TCP transport** (`lib/transport/tcp_transport.js`). This is the object that owns a
  socket and frames chunks onto it. The model covers:
  - sending: a single pending chunk from `createChunk`, committed by `write`;
  - receiving: a one-shot receiver, settled by data, end, error or timeout, or continuous
    delivery to a packet assembler;
  - teardown: `disconnect` and the peer closing the socket.

Modules:

| file | module | what it holds |
|---|---|---|
| `wrappers.dfy` | `Wrappers` | `Option`, `Result`, `Outcome` |
| `little_endian.dfy` | `LittleEndian` | fixed-width little-endian integers, the UInt32 read/write round trip |
| `data_types.dfy` | `DataTypes` | the DataType and VariantArrayType enumerations, JavaScript values, the Variant record, codec errors |
| `variant_validity.dfy` | `VariantValidity` | range checks, `parseInt`, coercion, `construct_hook` |
| `variant_codec.dfy` | `VariantCodec` | the encoding byte, encode/decode as functions and as stream methods, the round trip |
| `built_in_codecs.dfy` | `BuiltInCodecs` | a concrete registry for Null, Boolean and the 8/16/32-bit integers, proved sound |
| `chunk_header.dfy` | `ChunkHeader` | the 8-byte message header of OPC UA Part 6, section 7.1.2 |
| `tcp_transport.dfy` | `TcpTransport` | the `Transport` class and the lemmas about its receive and teardown logic |

The element encoders (`factories.findBuiltInType`) are a *registry*: a function from
DataType to an encode/decode pair. The general Variant round trip (`VariantRoundTrip`) is
proved for any registry whose pairs round-trip. `BuiltInCodecs` then builds one such
registry and proves it sound. Together these give an unconditional round trip for every
encodable integer Variant.

The transport's socket, timer, `setImmediate` and EventEmitter are not objects in the
model:
- Each socket or timer event is a method of `Transport` that the environment calls:
  `OnSocketData`, `OnSocketEnd`, `OnSocketError`, `OnTimeout`, and `RunScheduledClose` for
  the callback queued by `setImmediate`.
- What the transport hands to the outside world is kept in ghost logs:
  - chunks written to the socket;
  - data fed to the assembler;
  - one-shot deliveries;
  - disconnect calls and the callbacks they have run;
  - "close" events.
- The class invariant (`Valid`) ties these logs to the handler slots. Every method keeps it.

Notes on the code's behaviour that the model keeps:
- **Error after the encoding byte.** `encode` writes the encoding byte before it looks up
  the element encoder. A missing encoder therefore leaves that byte in the stream.
  `VariantCodec.Encode` states this byte exactly.
- **Socket errors.** A socket error only settles a waiting one-shot receiver. In
  packet-assembler mode no handler listens for errors, so no "close" follows an error; only
  the peer's end emits one.
- **Null Array value.** The `variant.value || []` fallback of `encode` cannot be reached.
  The validity assertion already rejects a non-array value (`NullArrayRejected`).
- **parseInt of an array.** `parseInt` reads its argument's text, and an array's text joins
  its elements with commas. A UInt32 given as `[7, 8]` therefore becomes the scalar 7
  (`ConstructUInt32FromArray`).

## Model

| member | source | states |
|---|---|---|
| DataTypes.Ordinal | lib/datamodel/variant.js:19-49 | every DataType has an ordinal below 26 |
| DataTypes.FromOrdinal | lib/datamodel/variant.js:267 | `DataType.get` finds a DataType exactly for the ordinals 0..25, and it is the one with that ordinal |
| DataTypes.OrdinalRoundTrip | lib/datamodel/variant.js:19-50 | looking up a DataType's ordinal gives the DataType back |
| LittleEndian.FromToLE | lib/datamodel/variant.js:201 | bytes written for a number that fits the width read back as that number |
| LittleEndian.EncodeUInt32 | lib/datamodel/variant.js:201 | a count is written as exactly four bytes; `UInt32RoundTrip` reads them back as the count |
| LittleEndian.DecodeUInt32 | lib/datamodel/variant.js:277 | reading a count succeeds exactly when four bytes remain; the value is at most 2^32-1 and the cursor moves by four |
| LittleEndian.UInt32RoundTrip | lib/datamodel/variant.js:201 | the four bytes written for a count read back as that count, whatever surrounds them |
| VariantValidity.IsValidScalarVariant | lib/datamodel/variant.js:131-149 | only the six integer types are range-checked, and they accept only numbers; the unsigned types reject negatives; the 8-bit types stay within -128..255; every small non-negative number passes every check |
| VariantValidity.IsValidVariant | lib/datamodel/variant.js:161-172 | a Scalar is valid iff its value passes the scalar range check; an Array is valid iff every element does; a non-array Array value fails the isArray assertion; a Matrix is an error, because `isValidMatrixVariant` is not defined |
| VariantValidity.IsValidArrayVariant | lib/datamodel/variant.js:150-160 | the element loop clears its flag exactly when some element is out of range, so its result agrees with `IsValidVariant(Array, …)` |
| VariantValidity.ParseIntString | lib/datamodel/variant.js:117 | `parseInt(s, 10)` gives NaN exactly when, after white space and one sign, no digit follows |
| VariantValidity.ParseInt | lib/datamodel/variant.js:117 | a number is parsed as its decimal text; an array as its first element, or NaN when empty; null, booleans and enumeration objects give NaN |
| VariantValidity.ParseIntStopsAtComma | lib/datamodel/variant.js:117 | text after a comma does not change what `parseInt` reads, which is why an array parses as its first element |
| VariantValidity.NoBreakSpaceSkipped | lib/datamodel/variant.js:117 | `parseInt` skips non-ASCII white space: a no-break space then 7 reads as 7 |
| VariantValidity.DigitRun | lib/datamodel/variant.js:117 | the leading digit run of `parseInt` is all digits, and stops at a non-digit or at the end |
| VariantValidity.ParseIntOfDecimalString | lib/datamodel/variant.js:117 | `parseInt(String(n), 10)` gives `n` back for every integer, negative ones included |
| VariantValidity.CoerceVariantType | lib/datamodel/variant.js:94-129 | Null forces null. UInt32 unwraps an enumeration item to its number; anything else gives the number `parseInt` reads from it, or NotFinite when it reads none. LocalizedText and QualifiedName fail exactly on null, keep a value already of their schema and otherwise wrap it in that schema. Every other DataType keeps the value; nothing else fails |
| VariantValidity.CoerceIdempotent | lib/datamodel/variant.js:94-129 | coercing a coerced value changes nothing |
| VariantValidity.CoerceAll | lib/datamodel/variant.js:299 | `map(coerceVariantType)` succeeds iff every element coerces; the result has the same length, and each element is that element's coercion |
| VariantValidity.CoerceAllIdempotent | lib/datamodel/variant.js:299 | coercing a coerced array again changes nothing |
| VariantValidity.Construct | lib/datamodel/variant.js:293-310 | the hook keeps the DataType. An Array is built iff the value is an array whose elements all coerce, and it holds their coercions. A Matrix is "not implemented". Anything else becomes a Scalar holding the coerced value: a coercion error is the hook's error, and the hook fails with InvalidVariant exactly when the coerced value is out of range |
| VariantValidity.ConstructNull | lib/datamodel/variant.js:97-98 | a variant built with an explicit Null dataType always holds null, whatever value was given |
| VariantValidity.ConstructEnumeration | lib/datamodel/variant.js:113-115 | a UInt32 enumeration item becomes its number, and it is rejected when outside 0..2^32-1 |
| VariantValidity.ConstructUInt32FromArray | lib/datamodel/variant.js:110-122 | a UInt32 given as `[7, 8]` is built as the scalar 7; an empty array fails the isFinite assertion |
| VariantValidity.ArrayElementsNotValidated | lib/datamodel/variant.js:296-300 | an Array's elements are coerced but not range-checked, so the hook builds an invalid UInt16 array holding 70000 |
| VariantValidity.ConstructIdempotent | lib/datamodel/variant.js:293-310 | running the hook on the Variant it built gives the same Variant |
| VariantValidity.VariantOptions.constructor | lib/datamodel/variant.js:180-182 | the options hold the given dataType, arrayType and value |
| VariantValidity.ConstructHook | lib/datamodel/variant.js:293-310 | null options give null. Otherwise the same options object is returned, updated in place with the built Variant's shape and value. A failure throws the same error as `Construct`, and leaves the shape and value the hook had already stored |
| VariantCodec.EncodingByte | lib/datamodel/variant.js:188-194 | the low six bits are the ordinal, bit 7 is set iff the variant is an Array, and bit 6 is never set |
| VariantCodec.DecodeTag | lib/datamodel/variant.js:262-267 | the type field read from the byte is below 64 |
| VariantCodec.TagRoundTrip | lib/datamodel/variant.js:262-267 | decoding the written byte gives back the ordinal and the array flag, with no dimensions flag |
| VariantCodec.DimensionBitIgnored | lib/datamodel/variant.js:264-267 | setting the 0x40 bit changes neither the DataType nor the array flag that decode uses |
| VariantCodec.EncodeVariant | lib/datamodel/variant.js:184-208 | an invalid variant, or one without an encoder, is refused; a valid variant with an encoder, and at most 2^32-1 elements when an Array, is always encoded. The bytes are the encoding byte followed by the single element, or by the count and then every element in order |
| VariantCodec.NullArrayRejected | lib/datamodel/variant.js:199-200 | an Array whose value is null is refused by the validity assertion, so it never becomes `[]` |
| VariantCodec.DecodeElements | lib/datamodel/variant.js:279-282 | `n` elements are read in order; the only failure is the failure of an element decoder |
| VariantCodec.DecodeBody | lib/datamodel/variant.js:274-290 | decoding the count or the elements fails only at the end of the stream or when an element decoder fails |
| VariantCodec.DecodeVariant | lib/datamodel/variant.js:259-291 | the end of the stream gives EndOfStream, an unknown type field UnknownDataType, a missing decoder NoDecoder; the only other failure is an element decoder's. A decoded variant has the DataType named by the low six bits. It is an Array iff bit 7 is set, never a Matrix, and an Array holds an array |
| VariantCodec.ElementsRoundTrip | lib/datamodel/variant.js:279-282 | the concatenated encodings of accepted elements decode to those elements, ending right after them |
| VariantCodec.VariantRoundTrip | lib/datamodel/variant.js:184-291 | with element codecs that round-trip, decode of what encode wrote gives back the variant (type, shape and value) and consumes exactly those bytes |
| VariantCodec.DimensionFlagRoundTrip | lib/datamodel/variant.js:264-267 | a variant whose encoding byte also carries the dimensions bit decodes the same |
| VariantCodec.BinaryStream.WriteBytes | lib/datamodel/variant.js:194 | the bytes are appended to the stream and the cursor stays |
| VariantCodec.BinaryStream.ReadUInt8 | lib/datamodel/variant.js:262 | reads the byte at the cursor and advances, or reports the end of the stream without moving |
| VariantCodec.BinaryStream.ReadUInt32 | lib/datamodel/variant.js:277 | reads the count at the cursor as `DecodeUInt32` does |
| VariantCodec.BinaryStream.ReadElement | lib/datamodel/variant.js:280 | one element through the registered decoder, advancing past it |
| VariantCodec.WriteElements | lib/datamodel/variant.js:202-204 | the stream gains every element's encoding, in index order |
| VariantCodec.CheckValid | lib/datamodel/variant.js:186 | the assertion's loop computes `isValidVariant` of the variant's own fields |
| VariantCodec.Encode | lib/datamodel/variant.js:184-208 | on success the stream gains exactly `EncodeVariant`'s bytes. On failure it reports the same error, and the stream gains the encoding byte only if the variant was valid |
| VariantCodec.ReadElements | lib/datamodel/variant.js:278-283 | the loop returns the elements `DecodeElements` specifies and leaves the cursor after them, or fails as it does |
| VariantCodec.Decode | lib/datamodel/variant.js:259-291 | the stream decode returns `DecodeVariant`'s result and leaves the cursor after the variant |
| BuiltInCodecs.StandardRegistry | lib/datamodel/variant.js:195 | the model's registry holds codecs exactly for Null, Boolean and the six range-checked integer types |
| BuiltInCodecs.NullCodec | lib/datamodel/variant.js:195 | the Null codec accepts only null, writes nothing, and reads null without moving the cursor |
| BuiltInCodecs.BooleanCodec | lib/datamodel/variant.js:195 | the Boolean codec accepts exactly the booleans and writes one byte for any value |
| BuiltInCodecs.BooleanWritesTruthiness | lib/datamodel/variant.js:195-206 | whatever value the Boolean codec is given, its byte reads back as that value's JavaScript truthiness |
| BuiltInCodecs.BooleanHoldingFive | lib/datamodel/variant.js:184-206 | a Boolean Variant built holding 5 passes the constructor and the validity assertion, is written as `01 01` and reads back as true |
| BuiltInCodecs.FixedWidthCodec | lib/datamodel/variant.js:195 | an integer codec accepts only numbers, writes exactly `width` bytes, and reads a number exactly when `width` bytes remain, advancing past them |
| BuiltInCodecs.NullCodecRoundTrips | lib/datamodel/variant.js:195 | null, written as no bytes, reads back as itself in any context |
| BuiltInCodecs.BooleanCodecRoundTrips | lib/datamodel/variant.js:195 | a Boolean written as one byte reads back as itself |
| BuiltInCodecs.FieldRoundTrip | lib/datamodel/variant.js:131-149 | within the field's range, two's complement reads back as the number |
| BuiltInCodecs.FixedWidthRoundTrips | lib/datamodel/variant.js:195-206 | the little-endian two's-complement integer codecs round-trip |
| BuiltInCodecs.StandardRegistrySound | lib/datamodel/variant.js:195 | every registered pair round-trips |
| BuiltInCodecs.ValidIffRepresentable | lib/datamodel/variant.js:131-149 | for the six integer types, a scalar passes the range check iff its codec can represent it |
| BuiltInCodecs.ValidIsAccepted | lib/datamodel/variant.js:161-172 | every element of a valid integer variant is one its codec accepts |
| BuiltInCodecs.StandardIntegerRoundTrip | lib/datamodel/variant.js:184-291 | every valid integer Variant, scalar or array of at most 2^32-1 elements, is encoded, and its bytes decode back to the same Variant, with no hypothesis on the codecs |
| BuiltInCodecs.OutOfRangeNotEncoded | lib/datamodel/variant.js:186 | a UInt16 outside 0..65535 is refused by encode as invalid |
| ChunkHeader.WriteTcpMessageHeader | lib/transport/tcp_transport.js:95 | eight bytes: the message type, the chunk type, then the total length as a little-endian UInt32 |
| ChunkHeader.ReadRawMessageHeader | lib/transport/tcp_transport.js:126 | a header is read iff eight bytes are there; its type and chunk type are the first four bytes |
| ChunkHeader.HeaderRoundTrip | lib/transport/tcp_transport.js:126-128 | the header read from a chunk is the one written at its start, whatever payload follows |
| TcpTransport.OneShotOutcome | lib/transport/tcp_transport.js:208-220 | the callback gets the data only for a data event; end, error and timeout give an Error |
| TcpTransport.FailuresDistinguishable | lib/transport/tcp_transport.js:208-220 | timeout, end by the peer and socket error give different Errors, whatever the underlying messages |
| TcpTransport.AscendingAtMostOnce | lib/transport/tcp_transport.js:197-206 | under the invariant, every one-shot receiver's callback has run at most once |
| TcpTransport.SettleKeepsDeliveries | lib/transport/tcp_transport.js:197-206 | settling the waiting receiver records at most one delivery for it and keeps the at-most-once invariant |
| TcpTransport.TeardownAtMostOneClose | lib/transport/tcp_transport.js:234-267 | under the teardown invariant at most one "close" is emitted, only once disconnecting, and no more callbacks run than disconnect calls were made |
| TcpTransport.Transport.constructor | lib/transport/tcp_transport.js:39-70 | a 3000 ms timeout, no socket, not disconnecting, zero counters, empty slots |
| TcpTransport.Transport.FillHeader | lib/transport/tcp_transport.js:95 | the first eight bytes of the buffer are the header |
| TcpTransport.Transport.CreateChunk | lib/transport/tcp_transport.js:88-100 | a fresh buffer of `length + 8` bytes whose header reads back as a "MSG" chunk of that total length; it becomes the pending buffer |
| TcpTransport.Transport.WriteChunk | lib/transport/tcp_transport.js:104-110 | the chunk is sent and counted iff there is a socket |
| TcpTransport.Transport.Write | lib/transport/tcp_transport.js:122-133 | only the pending chunk, or any chunk when none is pending, with a consistent header. It is sent and counted iff there is a socket, and the pending slot is then freed |
| TcpTransport.Transport.InstallSocket | lib/transport/tcp_transport.js:150-157 | a socket is present and no packet assembler |
| TcpTransport.Transport.InstallOneTimeMessageReceiver | lib/transport/tcp_transport.js:186-222 | demands no timer and empty slots; arms the timer and fills all three slots with a new receiver |
| TcpTransport.Transport.FulfillPendingPromises | lib/transport/tcp_transport.js:197-206 | clears the three slots and the timer. The callback runs with the outcome iff it was still set, and then it is dropped |
| TcpTransport.Transport.InstallPacketAssembler | lib/transport/tcp_transport.js:270-298 | demands empty slots; data and end go to the assembler and the error slot stays empty |
| TcpTransport.Transport.OnSocketData | lib/transport/tcp_transport.js:159-164 | the bytes are always counted. A one-shot receiver is settled with the data. The assembler is fed the data iff it is non-empty. With no handler nothing else changes |
| TcpTransport.Transport.OnSocketEnd | lib/transport/tcp_transport.js:168-173 | a one-shot receiver fails with "ended by server"; in assembler mode the transport closes itself; with no handler nothing changes |
| TcpTransport.Transport.PeerEnded | lib/transport/tcp_transport.js:298-318 | demands not disconnecting. It clears the slots, emits the only "close" with the peer's error or the default one, and marks the transport as disconnecting |
| TcpTransport.Transport.OnSocketError | lib/transport/tcp_transport.js:174-182 | only a one-shot receiver listens; it fails with "error on socket" |
| TcpTransport.Transport.OnTimeout | lib/transport/tcp_transport.js:208-210 | the timer settles the waiting receiver with the timeout Error |
| TcpTransport.Transport.Disconnect | lib/transport/tcp_transport.js:234-267 | a repeat call only runs its own callback. The first call marks the transport as disconnecting, stops the timer, clears the slots, drops the socket and queues the close |
| TcpTransport.Transport.RunScheduledClose | lib/transport/tcp_transport.js:260-265 | emits the only "close", with null, then runs the first caller's callback |
| TcpTransport.DisconnectTwice | lib/transport/tcp_transport.js:234-267 | two disconnects then the queued callback: exactly one "close", and each caller called back once |

## Left out

- Sockets, timers, `setImmediate` and the EventEmitter: events are method calls made by the environment, and emissions are ghost logs. Timer durations and real concurrency are not modelled.
- `PacketAssembler`: its chunk reassembly and the "message" events it causes are not modelled. The model records only what is fed to it.
- `writeTCPMessageHeader` and `readRawMessageHeader` are defined outside the two modelled files. They are written out from OPC UA Part 6, section 7.1.2, with a proved round trip.
- BuiltInCodecs.StandardRegistry: `findBuiltInType` also serves String, Float, Double, Int64, UInt64, DateTime, NodeId and the other built-in types. The model's registry holds only Null, Boolean and the 8/16/32-bit integers, so for the others it answers NoEncoder/NoDecoder where the library encodes. The general round trip (`VariantRoundTrip`) covers any registry whose pairs round-trip.
- VariantValidity.IsValidScalarVariant: the `ec.isValidXxx` helpers are defined outside the two modelled files. They are taken to be plain inclusive range checks (for `isValidInt8`, -128..127), and to reject every value that is not a number. A helper built on `<=` or `_.isFinite` would accept a numeric string such as "5" for UInt16, which the model rejects.
- VariantValidity.CoerceVariantType: the text `parseInt` reads is modelled for numbers, strings, null, booleans, enumeration items and arrays. The text of a LocalizedText or QualifiedName object, and numbers whose decimal text uses exponent notation (beyond 10^21), are not modelled: they are taken to give NaN, or their plain decimal text.
- `_self_encode` / `_self_decode` and `registerSpecialVariantEncoder` are not modelled. They are registry entries for schema objects.
- `decode_debug` and its tracer are not modelled: it decodes as `decode` does and only adds tracing.
- The fake-socket hooks (`setFakeTransport`, `getFakeTransport`), `toString`, `debugLog` output and the byte counters' logging are not modelled.
- `_socket.destroy()` and `_socket.end()` on disconnect are not modelled: the model only drops the socket.
- VariantCodec.EncodeVariant: element encoders are taken to be total. An encoder that throws, such as one asserting its argument's type, is not modelled, and neither are the tag, count and elements already written when it throws mid-array. So "a valid variant with an encoder is always encoded" holds only for total encoders. The Boolean encoder is defined outside the two modelled files; the model takes it to write `value ? 1 : 0`, so a non-boolean value goes out as its truthiness (`BuiltInCodecs.BooleanWritesTruthiness`).
- VariantCodec.Encode: for the same reason, the stream gains more than the encoding byte only on success. A throwing element encoder would leave a partial array in the stream.
- VariantValidity.Construct: a Variant built without a dataType is not modelled. The hook takes the DataType as given; in the code an absent dataType falls through the coercion switch, so the value is kept, and the schema default then makes the DataType Null.
- VariantCodec.DecodeVariant: the stream position after a failed decode is not modelled.
- VariantValidity.ParseInt: a number value is an integer. Fractional numbers, `Infinity`, exponent notation and the 2^53 precision limit of JavaScript numbers are not modelled.
- TcpTransport.Transport.CreateChunk: the payload bytes of a new Node `Buffer` are uninitialised, so the contract says nothing about them.
- TcpTransport.Transport.Disconnect: a one-shot receiver that is waiting when disconnect clears the slots is never called back. The model keeps this behaviour of the code and states it only through the unchanged delivery log.
- TcpTransport.TeardownAtMostOneClose: "each disconnect caller is called back once" is stated as matching counts, plus the per-call contracts of Disconnect and RunScheduledClose, rather than as an equality of multisets.
- TcpTransport.Transport.OnSocketData: a socket event that arrives after the socket has been dropped is accepted, as the listeners stay attached.
- TcpTransport.Transport.PeerEnded: "close" listeners are not run. The source emits "close" before it sets `__disconnecting__`, and EventEmitter runs listeners synchronously. A listener that calls `disconnect` from inside that emission would find the flag still clear, tear down again and queue a second "close". `ensures |closes| == 1` and TcpTransport.TeardownAtMostOneClose therefore hold only for listeners that do not re-enter the transport.
- Failed assertions in the transport (tcp_transport.js:90-91, 124-128, 190-193, 274-276, 292 and 305) are preconditions of the methods. So is `TcpTransport.Transport.CreateChunk`'s bound `length + 8 <= 2^32-1`, which the code does not assert: beyond it, writing the header's size field (tcp_transport.js:95) would throw. The thrown AssertionError is not modelled, and neither are the changes made just before it: `bytesRead` grows at line 161 before the assertion at 292, and the slots are cleared at 300-302 before the assertion at 305.
- VariantCodec.Decode: the source decodes into an existing Variant. It assigns `dataType` (variant.js:267) before the decoder lookup can throw, and `arrayType` (276) before the count is read. The model returns a new Variant on success and an error otherwise, so the partly updated Variant a failure leaves behind is not modelled.
