/**
  The 8-byte message header of the UA TCP transport (OPC UA Part 6, section
  7.1.2), as writeTCPMessageHeader writes it and readRawMessageHeader reads
  it: a 3-byte message type, a 1-byte chunk type ('F' final, 'C'
  continuation, 'A' abort) and the total chunk size as a little-endian UInt32.
*/
module ChunkHeader {
  import opened Wrappers
  import opened LittleEndian

  const HeaderSize: nat := 8

  /** "MSG" in ASCII. */
  const MessageTypeMsg: seq<bv8> := [0x4D, 0x53, 0x47]

  const FinalChunk: bv8 := 0x46         // 'F'
  const IntermediateChunk: bv8 := 0x43  // 'C'
  const AbortChunk: bv8 := 0x41         // 'A'

  predicate IsChunkType(b: bv8) {
    b == FinalChunk || b == IntermediateChunk || b == AbortChunk
  }

  /** What readRawMessageHeader reports: the message type, the chunk type (`isFinal`) and the total length. */
  datatype MessageHeader = MessageHeader(msgType: seq<bv8>, isFinal: bv8, length: nat)

  /** writeTCPMessageHeader: the eight header bytes for a chunk of `totalLength` bytes. */
  function WriteTcpMessageHeader(msgType: seq<bv8>, chunkType: bv8, totalLength: nat): (h: seq<bv8>)
    requires |msgType| == 3 && totalLength <= MaxUInt32
    ensures |h| == HeaderSize
    ensures h[..3] == msgType && h[3] == chunkType && h[4..] == EncodeUInt32(totalLength)
  {
    msgType + [chunkType] + EncodeUInt32(totalLength)
  }

  /** readRawMessageHeader: None when fewer than eight bytes are there to read. */
  function ReadRawMessageHeader(data: seq<bv8>): (r: Option<MessageHeader>)
    ensures r.Some? <==> |data| >= HeaderSize
    ensures r.Some? ==> r.value.msgType == data[..3] && r.value.isFinal == data[3] && r.value.length <= MaxUInt32
  {
    if |data| < HeaderSize then None
    else
      match DecodeUInt32(data, 4)
      case Some((length, _)) => Some(MessageHeader(data[..3], data[3], length))
      case None => None
  }

  /** The header read from a chunk is the one written at its start, whatever follows it. */
  lemma HeaderRoundTrip(msgType: seq<bv8>, chunkType: bv8, totalLength: nat, body: seq<bv8>)
    requires |msgType| == 3 && totalLength <= MaxUInt32
    ensures ReadRawMessageHeader(WriteTcpMessageHeader(msgType, chunkType, totalLength) + body) ==
      Some(MessageHeader(msgType, chunkType, totalLength))
  {
    var h := WriteTcpMessageHeader(msgType, chunkType, totalLength);
    var data := h + body;
    assert data[..3] == msgType && data[3] == chunkType;
    assert data[4..8] == EncodeUInt32(totalLength);
    UInt32RoundTrip(totalLength, data, 4);
  }
}
