/**
  The single-socket test window: connect, disconnect and request buttons, and a
  reader for the header of chunked BINARY frames
  (messageId: 4 bytes, chunkIndex: 4 bytes, payloadSize: 8 bytes, then the payload).
 */
module MainWindow {
  import opened Wrappers
  import opened Bytes
  import opened Protocol
  import opened Qt
  import ChunkedServer

  const SizeOfUInt32: nat := 4
  const SizeOfUInt64: nat := 8

  /** Unsigned 64-bit arithmetic is modulo this. */
  const UInt64Modulus: nat := 0x1_0000_0000_0000_0000

  /** The bound the length check uses: one 4-byte and one 8-byte field. */
  const GuardSize: nat := SizeOfUInt32 + SizeOfUInt64

  /** The bytes the header reads actually span: two 4-byte fields and one 8-byte field. */
  const HeaderSize: nat := SizeOfUInt32 + SizeOfUInt32 + SizeOfUInt64

  datatype ChunkHeader = ChunkHeader(messageId: nat, chunkIndex: nat, payloadSize: nat)

  /** The outcome of the window's binary-message handler. */
  datatype HeaderRead =
    | TooSmall
      // rejected by the length check before any read
    | ReadsPastEnd(actualSize: nat)
      // passes the check, but the header copies read past the message (undefined behaviour);
      // the logged size, computed in unsigned 64-bit arithmetic, wraps
    | Logged(header: ChunkHeader, actualSize: nat)
      // the header and the size of what follows it are logged

  /** The handler as written: it checks for 12 bytes and reads 16. */
  function ReadHeader(msg: seq<byte>): (r: HeaderRead)
    ensures r == TooSmall <==> |msg| < 12
    ensures r.Logged? <==> |msg| >= 16
    ensures r.Logged? ==>
      && r.header.messageId == LeValue(msg[0..4])
      && r.header.chunkIndex == LeValue(msg[4..8])
      && r.header.payloadSize == LeValue(msg[8..16])
      && (|msg| < UInt64Modulus ==> r.actualSize == |msg| - 16)
    ensures r.ReadsPastEnd? ==> r.actualSize == UInt64Modulus + |msg| - 16
  {
    var actualSize := (|msg| - HeaderSize) % UInt64Modulus;
    if |msg| < GuardSize then TooSmall
    else if |msg| < HeaderSize then ReadsPastEnd(actualSize)
    else
      var messageId := LeValue(msg[0..SizeOfUInt32]);
      var chunkIndex := LeValue(msg[SizeOfUInt32..2 * SizeOfUInt32]);
      var payloadSize := LeValue(msg[2 * SizeOfUInt32..HeaderSize]);
      Logged(ChunkHeader(messageId, chunkIndex, payloadSize), actualSize)
  }

  /** A 12-byte message passes the length check, is read past its end, and its logged size wraps to 2^64 - 4. */
  lemma TwelveBytesReadPastEnd()
    ensures ReadHeader(seq(12, _ => 0 as byte)) == ReadsPastEnd(UInt64Modulus - 4)
  {
  }

  /** A header declaring one payload byte, with none following, is logged without complaint. */
  lemma DeclaredSizeNotCompared()
    ensures var m := seq(16, i => if i == 8 then 1 as byte else 0 as byte);
      && ReadHeader(m).Logged?
      && ReadHeader(m).header.payloadSize == 1
      && ReadHeader(m).actualSize == 0
  {
    var m := seq(16, i => if i == 8 then 1 as byte else 0 as byte);
    LeValueZeroTail(m[8..16]);
  }

  /** One chunk of a message. */
  datatype Chunk = Chunk(messageId: nat, chunkIndex: nat, payload: seq<byte>)

  datatype Decoded = Malformed | Frame(chunk: Chunk)

  /** Identifiers fit their 4-byte fields and the payload length its 8-byte field. */
  predicate Encodable(c: Chunk)
  {
    c.messageId < Pow256(SizeOfUInt32) && c.chunkIndex < Pow256(SizeOfUInt32) && |c.payload| < Pow256(SizeOfUInt64)
  }

  /** The wire form of a chunk. */
  function EncodeChunk(c: Chunk): (s: seq<byte>)
    requires Encodable(c)
    ensures |s| == HeaderSize + |c.payload|
  {
    LeBytes(c.messageId, SizeOfUInt32) + LeBytes(c.chunkIndex, SizeOfUInt32)
      + LeBytes(|c.payload|, SizeOfUInt64) + c.payload
  }

  /**
    The reader with the length check it evidently intends: nothing is read
    unless the whole 16-byte header is there, and a frame whose declared
    payload size differs from what follows the header is malformed.
   */
  function DecodeChunk(msg: seq<byte>): (r: Decoded)
    ensures r.Frame? <==> |msg| >= 16 && LeValue(msg[8..16]) == |msg| - 16
    ensures r.Frame? ==> r.chunk.payload == msg[16..] && Encodable(r.chunk)
  {
    if |msg| < HeaderSize then Malformed
    else
      var payloadSize := LeValue(msg[2 * SizeOfUInt32..HeaderSize]);
      if payloadSize != |msg| - HeaderSize then Malformed
      else
        LeValueBound(msg[0..SizeOfUInt32]);
        LeValueBound(msg[SizeOfUInt32..2 * SizeOfUInt32]);
        LeValueBound(msg[2 * SizeOfUInt32..HeaderSize]);
        Frame(Chunk(LeValue(msg[0..SizeOfUInt32]), LeValue(msg[SizeOfUInt32..2 * SizeOfUInt32]), msg[HeaderSize..]))
  }

  /** Decoding an encoded chunk gives the chunk back. */
  lemma {:induction false} DecodeEncode(c: Chunk)
    requires Encodable(c)
    ensures DecodeChunk(EncodeChunk(c)) == Frame(c)
  {
    var s := EncodeChunk(c);
    assert s[0..4] == LeBytes(c.messageId, SizeOfUInt32);
    assert s[4..8] == LeBytes(c.chunkIndex, SizeOfUInt32);
    assert s[8..16] == LeBytes(|c.payload|, SizeOfUInt64);
    assert s[16..] == c.payload;
    LeValueOfLeBytes(c.messageId, SizeOfUInt32);
    LeValueOfLeBytes(c.chunkIndex, SizeOfUInt32);
    LeValueOfLeBytes(|c.payload|, SizeOfUInt64);
  }

  /** A frame that decodes is exactly the encoding of what it decodes to. */
  lemma {:induction false} EncodeDecode(msg: seq<byte>)
    requires DecodeChunk(msg).Frame?
    ensures EncodeChunk(DecodeChunk(msg).chunk) == msg
  {
    LeBytesOfLeValue(msg[0..4]);
    LeBytesOfLeValue(msg[4..8]);
    LeBytesOfLeValue(msg[8..16]);
    assert msg == msg[0..4] + msg[4..8] + msg[8..16] + msg[16..];
  }

  /** Where the intended reader accepts a frame, the written handler logs the same header. */
  lemma DecodeAgreesWithReadHeader(msg: seq<byte>)
    requires DecodeChunk(msg).Frame?
    ensures var c := DecodeChunk(msg).chunk;
      ReadHeader(msg) == Logged(ChunkHeader(c.messageId, c.chunkIndex, |c.payload|), |c.payload|)
  {
  }

  /**
    The chunked server sends its payload with no header, so this handler reads
    the payload's first sixteen bytes as one: the first chunk of the request
    payload is logged as message 0x03020100, chunk 0x07060504.
   */
  lemma {:induction false} RawChunkMisread()
    ensures var first := ChunkedServer.Chunks(ChunkedServer.RequestPayload(), ChunkedServer.ChunkSize)[0];
      && ReadHeader(first).Logged?
      && ReadHeader(first).header.messageId == 0x03020100
      && ReadHeader(first).header.chunkIndex == 0x07060504
      && ReadHeader(first).actualSize == ChunkedServer.ChunkSize - 16
  {
    var p := ChunkedServer.RequestPayload();
    ChunkedServer.RequestIsFiftyChunks();
    var first := ChunkedServer.Chunks(p, ChunkedServer.ChunkSize)[0];
    assert first == p[..ChunkedServer.ChunkSize];
    assert first[0..4] == [0, 1, 2, 3];
    assert first[4..8] == [4, 5, 6, 7];
    LeValueFour(first[0..4]);
    LeValueFour(first[4..8]);
  }

  class MainWindow {
    var webSocket: Option<Socket>
    var connectEnabled: bool
    var disconnectEnabled: bool
    var addressInput: string
    /** Every message sent, in order. */
    var sent: seq<Send>
    /** The sockets closed by the window, in order. */
    var closed: seq<SocketId>

    constructor (connectEnabled: bool, disconnectEnabled: bool)
      ensures webSocket == None && addressInput == "" && sent == [] && closed == []
      ensures this.connectEnabled == connectEnabled && this.disconnectEnabled == disconnectEnabled
    {
      webSocket := None;
      this.connectEnabled, this.disconnectEnabled := connectEnabled, disconnectEnabled;
      addressInput, sent, closed := "", [], [];
    }

    /** Connect: nothing for a blank address; otherwise a new socket starts connecting. */
    method OnConnect(socketId: SocketId)
      modifies this
      ensures Trim(old(addressInput)) == [] ==> webSocket == old(webSocket)
      ensures Trim(old(addressInput)) != [] ==> webSocket == Some(Socket(socketId, Connecting, false))
      ensures sent == old(sent) && closed == old(closed) && addressInput == old(addressInput)
      ensures connectEnabled == old(connectEnabled) && disconnectEnabled == old(disconnectEnabled)
    {
      var address := Trim(addressInput);
      if address == [] {
        return;
      }
      webSocket := Some(Socket(socketId, Connecting, false));
    }

    /** Disconnect: a valid socket is closed; the pointer always ends null, so a second call does nothing. */
    method OnDisconnect()
      modifies this
      ensures webSocket == None
      ensures closed == old(closed)
        + (if old(webSocket).Some? && old(webSocket).value.valid then [old(webSocket).value.id] else [])
      ensures sent == old(sent) && addressInput == old(addressInput)
      ensures connectEnabled == old(connectEnabled) && disconnectEnabled == old(disconnectEnabled)
    {
      if webSocket.Some? {
        if webSocket.value.valid {
          closed := closed + [webSocket.value.id];
        }
        webSocket := None;
      }
    }

    /** Request: one request message, only when the socket exists and is connected. */
    method OnRequest()
      modifies this
      ensures old(webSocket).Some? && old(webSocket).value.state == Connected ==>
        sent == old(sent) + [Send(old(webSocket).value.id, Text(RequestMsg))]
      ensures !(old(webSocket).Some? && old(webSocket).value.state == Connected) ==> sent == old(sent)
      ensures webSocket == old(webSocket) && closed == old(closed) && addressInput == old(addressInput)
      ensures connectEnabled == old(connectEnabled) && disconnectEnabled == old(disconnectEnabled)
    {
      if webSocket.None? || webSocket.value.state != Connected {
        return;
      }
      sent := sent + [Send(webSocket.value.id, Text(RequestMsg))];
    }

    /** The socket connected: connect is disabled and disconnect enabled. */
    method WebsocketConnected()
      modifies this
      ensures !connectEnabled && disconnectEnabled
      ensures webSocket == old(webSocket) && sent == old(sent) && closed == old(closed)
      ensures addressInput == old(addressInput)
    {
      connectEnabled := false;
      disconnectEnabled := true;
    }

    /** The socket disconnected: connect is enabled and disconnect disabled. */
    method WebsocketDisconnected()
      modifies this
      ensures connectEnabled && !disconnectEnabled
      ensures webSocket == old(webSocket) && sent == old(sent) && closed == old(closed)
      ensures addressInput == old(addressInput)
    {
      connectEnabled := true;
      disconnectEnabled := false;
    }
  }
}
