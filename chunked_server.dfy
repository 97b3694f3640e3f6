/**
  The single-endpoint server that answers "request" with a 500 MiB generated
  payload, split into BINARY sends of at most 10 MiB, and echoes chat.
  It keeps no state between callbacks.
 */
module ChunkedServer {
  import opened Bytes
  import opened Protocol

  const ChunkSize: nat := 10 * 1024 * 1024
  const DataSize: nat := 500 * 1024 * 1024

  function Min(a: nat, b: nat): nat
  {
    if a <= b then a else b
  }

  /** The byte strings one after the other. */
  function Flatten(parts: seq<seq<byte>>): seq<byte>
  {
    if parts == [] then [] else parts[0] + Flatten(parts[1..])
  }

  /** `data` cut front to back into pieces of `size` bytes, the last one shorter when needed. */
  function Chunks(data: seq<byte>, size: nat): seq<seq<byte>>
    requires size > 0
    decreases |data|
  {
    if |data| == 0 then []
    else
      var sz := Min(size, |data|);
      [data[..sz]] + Chunks(data[sz..], size)
  }

  /** Concatenating the chunks in order gives back `data`: no gap, overlap or reordering. */
  lemma {:induction false} ChunksReassemble(data: seq<byte>, size: nat)
    requires size > 0
    ensures Flatten(Chunks(data, size)) == data
    decreases |data|
  {
    if |data| > 0 {
      var sz := Min(size, |data|);
      ChunksReassemble(data[sz..], size);
      assert Chunks(data, size)[1..] == Chunks(data[sz..], size);
    }
  }

  /** Every chunk is non-empty and at most `size` bytes; all but the last are exactly `size`. */
  lemma {:induction false} ChunkSizes(data: seq<byte>, size: nat)
    requires size > 0
    ensures var r := Chunks(data, size);
      && (forall i :: 0 <= i < |r| ==> 0 < |r[i]| <= size)
      && (forall i :: 0 <= i < |r| - 1 ==> |r[i]| == size)
    decreases |data|
  {
    if |data| > 0 {
      var sz := Min(size, |data|);
      ChunkSizes(data[sz..], size);
      var r := Chunks(data, size);
      assert r[1..] == Chunks(data[sz..], size);
      assert |data| > size ==> |Chunks(data[sz..], size)| > 0;
    }
  }

  /**
    There are ceil(|data| / size) chunks: the fewest whose total capacity covers
    `data`. Empty data gives none.
   */
  lemma {:induction false} ChunkCount(data: seq<byte>, size: nat)
    requires size > 0
    ensures var k := |Chunks(data, size)|;
      && (k == 0 <==> |data| == 0)
      && (k > 0 ==> (k - 1) * size < |data| <= k * size)
    decreases |data|
  {
    if |data| > size {
      ChunkCount(data[size..], size);
      var k := |Chunks(data[size..], size)|;
      assert |Chunks(data, size)| == k + 1;
      MulSucc(k, size);
    } else if |data| > 0 {
      assert data[|data|..] == [];
      assert |Chunks(data, size)| == 1;
    }
  }

  /** One more chunk holds `size` more bytes. */
  lemma MulSucc(k: nat, size: nat)
    ensures (k + 1) * size == k * size + size
    ensures k > 0 ==> k * size == (k - 1) * size + size
  {
  }

  /** The last chunk holds what the full chunks before it leave over. */
  lemma {:induction false} LastChunkLength(data: seq<byte>, size: nat)
    requires size > 0 && |data| > 0
    ensures var r := Chunks(data, size);
      |r| > 0 && |r[|r| - 1]| == |data| - (|r| - 1) * size
    decreases |data|
  {
    if |data| > size {
      LastChunkLength(data[size..], size);
    }
  }

  /** One BINARY send of each chunk on `ws`, in order. */
  function BinarySends(ws: SocketId, chunks: seq<seq<byte>>): (r: seq<Send>)
    ensures |r| == |chunks|
    ensures forall i :: 0 <= i < |r| ==> r[i] == Send(ws, Binary(chunks[i]))
  {
    if chunks == [] then [] else [Send(ws, Binary(chunks[0]))] + BinarySends(ws, chunks[1..])
  }

  /**
    `sendBinaryInChunks`: sends `min(ChunkSize, remaining)` bytes from `offset`
    and advances `offset` until it reaches the end of `data`.
   */
  method SendBinaryInChunks(ws: SocketId, data: array<byte>) returns (sent: seq<Send>)
    ensures sent == BinarySends(ws, Chunks(data[..], ChunkSize))
  {
    ghost var whole := data[..];
    var offset := 0;
    sent := [];
    ghost var done: seq<seq<byte>> := [];
    while offset < data.Length
      invariant 0 <= offset <= data.Length
      invariant done + Chunks(whole[offset..], ChunkSize) == Chunks(whole, ChunkSize)
      invariant sent == BinarySends(ws, done)
      decreases data.Length - offset
    {
      var sz := Min(ChunkSize, data.Length - offset);
      var chunk := data[offset..offset + sz];
      ChunksAdvance(whole, done, offset, sz);
      BinarySendsAppend(ws, done, chunk);
      sent := sent + [Send(ws, Binary(chunk))];
      done := done + [chunk];
      offset := offset + sz;
    }
    assert whole[offset..] == [];
  }

  /** Cutting the first chunk off the remainder at `offset`. */
  lemma ChunksStep(data: seq<byte>, offset: nat, sz: nat)
    requires offset < |data| && sz == Min(ChunkSize, |data| - offset)
    ensures Chunks(data[offset..], ChunkSize) == [data[offset..offset + sz]] + Chunks(data[offset + sz..], ChunkSize)
  {
    assert data[offset..][sz..] == data[offset + sz..];
    assert data[offset..][..sz] == data[offset..offset + sz];
  }

  /** The splitter loop's invariant survives sending the chunk at `offset`. */
  lemma ChunksAdvance(whole: seq<byte>, done: seq<seq<byte>>, offset: nat, sz: nat)
    requires offset < |whole| && sz == Min(ChunkSize, |whole| - offset)
    requires done + Chunks(whole[offset..], ChunkSize) == Chunks(whole, ChunkSize)
    ensures (done + [whole[offset..offset + sz]]) + Chunks(whole[offset + sz..], ChunkSize) == Chunks(whole, ChunkSize)
  {
    ChunksStep(whole, offset, sz);
    var rest := Chunks(whole[offset + sz..], ChunkSize);
    assert (done + [whole[offset..offset + sz]]) + rest == done + ([whole[offset..offset + sz]] + rest);
  }

  lemma BinarySendsAppend(ws: SocketId, done: seq<seq<byte>>, chunk: seq<byte>)
    ensures BinarySends(ws, done + [chunk]) == BinarySends(ws, done) + [Send(ws, Binary(chunk))]
  {
  }

  /** The request payload: byte i is i mod 256. */
  function RequestPayload(): (p: seq<byte>)
    ensures |p| == DataSize
  {
    seq(DataSize, i requires 0 <= i < DataSize => (i % 256) as byte)
  }

  /** Fills a fresh `DataSize`-byte buffer in place. */
  method GenerateRequestPayload() returns (data: array<byte>)
    ensures data[..] == RequestPayload()
  {
    data := new byte[DataSize];
    var i := 0;
    while i < DataSize
      invariant 0 <= i <= DataSize
      invariant forall j :: 0 <= j < i ==> data[j] == (j % 256) as byte
    {
      data[i] := (i % 256) as byte;
      i := i + 1;
    }
  }

  /** What the server does with one received text frame. */
  datatype Decision = SendPayload | EchoChat(text: string) | WarnChat | Ignore | Throws

  /**
    A "type" that is not a string makes the string conversion in the request
    test throw; a missing "type" falls through both branches.
   */
  function Decide(m: ControlMessage): (d: Decision)
    ensures d == SendPayload <==> m.Object? && m.kind == Str("request")
    ensures d.EchoChat? <==> m.Object? && m.kind == Str("chat") && m.chatMessage.Str?
    ensures d.EchoChat? ==> d.text == m.chatMessage.s
    ensures d == Throws <==> m.Unparsable? || (m.Object? && m.kind == NonStr)
  {
    match m
    case Unparsable => Throws
    case NonObject => Ignore
    case Object(kind, _, _, chat) =>
      if kind == Missing then Ignore
      else if kind == NonStr then Throws
      else if kind.s == "request" then SendPayload
      else if kind.s == "chat" then (if chat.Str? then EchoChat(chat.s) else WarnChat)
      else Ignore
  }

  /** `onMessage`: the request branch generates and sends the payload, the chat branch echoes. */
  method OnMessage(ws: SocketId, m: ControlMessage) returns (sent: seq<Send>, thrown: bool)
    ensures thrown <==> Decide(m) == Throws
    ensures Decide(m) == SendPayload ==> sent == BinarySends(ws, Chunks(RequestPayload(), ChunkSize))
    ensures Decide(m).EchoChat? ==> sent == [Send(ws, Text(ChatMsg(Decide(m).text)))]
    ensures !Decide(m).EchoChat? && Decide(m) != SendPayload ==> sent == []
  {
    sent, thrown := [], false;
    match Decide(m)
    case Throws =>
      thrown := true;
    case SendPayload =>
      var binaryData := GenerateRequestPayload();
      sent := SendBinaryInChunks(ws, binaryData);
    case EchoChat(text) =>
      sent := [Send(ws, Text(ChatMsg(text)))];
    case WarnChat =>
    case Ignore =>
  }

  /** The payload goes out as exactly 50 full-size chunks that reassemble to it. */
  lemma RequestIsFiftyChunks()
    ensures var r := Chunks(RequestPayload(), ChunkSize);
      && |r| == 50
      && Flatten(r) == RequestPayload()
      && forall i :: 0 <= i < 50 ==> |r[i]| == ChunkSize
  {
    ChunksReassemble(RequestPayload(), ChunkSize);
    ChunkSizes(RequestPayload(), ChunkSize);
    ChunkCount(RequestPayload(), ChunkSize);
    LastChunkLength(RequestPayload(), ChunkSize);
  }
}
