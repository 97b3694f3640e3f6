/**
  The point-cloud snapshot that the server sends in one BINARY frame in reply to
  a "request" message, and that the client reads back. Layout: the vertex count
  N as a `size_t`, then 3N float coordinates, 3N byte colours, 3N float normals,
  and the three floats of each of the minimum and maximum bounds. Floats are
  opaque 4-byte groups here; they are copied, never interpreted.
 */
module Snapshot {
  import opened Bytes

  const SizeOfSizeT: nat := 8
  const SizeOfReal32: nat := 4
  const SizeOfUInt8: nat := 1

  /** The generator's output, as raw bytes per array. */
  datatype PointCloud = PointCloud(
    vertexCount: nat,
    coords: seq<byte>,
    colors: seq<byte>,
    normals: seq<byte>,
    minBound: seq<byte>,
    maxBound: seq<byte>)

  /**
    The server's `total_size` for N vertices: the count, 3N coordinates, 3N
    colours, 3N normals and two bounds of 3 floats, each term written with its
    `sizeof` (8, 4, 1, 4, 4, 4) as a literal.
   */
  function TotalSize(n: nat): (t: nat)
    ensures t == 27 * n + 32
  {
    8 + 4 * 3 * n + 1 * 3 * n + 4 * 3 * n + 4 * 3 + 4 * 3
  }

  /** Array sizes agree with the vertex count, and every size fits in a `size_t`. */
  predicate WellFormed(pc: PointCloud)
  {
    && |pc.coords| == 12 * pc.vertexCount
    && |pc.colors| == 3 * pc.vertexCount
    && |pc.normals| == 12 * pc.vertexCount
    && |pc.minBound| == 12
    && |pc.maxBound| == 12
    && TotalSize(pc.vertexCount) < Pow256(SizeOfSizeT)
  }

  /** The bytes of the snapshot frame, field after field. */
  function Layout(pc: PointCloud): (s: seq<byte>)
    requires WellFormed(pc)
    ensures |s| == TotalSize(pc.vertexCount)
  {
    LeBytes(pc.vertexCount, SizeOfSizeT) + pc.coords + pc.colors + pc.normals + pc.minBound + pc.maxBound
  }

  /** The vertex count the decoder reads from the first eight bytes. */
  function CountOf(msg: seq<byte>): nat
    requires |msg| >= SizeOfSizeT
  {
    LeValue(msg[..SizeOfSizeT])
  }

  /**
    The decoder checks no length, so every read stays inside the message only
    when it holds at least the eight count bytes and the whole layout for that count.
   */
  predicate Readable(msg: seq<byte>)
  {
    |msg| >= SizeOfSizeT && |msg| >= TotalSize(CountOf(msg))
  }

  /** What the decoder reads: consecutive ranges of 12N, 3N, 12N, 12 and 12 bytes after the count. */
  function Parse(msg: seq<byte>): (pc: PointCloud)
    requires Readable(msg)
    ensures pc.vertexCount == CountOf(msg)
    ensures |pc.coords| == 12 * pc.vertexCount && |pc.colors| == 3 * pc.vertexCount
    ensures |pc.normals| == 12 * pc.vertexCount && |pc.minBound| == 12 && |pc.maxBound| == 12
  {
    var n := CountOf(msg);
    var c := 8 + 12 * n;
    var k := c + 3 * n;
    var m := k + 12 * n;
    PointCloud(n, msg[8..c], msg[c..k], msg[k..m], msg[m..m + 12], msg[m + 12..m + 24])
  }

  /** `memcpy(dst + at, src, |src|)`. */
  method Memcpy(dst: array<byte>, at: nat, src: seq<byte>)
    requires at + |src| <= dst.Length
    modifies dst
    ensures dst[..] == old(dst[..at]) + src + old(dst[at + |src|..])
    ensures dst[..at + |src|] == old(dst[..at]) + src
  {
    var i := 0;
    while i < |src|
      invariant 0 <= i <= |src|
      invariant forall k :: 0 <= k < dst.Length ==> dst[k] == (if at <= k < at + i then src[k - at] else old(dst[k]))
    {
      dst[at + i] := src[i];
      i := i + 1;
    }
    assert dst[..] == old(dst[..at]) + src + old(dst[at + |src|..]);
    assert dst[..at + |src|] == (old(dst[..at]) + src + old(dst[at + |src|..]))[..at + |src|];
  }

  /**
    The server's encoder: allocates `total_size` bytes and copies each field
    in at an advancing offset. The offset ends exactly at the buffer's end.
   */
  method Encode(pc: PointCloud) returns (frame: seq<byte>, offset: nat)
    requires WellFormed(pc)
    ensures frame == Layout(pc)
    ensures offset == |frame| == TotalSize(pc.vertexCount)
  {
    var n := pc.vertexCount;
    var coordsSize, colorsSize, boundSize := SizeOfReal32 * 3 * n, SizeOfUInt8 * 3 * n, SizeOfReal32 * 3;
    assert coordsSize == 12 * n && colorsSize == 3 * n && boundSize == 12;
    var count := LeBytes(n, SizeOfSizeT);
    var totalSize := TotalSize(n);
    var buffer := new byte[totalSize];
    offset := 0;
    ghost var prefix: seq<byte> := [];

    Memcpy(buffer, offset, count);
    offset, prefix := offset + SizeOfSizeT, count;
    assert buffer[..offset] == prefix;
    Memcpy(buffer, offset, pc.coords);
    offset, prefix := offset + coordsSize, prefix + pc.coords;
    assert buffer[..offset] == prefix;
    Memcpy(buffer, offset, pc.colors);
    offset, prefix := offset + colorsSize, prefix + pc.colors;
    assert buffer[..offset] == prefix;
    Memcpy(buffer, offset, pc.normals);
    offset, prefix := offset + coordsSize, prefix + pc.normals;
    assert buffer[..offset] == prefix;
    Memcpy(buffer, offset, pc.minBound);
    offset, prefix := offset + boundSize, prefix + pc.minBound;
    assert buffer[..offset] == prefix;
    Memcpy(buffer, offset, pc.maxBound);
    offset, prefix := offset + boundSize, prefix + pc.maxBound;
    assert buffer[..offset] == prefix;
    assert buffer[..] == buffer[..offset];
    assert prefix == Layout(pc);
    frame := buffer[..];
  }

  /**
    The client's decoder: reads the count, then each field at an advancing
    offset. It returns where the offset ends.
   */
  method Decode(msg: seq<byte>) returns (pc: PointCloud, offset: nat)
    requires Readable(msg)
    ensures pc == Parse(msg)
    ensures offset == TotalSize(pc.vertexCount) <= |msg|
  {
    offset := 0;
    var n := LeValue(msg[offset..offset + SizeOfSizeT]);
    offset := offset + SizeOfSizeT;
    var coords := msg[offset..offset + SizeOfReal32 * 3 * n];
    offset := offset + SizeOfReal32 * 3 * n;
    var colors := msg[offset..offset + SizeOfUInt8 * 3 * n];
    offset := offset + SizeOfUInt8 * 3 * n;
    var normals := msg[offset..offset + SizeOfReal32 * 3 * n];
    offset := offset + SizeOfReal32 * 3 * n;
    var minBound := msg[offset..offset + SizeOfReal32 * 3];
    offset := offset + SizeOfReal32 * 3;
    var maxBound := msg[offset..offset + SizeOfReal32 * 3];
    offset := offset + SizeOfReal32 * 3;
    pc := PointCloud(n, coords, colors, normals, minBound, maxBound);
  }

  /** `s[i..]` is its part up to `j` followed by the rest. */
  lemma SliceSplit(s: seq<byte>, i: nat, j: nat)
    requires i <= j <= |s|
    ensures s[i..] == s[i..j] + s[j..]
  {
  }

  /** When `s[i..]` starts with `a`, the next `|a|` bytes are `a` and `rest` follows. */
  lemma SlicePeel(s: seq<byte>, i: nat, a: seq<byte>, rest: seq<byte>)
    requires i <= |s| && s[i..] == a + rest
    ensures s[i..i + |a|] == a && s[i + |a|..] == rest
  {
    assert s[i..i + |a|] == (a + rest)[..|a|];
    assert s[i + |a|..] == (a + rest)[|a|..];
  }

  /** The layout read from the front: the count bytes, then each field followed by the rest. */
  lemma LayoutNested(pc: PointCloud)
    requires WellFormed(pc)
    ensures Layout(pc) == LeBytes(pc.vertexCount, SizeOfSizeT)
      + (pc.coords + (pc.colors + (pc.normals + (pc.minBound + pc.maxBound))))
  {
    var x1 := LeBytes(pc.vertexCount, SizeOfSizeT) + pc.coords;
    var x2 := x1 + pc.colors;
    var x3 := x2 + pc.normals;
    var y4 := pc.minBound + pc.maxBound;
    var y3 := pc.normals + y4;
    var y2 := pc.colors + y3;
    Associate(x3, pc.minBound, pc.maxBound);
    Associate(x2, pc.normals, y4);
    Associate(x1, pc.colors, y3);
    Associate(LeBytes(pc.vertexCount, SizeOfSizeT), pc.coords, y2);
  }

  lemma Associate(a: seq<byte>, b: seq<byte>, c: seq<byte>)
    ensures (a + b) + c == a + (b + c)
  {
  }

  /**
    `s` is exactly as long as the layout for `pc`, and each of the ranges the
    decoder reads holds the matching field of `pc`.
   */
  predicate FieldsAt(s: seq<byte>, pc: PointCloud)
  {
    var n := pc.vertexCount;
    var c := 8 + 12 * n; var k := c + 3 * n; var m := k + 12 * n;
    && WellFormed(pc)
    && |s| == TotalSize(n)
    && s[..8] == LeBytes(n, SizeOfSizeT)
    && s[8..c] == pc.coords && s[c..k] == pc.colors && s[k..m] == pc.normals
    && s[m..m + 12] == pc.minBound && s[m + 12..m + 24] == pc.maxBound
  }

  /** Where each field lies in the layout: the ranges that the decoder reads. */
  lemma LayoutFields(pc: PointCloud)
    requires WellFormed(pc)
    ensures FieldsAt(Layout(pc), pc)
  {
    var s := Layout(pc);
    var n := pc.vertexCount;
    var c := 8 + 12 * n;
    var k := c + 3 * n;
    var m := k + 12 * n;
    var t4 := pc.minBound + pc.maxBound;
    var t3 := pc.normals + t4;
    var t2 := pc.colors + t3;
    var t1 := pc.coords + t2;
    LayoutNested(pc);
    SlicePeel(s, 0, LeBytes(n, SizeOfSizeT), t1);
    SlicePeel(s, 8, pc.coords, t2);
    SlicePeel(s, c, pc.colors, t3);
    SlicePeel(s, k, pc.normals, t4);
    SlicePeel(s, m, pc.minBound, pc.maxBound);
    assert s[m + 12..] == s[m + 12..m + 24];
  }

  /** A message whose ranges hold the fields of `pc` decodes to `pc`. */
  lemma ParseFromFields(s: seq<byte>, pc: PointCloud)
    requires FieldsAt(s, pc)
    ensures Readable(s) && Parse(s) == pc
  {
    LeValueOfLeBytes(pc.vertexCount, SizeOfSizeT);
    assert CountOf(s) == pc.vertexCount;
    ParseFields(s);
    var p := Parse(s);
    assert p.vertexCount == pc.vertexCount;
  }

  /** Decoding the server's frame gives back the count and every byte group. */
  lemma {:induction false} ParseLayout(pc: PointCloud)
    requires WellFormed(pc)
    ensures Readable(Layout(pc)) && Parse(Layout(pc)) == pc
  {
    LayoutFields(pc);
    ParseFromFields(Layout(pc), pc);
  }

  /** The ranges that `Parse` reads, spelled out for the lemmas below. */
  lemma ParseFields(msg: seq<byte>)
    requires Readable(msg)
    ensures var pc := Parse(msg); var n := pc.vertexCount;
      var c := 8 + 12 * n; var k := c + 3 * n; var m := k + 12 * n;
      && pc.coords == msg[8..c] && pc.colors == msg[c..k] && pc.normals == msg[k..m]
      && pc.minBound == msg[m..m + 12] && pc.maxBound == msg[m + 12..m + 24]
  {
  }

  /** A message of 27n + 32 bytes is what its decoder ranges hold, put back together. */
  lemma RangesJoin(msg: seq<byte>, n: nat, a0: seq<byte>, a1: seq<byte>, a2: seq<byte>,
                   a3: seq<byte>, a4: seq<byte>, a5: seq<byte>)
    requires |msg| == 32 + 27 * n
    requires var c := 8 + 12 * n; var k := c + 3 * n; var m := k + 12 * n;
      && msg[..8] == a0 && msg[8..c] == a1 && msg[c..k] == a2 && msg[k..m] == a3
      && msg[m..m + 12] == a4 && msg[m + 12..m + 24] == a5
    ensures msg == a0 + (a1 + (a2 + (a3 + (a4 + a5))))
  {
    var c := 8 + 12 * n;
    var k := c + 3 * n;
    var m := k + 12 * n;
    assert msg[m + 12..] == a5;
    SliceSplit(msg, m, m + 12);
    assert msg[m..] == a4 + a5;
    SliceSplit(msg, k, m);
    assert msg[k..] == a3 + (a4 + a5);
    SliceSplit(msg, c, k);
    assert msg[c..] == a2 + (a3 + (a4 + a5));
    SliceSplit(msg, 8, c);
    assert msg[8..] == a1 + (a2 + (a3 + (a4 + a5)));
    assert msg == msg[..8] + msg[8..];
  }

  /** A message whose ranges hold the fields of `pc` is the layout of `pc`. */
  lemma LayoutFromFields(msg: seq<byte>, pc: PointCloud)
    requires FieldsAt(msg, pc)
    ensures Layout(pc) == msg
  {
    RangesJoin(msg, pc.vertexCount, LeBytes(pc.vertexCount, SizeOfSizeT),
      pc.coords, pc.colors, pc.normals, pc.minBound, pc.maxBound);
    LayoutNested(pc);
  }

  /** A frame of exactly the layout's length is the encoding of what it decodes to. */
  lemma {:induction false} LayoutParse(msg: seq<byte>)
    requires Readable(msg) && |msg| == TotalSize(CountOf(msg)) < Pow256(SizeOfSizeT)
    ensures WellFormed(Parse(msg)) && Layout(Parse(msg)) == msg
  {
    LeBytesOfLeValue(msg[..8]);
    ParseFields(msg);
    LayoutFromFields(msg, Parse(msg));
  }

  /** Bytes after the layout are never read. */
  lemma {:induction false} ParseIgnoresTrailing(msg: seq<byte>, extra: seq<byte>)
    requires Readable(msg)
    ensures Readable(msg + extra) && Parse(msg + extra) == Parse(msg)
  {
    assert (msg + extra)[..8] == msg[..8];
    var n := CountOf(msg);
    var c := 8 + 12 * n;
    var k := c + 3 * n;
    var m := k + 12 * n;
    assert (msg + extra)[8..c] == msg[8..c];
    assert (msg + extra)[c..k] == msg[c..k];
    assert (msg + extra)[k..m] == msg[k..m];
    assert (msg + extra)[m..m + 12] == msg[m..m + 12];
    assert (msg + extra)[m + 12..m + 24] == msg[m + 12..m + 24];
  }
}
