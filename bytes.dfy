/**
  Bytes and the fixed-width little-endian integers that the wire formats use
  (`size_t`, `uint32_t`, `uint64_t`, copied with `memcpy` on a little-endian host).
 */
module Bytes {

  newtype byte = x: int | 0 <= x < 256

  /** 256 to the power `w`: one more than the largest `w`-byte unsigned value. */
  function Pow256(w: nat): (p: nat)
    ensures p >= 1
  {
    if w == 0 then 1 else 256 * Pow256(w - 1)
  }

  /** The unsigned value of `s`, least significant byte first. */
  function LeValue(s: seq<byte>): nat
  {
    if s == [] then 0 else s[0] as int + 256 * LeValue(s[1..])
  }

  /** The `w` bytes that hold `v`, least significant byte first. */
  function LeBytes(v: nat, w: nat): (s: seq<byte>)
    requires v < Pow256(w)
    ensures |s| == w
  {
    if w == 0 then [] else [(v % 256) as byte] + LeBytes(v / 256, w - 1)
  }

  /** Every `w`-byte sequence holds a value below 256^w. */
  lemma {:induction false} LeValueBound(s: seq<byte>)
    ensures LeValue(s) < Pow256(|s|)
  {
    if s != [] {
      LeValueBound(s[1..]);
    }
  }

  /** Writing a value and reading it back gives the value. */
  lemma {:induction false} LeValueOfLeBytes(v: nat, w: nat)
    requires v < Pow256(w)
    ensures LeValue(LeBytes(v, w)) == v
  {
    if w > 0 {
      LeValueOfLeBytes(v / 256, w - 1);
      assert LeBytes(v, w)[1..] == LeBytes(v / 256, w - 1);
    }
  }

  /** Reading bytes and writing the value back gives the same bytes. */
  lemma {:induction false} LeBytesOfLeValue(s: seq<byte>)
    ensures LeValue(s) < Pow256(|s|)
    ensures LeBytes(LeValue(s), |s|) == s
  {
    LeValueBound(s);
    if s != [] {
      LeBytesOfLeValue(s[1..]);
      assert LeValue(s) % 256 == s[0] as int;
      assert LeValue(s) / 256 == LeValue(s[1..]);
    }
  }

  /** A four-byte little-endian value, written out. */
  lemma LeValueFour(s: seq<byte>)
    requires |s| == 4
    ensures LeValue(s) == s[0] as int + 0x100 * s[1] as int + 0x1_0000 * s[2] as int + 0x100_0000 * s[3] as int
  {
    assert s[1..][1..] == s[2..];
    assert s[2..][1..] == s[3..];
    assert s[3..][1..] == [];
    assert LeValue(s[3..]) == s[3] as int;
    assert LeValue(s[2..]) == s[2] as int + 256 * s[3] as int;
    assert LeValue(s[1..]) == s[1] as int + 256 * (s[2] as int + 256 * s[3] as int);
  }

  /** Trailing zero bytes add nothing to the value. */
  lemma {:induction false} LeValueZeroTail(s: seq<byte>)
    requires |s| >= 1 && forall i :: 1 <= i < |s| ==> s[i] == 0
    ensures LeValue(s) == s[0] as int
  {
    if |s| > 1 {
      LeValueZeroTail(s[1..]);
    } else {
      assert s[1..] == [];
    }
  }
}
