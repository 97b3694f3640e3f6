/**
  What both client windows take from Qt: the observed state of a WebSocket and
  `QString::trimmed`, which both apply to the address and chat inputs.
 */
module Qt {
  import opened Protocol

  /** The socket states Qt reports. */
  datatype SocketState = Unconnected | HostLookup | Connecting | Connected | Bound | Closing | Listening

  /** A WebSocket object as the window observes it: its identity, state and validity. */
  datatype Socket = Socket(id: SocketId, state: SocketState, valid: bool)

  /** The characters Qt's `trimmed` removes: ASCII and Unicode white space. */
  predicate IsSpace(c: char)
  {
    || c == ' ' || c == '\t' || c == '\n' || c == '\r' || c == '\U{000B}' || c == '\U{000C}'
    || c == '\U{0085}' || c == '\U{00A0}' || c == '\U{1680}'
    || ('\U{2000}' <= c <= '\U{200A}')
    || c == '\U{2028}' || c == '\U{2029}' || c == '\U{202F}' || c == '\U{205F}' || c == '\U{3000}'
  }

  /** `s` without its leading white space. */
  function TrimStart(s: string): (r: string)
    ensures |r| <= |s| && r == s[|s| - |r|..]
    ensures r == [] || !IsSpace(r[0])
    ensures forall i :: 0 <= i < |s| - |r| ==> IsSpace(s[i])
  {
    if s != [] && IsSpace(s[0]) then TrimStart(s[1..]) else s
  }

  /** `s` without its trailing white space. */
  function TrimEnd(s: string): (r: string)
    ensures |r| <= |s| && r == s[..|r|]
    ensures r == [] || !IsSpace(r[|r| - 1])
    ensures forall i :: |r| <= i < |s| ==> IsSpace(s[i])
  {
    if s != [] && IsSpace(s[|s| - 1]) then TrimEnd(s[..|s| - 1]) else s
  }

  /** `QString::trimmed`. */
  function Trim(s: string): string
  {
    TrimEnd(TrimStart(s))
  }

  /** Trimming yields an empty string exactly when every character is white space. */
  lemma TrimEmpty(s: string)
    ensures Trim(s) == [] <==> forall i :: 0 <= i < |s| ==> IsSpace(s[i])
  {
    var a := TrimStart(s);
    if Trim(s) == [] {
      // All of `a` is trailing white space, yet `a` starts with none: it is empty.
      assert a == [];
    }
  }

  /** The trimmed text has no white space at either end. */
  lemma TrimEnds(s: string)
    ensures Trim(s) == [] || (!IsSpace(Trim(s)[0]) && !IsSpace(Trim(s)[|Trim(s)| - 1]))
  {
    var a := TrimStart(s);
    var t := Trim(s);
    if t != [] {
      assert t[0] == a[0];
    }
  }

  /** The trimmed text is a contiguous part of the input. */
  lemma TrimIsInfix(s: string)
    ensures exists i, j :: 0 <= i <= j <= |s| && Trim(s) == s[i..j]
  {
    var a := TrimStart(s);
    var t := Trim(s);
    var i := |s| - |a|;
    var j := i + |t|;
    PrefixOfSuffix(s, i, |t|);
    assert 0 <= i <= j <= |s| && t == s[i..j];
  }

  /** The first `n` characters of `s[i..]` are `s[i..i + n]`. */
  lemma PrefixOfSuffix(s: string, i: nat, n: nat)
    requires i + n <= |s|
    ensures s[i..][..n] == s[i..i + n]
  {
  }
}
