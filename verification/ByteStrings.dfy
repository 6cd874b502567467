/** Strings of bytes: filling, patching, padding, little-endian numbers. */
module ByteStrings {
  import opened Arithmetic

  const SPACE: byte := 32

  function Zeros(n: nat): (s: seq<byte>)
    ensures |s| == n && forall i :: 0 <= i < n ==> s[i] == 0
  {
    seq(n, _ => 0)
  }

  /** s with d written over it from k on. */
  function Patch(s: seq<byte>, k: nat, d: seq<byte>): (r: seq<byte>)
    requires k + |d| <= |s|
    ensures |r| == |s| && forall i :: 0 <= i < |s| ==> r[i] == if k <= i < k + |d| then d[i - k] else s[i]
  {
    s[..k] + d + s[k + |d|..]
  }

  function LE16(n: nat): (s: seq<byte>)
    requires n < 65536
    ensures |s| == 2
  {
    [n % 256, n / 256]
  }

  function U16(s: seq<byte>, k: nat): (n: nat)
    requires k + 2 <= |s|
  {
    var low: int, high: int := s[k], s[k + 1];
    low + 256 * high
  }

  function LE24(n: nat): (s: seq<byte>)
    requires n < 0x100_0000
    ensures |s| == 3
  {
    [n % 256, n / 256 % 256, n / 65536]
  }

  function LE32(n: nat): (s: seq<byte>)
    requires n < 0x1_0000_0000
  {
    [n % 256, n / 256 % 256, n / 65536 % 256, n / 16777216]
  }

  function U32(s: seq<byte>): nat
    requires |s| == 4
  {
    var a: int, b: int, c: int, d: int := s[0], s[1], s[2], s[3];
    a + 256 * b + 65536 * c + 16777216 * d
  }

  /** How many numbers w bytes can write. */
  function Limit(w: nat): (n: nat)
    ensures n > 0
  {
    if w == 0 then 1 else 256 * Limit(w - 1)
  }

  function LE(n: nat, w: nat): (s: seq<byte>)
    requires n < Limit(w)
    ensures |s| == w
  {
    if w == 0 then [] else [n % 256] + LE(n / 256, w - 1)
  }

  function Value(s: seq<byte>): (n: nat) {
    if s == [] then 0 else
      var low: int := s[0];
      low + 256 * Value(s[1..])
  }

  lemma {:induction false} ValueOfLE(n: nat, w: nat)
    requires n < Limit(w)
    ensures Value(LE(n, w)) == n
  {
    if w > 0 {
      ValueOfLE(n / 256, w - 1);
      assert LE(n, w)[1..] == LE(n / 256, w - 1);
    }
  }

  method CopyInto(a: array<byte>, at: nat, bytes: seq<byte>)
    requires at + |bytes| <= a.Length
    modifies a
    ensures a[..] == Patch(old(a[..]), at, bytes)
  {
    forall k | 0 <= k < |bytes| {
      a[at + k] := bytes[k];
    }
  }

  function PadTo(s: seq<byte>, n: nat): (r: seq<byte>)
    requires |s| <= n
    ensures |r| == n && s <= r
  {
    s + seq(n - |s|, _ => SPACE)
  }

  /** ASCII white space. */
  predicate IsSpace(b: byte) {
    9 <= b <= 13 || 28 <= b <= 32
  }

  predicate IsAscii(s: seq<byte>) {
    forall i :: 0 <= i < |s| ==> s[i] < 128
  }

  /** ASCII without white space. */
  predicate IsPlain(s: seq<byte>) {
    forall i :: 0 <= i < |s| ==> s[i] < 128 && !IsSpace(s[i])
  }

  function RStrip(s: seq<byte>): seq<byte> {
    if s != [] && IsSpace(s[|s| - 1]) then RStrip(s[..|s| - 1]) else s
  }

  lemma {:induction false} PadStrips(s: seq<byte>, n: nat)
    requires |s| <= n && IsPlain(s)
    ensures RStrip(PadTo(s, n)) == s && IsAscii(PadTo(s, n))
    decreases n - |s|
  {
    var r := PadTo(s, n);
    if |s| == n {
      assert r == s;
    } else {
      PadStrips(s, n - 1);
      assert r[..|r| - 1] == PadTo(s, n - 1);
    }
  }
}
