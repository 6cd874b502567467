/** Base64, section 4 of RFC 4648, as the guest side of the tunnel encodes and decodes it. */
module Base64 {
  import opened Arithmetic
  import opened Wrappers

  const PAD: byte := 61
  const LF: byte := 10
  const CR: byte := 13

  /** The alphabet, as a digit and back. */
  function Symbol(v: nat): (c: byte)
    requires v < 64
  {
    if v < 26 then 65 + v else if v < 52 then 97 + (v - 26) else if v < 62 then 48 + (v - 52) else if v == 62 then 43 else 47
  }

  function Base64Value(c: byte): (v: int)
    ensures -1 <= v < 64
  {
    if 65 <= c <= 90 then c - 65
    else if 97 <= c <= 122 then c - 97 + 26
    else if 48 <= c <= 57 then c - 48 + 52
    else if c == 43 then 62
    else if c == 47 then 63
    else -1
  }

  lemma SymbolValue(v: nat)
    requires v < 64
    ensures Base64Value(Symbol(v)) == v && Symbol(v) !in {PAD, LF, CR, 0}
  {
  }

  // ---- Encoding ----

  function Join3(a: byte, b: byte, c: byte): (v: nat)
    ensures v < 0x100_0000
  {
    var x: int, y: int, z: int := a, b, c;
    65536 * x + 256 * y + z
  }

  /** Digit k of a group of four. */
  function Digit(v: nat, k: nat): (d: nat)
    requires k < 4
    ensures d < 64
  {
    (match k case 0 => v / 262144 case 1 => v / 4096 case 2 => v / 64 case 3 => v) % 64
  }

  /** The last group, of one or two bytes. */
  function LastGroup(x: seq<byte>): (s: seq<byte>)
    requires 1 <= |x| <= 2
    ensures |s| == 4
  {
    var v := Join3(x[0], if |x| == 2 then x[1] else 0, 0);
    [Symbol(Digit(v, 0)), Symbol(Digit(v, 1)), if |x| == 2 then Symbol(Digit(v, 2)) else PAD, PAD]
  }

  function Group(a: byte, b: byte, c: byte): (s: seq<byte>)
    ensures |s| == 4
  {
    var v := Join3(a, b, c);
    [Symbol(Digit(v, 0)), Symbol(Digit(v, 1)), Symbol(Digit(v, 2)), Symbol(Digit(v, 3))]
  }

  function Encode(x: seq<byte>): (s: seq<byte>) {
    if x == [] then [] else if |x| < 3 then LastGroup(x) else Group(x[0], x[1], x[2]) + Encode(x[3..])
  }

  lemma {:induction false} EncodedLength(x: seq<byte>)
    ensures |Encode(x)| == (|x| + 2) / 3 * 4
  {
    hide Group, LastGroup;
    if |x| >= 3 {
      EncodedLength(x[3..]);
      ThirdLess(|x|);
    }
  }

  lemma ThirdLess(n: nat)
    requires n >= 3
    ensures (n + 2) / 3 * 4 == 4 + (n - 3 + 2) / 3 * 4
  {
  }

  // ---- Decoding ----

  /** One group of four, the last or not; None if it is not well formed. */
  function DecodeGroup(s: seq<byte>, last: bool): (r: Option<seq<byte>>)
    requires |s| == 4
    ensures r.Some? ==> 1 <= |r.value| <= 3
  {
    var a, b := Base64Value(s[0]), Base64Value(s[1]);
    var c := if s[2] == PAD then 0 else Base64Value(s[2]);
    var d := if s[3] == PAD then 0 else Base64Value(s[3]);
    if a < 0 || b < 0 || c < 0 || d < 0 then None
    else if (s[2] == PAD && s[3] != PAD) || (s[2] == PAD && !last) || (s[3] == PAD && !last) then None
    else
      var v := a * 262144 + b * 4096 + c * 64 + d;
      Some([v / 65536] + (if s[2] != PAD then [v / 256 % 256] else []) + (if s[3] != PAD then [v % 256] else []))
  }

  function DecodeAll(s: seq<byte>): (r: Option<seq<byte>>)
    requires |s| % 4 == 0
  {
    if s == [] then Some([]) else
      var rest := DecodeAll(s[4..]);
      var first := DecodeGroup(s[..4], |s| == 4);
      if first.None? then None else Prepend(first.value, rest)
  }

  function Decode(s: seq<byte>): Option<seq<byte>> {
    if s == [] || |s| % 4 != 0 then None else DecodeAll(s)
  }

  // ---- Round trip ----

  lemma GroupDecodes(a: byte, b: byte, c: byte, last: bool)
    ensures DecodeGroup(Group(a, b, c), last) == Some([a, b, c])
  {
    hide Symbol, Base64Value, Digit, Join3;
    var v := Join3(a, b, c);
    SymbolValue(Digit(v, 0));
    SymbolValue(Digit(v, 1));
    SymbolValue(Digit(v, 2));
    SymbolValue(Digit(v, 3));
    DigitsJoin(v);
    JoinSplits(a, b, c);
    assert [a] + [b] + [c] == [a, b, c];
  }

  lemma JoinSplits(a: byte, b: byte, c: byte)
    ensures var v := Join3(a, b, c); v / 65536 == a && v / 256 % 256 == b && v % 256 == c
  {
    var x: int, y: int, z: int := a, b, c;
    assert (65536 * x + 256 * y + z) / 256 == 256 * x + y;
    assert (256 * x + y) % 256 == y && (256 * x + y) / 256 == x;
  }

  lemma ShortDigits(a: byte, b: byte)
    ensures Digit(Join3(a, b, 0), 3) == 0 && Digit(Join3(a, 0, 0), 2) == 0
  {
  }

  lemma DigitsJoin(v: nat)
    requires v < 0x100_0000
    ensures Digit(v, 0) * 262144 + Digit(v, 1) * 4096 + Digit(v, 2) * 64 + Digit(v, 3) == v
  {
    assert v / 64 / 64 == v / 4096 && v / 4096 / 64 == v / 262144;
    assert v / 262144 < 64;
  }

  lemma LastGroupDecodes(x: seq<byte>)
    requires 1 <= |x| <= 2
    ensures DecodeGroup(LastGroup(x), true) == Some(x)
  {
    hide Symbol, Base64Value, Digit, Join3;
    var b := if |x| == 2 then x[1] else 0;
    var v := Join3(x[0], b, 0);
    SymbolValue(Digit(v, 0));
    SymbolValue(Digit(v, 1));
    SymbolValue(Digit(v, 2));
    DigitsJoin(v);
    JoinSplits(x[0], b, 0);
    ShortDigits(x[0], b);
    assert x == if |x| == 1 then [x[0]] + [] + [] else [x[0]] + [x[1]] + [];
  }

  /** Decoding undoes encoding, for every nonempty string of bytes. */
  lemma {:induction false} DecodeUndoesEncode(x: seq<byte>)
    requires x != []
    ensures Decode(Encode(x)) == Some(x)
  {
    EncodedLength(x);
    EncodeDecodes(x);
  }

  lemma {:induction false} EncodeDecodes(x: seq<byte>)
    ensures |Encode(x)| % 4 == 0 && DecodeAll(Encode(x)) == Some(x)
  {
    hide Group, LastGroup, DecodeGroup;
    EncodedLength(x);
    if x == [] {
    } else if |x| < 3 {
      LastGroupDecodes(x);
      var s := Encode(x);
      assert s[..4] == s && s[4..] == [];
      assert x + [] == x;
    } else {
      var s := Encode(x);
      GroupDecodes(x[0], x[1], x[2], |s| == 4);
      EncodeDecodes(x[3..]);
      assert s[..4] == Group(x[0], x[1], x[2]) && s[4..] == Encode(x[3..]);
      assert x == [x[0], x[1], x[2]] + x[3..];
    }
  }

  /** An encoded string holds nothing that the framing around it looks for. */
  lemma {:induction false} EncodedIsPlain(x: seq<byte>)
    ensures forall i :: 0 <= i < |Encode(x)| ==> Encode(x)[i] !in {LF, CR, 0}
  {
    if 0 < |x| < 3 {
      var v := Join3(x[0], if |x| == 2 then x[1] else 0, 0);
      SymbolValue(Digit(v, 0));
      SymbolValue(Digit(v, 1));
      SymbolValue(Digit(v, 2));
    } else if x != [] {
      var v := Join3(x[0], x[1], x[2]);
      SymbolValue(Digit(v, 0));
      SymbolValue(Digit(v, 1));
      SymbolValue(Digit(v, 2));
      SymbolValue(Digit(v, 3));
      EncodedIsPlain(x[3..]);
    }
  }

  // ---- The code ----

  /** Write a group into the buffer. */
  method PutGroup(output: array<byte>, at: nat, group: seq<byte>)
    requires |group| == 4 && at + 4 <= output.Length
    modifies output
    ensures output[..] == old(output[..])[..at] + group + old(output[..])[at + 4..]
  {
    output[at], output[at + 1], output[at + 2], output[at + 3] := group[0], group[1], group[2], group[3];
  }

  /** The buffer is as it was at first, but for what has been written from start on. */
  ghost predicate Wrote(first: seq<byte>, now: seq<byte>, start: nat, done: seq<byte>) {
    start + |done| <= |first| && now == first[..start] + done + first[start + |done|..]
  }

  method PutNext(output: array<byte>, at: nat, group: seq<byte>, ghost first: seq<byte>, ghost start: nat, ghost done: seq<byte>)
    requires Wrote(first, output[..], start, done) && |group| == 4 && at == start + |done| && at + 4 <= |first| == output.Length
    modifies output
    ensures Wrote(first, output[..], start, done + group)
  {
    hide Wrote;
    ghost var before := output[..];
    PutGroup(output, at, group);
    PutAfter(first, before, output[..], start, done, group);
  }

  method EncodeInto(input: seq<byte>, output: array<byte>, start: nat) returns (out: nat)
    requires start + |Encode(input)| <= output.Length
    modifies output
    ensures out == |Encode(input)|
    ensures output[..] == old(output[..])[..start] + Encode(input) + old(output[..])[start + out..]
  {
    hide Wrote, Encode, Group, LastGroup, Join3, Digit, Symbol;
    var i := 0;
    out := 0;
    ghost var first, done: seq<byte> := output[..], [];
    EncodeStart(input);
    WroteNothing(first, start);
    while i + 3 <= |input|
      invariant i <= |input| && out == |done| <= |Encode(input)|
      invariant Wrote(first, output[..], start, done)
      invariant Encode(input) == done + Encode(input[i..])
    {
      var group := Group(input[i], input[i + 1], input[i + 2]);
      EncodeStep(input, i, done);
      PutNext(output, start + out, group, first, start, done);
      done := done + group;
      out := out + 4;
      i := i + 3;
    }
    EncodeLast(input, i, done);
    if i < |input| {
      var group := LastGroup(input[i..]);
      PutNext(output, start + out, group, first, start, done);
      done := done + group;
      out := out + 4;
    }
    WroteAll(first, output[..], start, done, Encode(input));
  }

  lemma WroteNothing(first: seq<byte>, start: nat)
    requires start <= |first|
    ensures Wrote(first, first, start, [])
  {
    assert first == first[..start] + [] + first[start..];
  }

  lemma PutAfter(first: seq<byte>, before: seq<byte>, after: seq<byte>, start: nat, done: seq<byte>, group: seq<byte>)
    requires Wrote(first, before, start, done) && |group| == 4 && start + |done| + 4 <= |first| == |before|
    requires after == before[..start + |done|] + group + before[start + |done| + 4..]
    ensures Wrote(first, after, start, done + group)
  {
    assert before[..start + |done|] == first[..start] + done;
    assert before[start + |done| + 4..] == first[start + |done| + 4..];
  }

  lemma WroteAll(first: seq<byte>, now: seq<byte>, start: nat, done: seq<byte>, all: seq<byte>)
    requires Wrote(first, now, start, done) && (all == done || all == done + [])
    ensures start + |all| <= |first| && now == first[..start] + all + first[start + |all|..]
  {
    assert done + [] == done;
  }

  lemma EncodeStart(input: seq<byte>)
    ensures Encode(input) == [] + Encode(input[0..])
  {
    assert input[0..] == input;
  }

  lemma EncodeStep(input: seq<byte>, i: nat, done: seq<byte>)
    requires i + 3 <= |input| && Encode(input) == done + Encode(input[i..])
    ensures var group := Group(input[i], input[i + 1], input[i + 2]);
      Encode(input) == (done + group) + Encode(input[i + 3..]) && |done| + 4 <= |Encode(input)|
  {
    hide Group;
    var rest := input[i..];
    assert rest[3..] == input[i + 3..] && rest[0] == input[i] && rest[1] == input[i + 1] && rest[2] == input[i + 2];
  }

  lemma EncodeLast(input: seq<byte>, i: nat, done: seq<byte>)
    requires i <= |input| < i + 3 && Encode(input) == done + Encode(input[i..])
    ensures Encode(input) == done + if i < |input| then LastGroup(input[i..]) else []
  {
    hide LastGroup;
  }

  /** Decode into a buffer of three bytes for every four; nothing is written past it. */
  method DecodeInto(input: seq<byte>, output: array<byte>) returns (r: Option<nat>)
    requires |input| / 4 * 3 <= output.Length
    modifies output
    ensures r.None? <==> Decode(input).None?
    ensures r.Some? ==> r.value <= output.Length && output[..r.value] == Decode(input).value
  {
    hide DecodeGroup;
    if |input| == 0 || |input| % 4 != 0 {
      return None;
    }
    var i, out := 0, 0;
    ghost var done: seq<byte> := [];
    assert input[0..] == input;
    PrependNothing(DecodeAll(input));
    while i < |input|
      invariant i <= |input| && i % 4 == 0 && out == |done| <= i / 4 * 3 && output[..out] == done
      invariant DecodeAll(input) == Prepend(done, DecodeAll(input[i..]))
    {
      var g := DecodeGroup(input[i..i + 4], i + 4 == |input|);
      assert input[i..][..4] == input[i..i + 4] && input[i..][4..] == input[i + 4..];
      if g.None? {
        return None;
      }
      PrependMore(done, g.value, DecodeAll(input[i + 4..]));
      PutBytes(output, out, g.value);
      done := done + g.value;
      out := out + |g.value|;
      i := i + 4;
    }
    assert done + [] == done;
    r := Some(out);
  }

  method PutBytes(output: array<byte>, at: nat, bytes: seq<byte>)
    requires at + |bytes| <= output.Length
    modifies output
    ensures output[..at + |bytes|] == old(output[..at]) + bytes
  {
    for k := 0 to |bytes|
      invariant output[..at + k] == old(output[..at]) + bytes[..k]
    {
      output[at + k] := bytes[k];
    }
    assert bytes[..|bytes|] == bytes;
  }

  lemma PrependNothing(rest: Option<seq<byte>>)
    ensures Prepend([], rest) == rest
  {
    if rest.Some? { assert [] + rest.value == rest.value; }
  }

  lemma PrependMore(done: seq<byte>, group: seq<byte>, rest: Option<seq<byte>>)
    ensures Prepend(done, Prepend(group, rest)) == Prepend(done + group, rest)
  {
    if rest.Some? { assert done + (group + rest.value) == (done + group) + rest.value; }
  }

  function Prepend(done: seq<byte>, rest: Option<seq<byte>>): Option<seq<byte>> {
    if rest.Some? then Some(done + rest.value) else None
  }
}
