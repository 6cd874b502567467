/** The host side of the tunnel: payload carried in base64 lines over a console that may print
    other lines, and that delivers its bytes in pieces of any size. */
module ArmoredStream {
  import opened Arithmetic
  import opened Wrappers
  import opened Base64

  /** "Q9:" */
  const RECORD_PREFIX: seq<byte> := [81, 57, 58]
  const RECV := 4096
  const MESSAGE_LIMIT := 16 * 1024 * 1024

  datatype Failure = EndOfStream | BadRecord | BadSize(size: nat)

  // ---- Lines ----

  function LineOf(s: seq<byte>): (l: seq<byte>)
    requires LF in s
    ensures LF !in l && |l| < |s| && s[..|l|] == l && s[|l|] == LF
  {
    if s[0] == LF then [] else [s[0]] + LineOf(s[1..])
  }

  function AfterLine(s: seq<byte>): (r: seq<byte>)
    requires LF in s
    ensures |r| < |s| && s == LineOf(s) + [LF] + r
  {
    s[|LineOf(s)| + 1..]
  }

  lemma {:induction false} LineUnique(l: seq<byte>, r: seq<byte>)
    requires LF !in l
    ensures LF in l + [LF] + r && LineOf(l + [LF] + r) == l && AfterLine(l + [LF] + r) == r
  {
    var s := l + [LF] + r;
    assert s[|l|] == LF;
    if l != [] {
      LineUnique(l[1..], r);
      assert s[1..] == l[1..] + [LF] + r;
      assert l == [l[0]] + l[1..];
    }
  }

  function StripLeft(l: seq<byte>): seq<byte> {
    if l != [] && l[0] == CR then StripLeft(l[1..]) else l
  }

  function StripRight(l: seq<byte>): seq<byte> {
    if l != [] && l[|l| - 1] == CR then StripRight(l[..|l| - 1]) else l
  }

  function Strip(l: seq<byte>): seq<byte> {
    StripRight(StripLeft(l))
  }

  // ---- What a stream of lines delivers ----

  function Unarmour(text: seq<byte>): Option<seq<byte>> {
    if text == [] then Some([]) else Decode(text)
  }

  /** The payload of a line: none unless it is a record; a record that does not decode is an error. */
  function LineData(l: seq<byte>): Option<seq<byte>> {
    var text := Strip(l);
    if RECORD_PREFIX <= text then Unarmour(text[|RECORD_PREFIX|..]) else Some([])
  }

  /** The payload of the complete lines of s, up to a record that does not decode. */
  function Delivered(s: seq<byte>): seq<byte>
    decreases |s|
  {
    if LF !in s || LineData(LineOf(s)).None? then []
    else LineData(LineOf(s)).value + Delivered(AfterLine(s))
  }

  lemma NothingDelivered(s: seq<byte>, decoded: seq<byte>)
    requires LF !in s
    ensures decoded + Delivered(s + []) == decoded == decoded + Delivered(s)
  {
    assert s + [] == s;
  }

  /** The first line on the wire is the first line of all that is left. */
  lemma FirstLine(wire: seq<byte>, pending: seq<byte>, decoded: seq<byte>)
    requires LF in wire
    ensures |AfterLine(wire) + pending| < |wire + pending|
    ensures decoded + Delivered(wire + pending) ==
      if LineData(LineOf(wire)).None? then decoded else decoded + LineData(LineOf(wire)).value + Delivered(AfterLine(wire) + pending)
  {
    hide LineData, LineOf, AfterLine;
    var line, rest := LineOf(wire), AfterLine(wire) + pending;
    assert wire == line + [LF] + AfterLine(wire);
    LineUnique(line, rest);
    assert wire + pending == line + [LF] + rest;
    assert Delivered(wire + pending) == if LineData(line).None? then [] else LineData(line).value + Delivered(rest);
    if LineData(line).Some? {
      var data := LineData(line).value;
      assert decoded + (data + Delivered(rest)) == decoded + data + Delivered(rest);
    } else {
      assert decoded + [] == decoded;
    }
  }

  // ---- The code ----

  class Channel {
    /** What the guest has sent and the host has not received. */
    var pending: seq<byte>

    constructor (sent: seq<byte>)
      ensures pending == sent
    {
      pending := sent;
    }

    /** Some of what is pending, in a piece of any size up to the limit; nothing at the end. */
    method Recv(limit: nat) returns (chunk: seq<byte>)
      requires limit > 0
      modifies this
      ensures chunk + pending == old(pending) && |chunk| <= limit && (chunk == [] <==> old(pending) == [])
    {
      if pending == [] {
        return [];
      }
      var n: nat :| 1 <= n <= |pending| && n <= limit;
      chunk := pending[..n];
      pending := pending[n..];
    }
  }

  class Stream {
    const channel: Channel
    var decoded: seq<byte>
    var wire: seq<byte>

    constructor (channel: Channel)
      ensures this.channel == channel && decoded == [] && wire == []
    {
      this.channel := channel;
      decoded, wire := [], [];
    }

    /** What is still to be read, if nothing more is sent. */
    ghost function Remaining(): seq<byte>
      reads this, channel
    {
      decoded + Delivered(wire + channel.pending)
    }

    /** Take the next line off the wire. */
    method Fill() returns (r: Result<(), Failure>)
      modifies this, channel
      ensures r.Ok? ==> Remaining() == old(Remaining()) && old(decoded) <= decoded
      ensures r.Ok? ==> |wire + channel.pending| < |old(wire + channel.pending)|
      ensures r.Err? ==> decoded == old(Remaining()) == old(decoded)
    {
      hide Delivered, LineOf, AfterLine, LineData;
      ghost var left := wire + channel.pending;
      while LF !in wire
        invariant wire + channel.pending == left && decoded == old(decoded)
        decreases |channel.pending|
      {
        var chunk := channel.Recv(RECV);
        if chunk == [] {
          NothingDelivered(wire, decoded);
          assert wire + channel.pending == wire;
          return Err(EndOfStream);
        }
        wire := wire + chunk;
      }
      FirstLine(wire, channel.pending, decoded);
      var line := LineOf(wire);
      wire := AfterLine(wire);
      var data := LineData(line);
      if data.None? {
        return Err(BadRecord);
      }
      decoded := decoded + data.value;
      r := Ok(());
    }

    /** The next size bytes of payload: they are returned exactly if that many are to come. */
    method ReadExact(size: nat) returns (r: Result<seq<byte>, Failure>)
      modifies this, channel
      ensures r.Ok? <==> size <= |old(Remaining())|
      ensures r.Ok? ==> |r.value| == size && r.value + Remaining() == old(Remaining())
    {
      while |decoded| < size
        invariant Remaining() == old(Remaining())
        decreases |wire + channel.pending|
      {
        var f := Fill();
        if f.Err? {
          return Err(f.error);
        }
      }
      var result := decoded[..size];
      ghost var rest := Delivered(wire + channel.pending);
      assert decoded + rest == result + (decoded[size..] + rest);
      decoded := decoded[size..];
      r := Ok(result);
    }

    /** The next message of payload, with its length in its first four bytes. */
    method ReadMessage() returns (r: Result<seq<byte>, Failure>)
      modifies this, channel
      ensures r.Ok? ==> r.value + Remaining() == old(Remaining()) && IsMessage(r.value)
      ensures r.Ok? <==> MessageWaits(old(Remaining()))
    {
      ghost var all := Remaining();
      var header := ReadExact(4);
      if header.Err? {
        return Err(header.error);
      }
      assert all[..4] == header.value;
      var size := Length(header.value);
      if size < 7 || size > MESSAGE_LIMIT {
        return Err(BadSize(size));
      }
      var body := ReadExact(size - 4);
      if body.Err? {
        return Err(body.error);
      }
      var m := header.value + body.value;
      assert m[..4] == header.value;
      assert m + Remaining() == header.value + (body.value + Remaining());
      r := Ok(m);
    }
  }

  /** s starts with a whole message of a size that is allowed. */
  predicate MessageWaits(s: seq<byte>) {
    |s| >= 4 && 7 <= Length(s[..4]) <= MESSAGE_LIMIT && Length(s[..4]) <= |s|
  }

  function Length(header: seq<byte>): nat
    requires |header| == 4
  {
    var a: int, b: int, c: int, d: int := header[0], header[1], header[2], header[3];
    a + 256 * b + 65536 * c + 16777216 * d
  }

  predicate IsMessage(m: seq<byte>) {
    |m| >= 4 && 7 <= |m| <= MESSAGE_LIMIT && Length(m[..4]) == |m|
  }

  // ---- Transparency ----

  /** What the guest's end of the console prints: records, with carriage returns around them
      perhaps, and lines from elsewhere that do not look like records. */
  datatype Item = Record(data: seq<byte>, before: nat, after: nat) | Noise(line: seq<byte>)

  function Returns(n: nat): (s: seq<byte>)
    ensures |s| == n && forall i :: 0 <= i < n ==> s[i] == CR
  {
    seq(n, _ => CR)
  }

  function LineFor(item: Item): seq<byte> {
    match item
    case Record(data, before, after) => Returns(before) + RECORD_PREFIX + Encode(data) + Returns(after)
    case Noise(line) => line
  }

  function Printed(items: seq<Item>): seq<byte> {
    if items == [] then [] else LineFor(items[0]) + [LF] + Printed(items[1..])
  }

  function Payload(items: seq<Item>): seq<byte> {
    if items == [] then [] else (if items[0].Record? then items[0].data else []) + Payload(items[1..])
  }

  predicate Harmless(item: Item) {
    item.Noise? ==> LF !in item.line && !(RECORD_PREFIX <= Strip(item.line))
  }

  lemma {:induction false} StripLeftReturns(n: nat, text: seq<byte>)
    requires text != [] && text[0] != CR
    ensures StripLeft(Returns(n) + text) == text
  {
    if n == 0 {
      assert Returns(0) + text == text;
    } else {
      StripLeftReturns(n - 1, text);
      assert (Returns(n) + text)[1..] == Returns(n - 1) + text;
    }
  }

  lemma {:induction false} StripRightReturns(n: nat, text: seq<byte>)
    requires text != [] && text[|text| - 1] != CR
    ensures StripRight(text + Returns(n)) == text
  {
    var s := text + Returns(n);
    if n == 0 {
      assert s == text;
    } else {
      StripRightReturns(n - 1, text);
      assert s[..|s| - 1] == text + Returns(n - 1);
    }
  }

  /** A record delivers its data, whatever carriage returns surround it. */
  lemma RecordDelivers(data: seq<byte>, before: nat, after: nat)
    ensures var line := LineFor(Record(data, before, after)); LF !in line && LineData(line) == Some(data)
  {
    hide Encode, Decode, StripLeft, StripRight;
    var text := RECORD_PREFIX + Encode(data);
    var line := LineFor(Record(data, before, after));
    EncodedIsPlain(data);
    assert line == Returns(before) + (text + Returns(after));
    StripLeftReturns(before, text + Returns(after));
    assert text[|text| - 1] != CR by { if |Encode(data)| > 0 { assert text[|text| - 1] == Encode(data)[|Encode(data)| - 1]; } }
    StripRightReturns(after, text);
    assert text[|RECORD_PREFIX|..] == Encode(data);
    EncodedLength(data);
    if data != [] {
      DecodeUndoesEncode(data);
    }
  }

  /** The tunnel is transparent: the lines printed deliver the data of the records, and nothing else. */
  lemma {:induction false} Transparent(items: seq<Item>, tail: seq<byte>)
    requires forall i :: 0 <= i < |items| ==> Harmless(items[i])
    requires LF !in tail
    ensures Delivered(Printed(items) + tail) == Payload(items)
  {
    hide LineData, LineFor, LineOf, AfterLine;
    if items == [] {
      assert Printed(items) + tail == tail;
    } else {
      var item := items[0];
      var line, rest := LineFor(item), Printed(items[1..]) + tail;
      Transparent(items[1..], tail);
      ItemDelivers(item);
      LineUnique(line, rest);
      assert Printed(items) + tail == line + [LF] + rest;
    }
  }

  lemma ItemDelivers(item: Item)
    requires Harmless(item)
    ensures LF !in LineFor(item) && LineData(LineFor(item)) == Some(if item.Record? then item.data else [])
  {
    if item.Record? {
      RecordDelivers(item.data, item.before, item.after);
    }
  }

  function Concat(parts: seq<seq<byte>>): seq<byte> {
    if parts == [] then [] else Concat(parts[..|parts| - 1]) + parts[|parts| - 1]
  }

  /** Whatever sizes are asked for, and however the console cuts up what it delivers, what is read
      is the payload from its start on, and reading only stops for want of payload. */
  method ReadAll(items: seq<Item>, tail: seq<byte>, sizes: seq<nat>) returns (parts: seq<seq<byte>>)
    requires LF !in tail && forall i :: 0 <= i < |items| ==> Harmless(items[i])
    ensures Concat(parts) <= Payload(items)
    ensures |parts| <= |sizes| && forall i :: 0 <= i < |parts| ==> |parts[i]| == sizes[i]
    ensures |parts| < |sizes| ==> |Concat(parts)| + sizes[|parts|] > |Payload(items)|
  {
    hide Delivered, Payload, Printed;
    var channel := new Channel(Printed(items) + tail);
    var stream := new Stream(channel);
    Transparent(items, tail);
    assert [] + (Printed(items) + tail) == Printed(items) + tail;
    parts := [];
    assert [] + stream.Remaining() == stream.Remaining();
    for i := 0 to |sizes|
      invariant |parts| == i && Concat(parts) + stream.Remaining() == Payload(items)
      invariant forall j :: 0 <= j < i ==> |parts[j]| == sizes[j]
      invariant fresh(stream) && fresh(stream.channel)
    {
      ghost var left := stream.Remaining();
      var r := stream.ReadExact(sizes[i]);
      if r.Err? {
        assert Concat(parts) <= Payload(items);
        return;
      }
      assert Concat(parts) + (r.value + stream.Remaining()) == Concat(parts) + r.value + stream.Remaining();
      assert (parts + [r.value])[..i] == parts;
      parts := parts + [r.value];
    }
  }
}
