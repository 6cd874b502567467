/** The guest side of the tunnel: a child's output printed as records, and records read from the
    console decoded for the child. */
module GuestRelay {
  import opened Arithmetic
  import opened Wrappers
  import opened Base64
  import opened ArmoredStream

  const RECORD_LIMIT := 16 * 1024 * 1024
  const RECORD_MAX := RECORD_LIMIT - 1
  const CHUNK := 4096

  // ---- From the child to the console ----

  function Records(chunks: seq<seq<byte>>): seq<Item> {
    if chunks == [] then [] else [Record(chunks[0], 0, 0)] + Records(chunks[1..])
  }

  lemma {:induction false} RecordsCarry(chunks: seq<seq<byte>>)
    ensures Payload(Records(chunks)) == Joined(chunks) && forall i :: 0 <= i < |Records(chunks)| ==> Harmless(Records(chunks)[i])
  {
    if chunks != [] {
      RecordsCarry(chunks[1..]);
      assert Records(chunks)[1..] == Records(chunks[1..]);
    }
  }

  function Joined(parts: seq<seq<byte>>): seq<byte> {
    if parts == [] then [] else parts[0] + Joined(parts[1..])
  }

  lemma {:induction false} PrintedNext(chunks: seq<seq<byte>>, c: seq<byte>)
    ensures Printed(Records(chunks + [c])) == Printed(Records(chunks)) + (RECORD_PREFIX + Encode(c) + [LF])
  {
    hide Encode;
    if chunks == [] {
      assert [c][1..] == [];
      assert Records([c]) == [Record(c, 0, 0)] && Records([c])[1..] == [];
      assert LineFor(Record(c, 0, 0)) == RECORD_PREFIX + Encode(c);
    } else {
      PrintedNext(chunks[1..], c);
      assert (chunks + [c])[1..] == chunks[1..] + [c];
      assert Records(chunks)[1..] == Records(chunks[1..]) && Records(chunks + [c])[1..] == Records(chunks[1..] + [c]);
    }
  }

  /** Print what the child writes, in whatever chunks it is read; the line buffer is never overrun. */
  method EncodeOutput(chunks: seq<seq<byte>>) returns (printed: seq<byte>)
    requires forall i :: 0 <= i < |chunks| ==> 1 <= |chunks[i]| <= CHUNK
    ensures printed == Printed(Records(chunks))
  {
    hide Printed, Encode;
    var output := new byte[3 + (CHUNK + 2) / 3 * 4 + 1];
    output[0], output[1], output[2] := RECORD_PREFIX[0], RECORD_PREFIX[1], RECORD_PREFIX[2];
    printed := [];
    NothingPrinted();
    for i := 0 to |chunks|
      invariant output[..3] == RECORD_PREFIX && printed == Printed(Records(chunks[..i]))
    {
      EncodedLength(chunks[i]);
      var n := EncodeInto(chunks[i], output, 3);
      assert output[..3] == RECORD_PREFIX && output[3..3 + n] == Encode(chunks[i]);
      output[3 + n] := LF;
      assert output[..3 + n + 1] == RECORD_PREFIX + Encode(chunks[i]) + [LF];
      printed := printed + output[..3 + n + 1];
      PrintedNext(chunks[..i], chunks[i]);
      assert chunks[..i + 1] == chunks[..i] + [chunks[i]];
    }
    assert chunks[..|chunks|] == chunks;
  }

  lemma NothingPrinted()
    ensures Printed(Records([])) == []
  {
  }

  // ---- From the console to the child ----

  function WithoutReturns(l: seq<byte>): (r: seq<byte>)
    ensures |r| <= |l|
  {
    if l == [] then [] else WithoutReturns(l[..|l| - 1]) + if l[|l| - 1] == CR then [] else [l[|l| - 1]]
  }

  /** What a C string function sees: up to the first zero. */
  function CString(s: seq<byte>): (r: seq<byte>)
    ensures r <= s && 0 !in r
  {
    if s == [] || s[0] == 0 then [] else [s[0]] + CString(s[1..])
  }

  function RecordData(record: seq<byte>): seq<byte> {
    var text := CString(record);
    if RECORD_PREFIX <= text && Decode(text[3..]).Some? then Decode(text[3..]).value else []
  }

  /** What the child gets from s: the data of its lines, up to a line that is too long. */
  function Received(s: seq<byte>): seq<byte>
    decreases |s|
  {
    if LF !in s || |WithoutReturns(LineOf(s))| > RECORD_MAX then []
    else RecordData(WithoutReturns(LineOf(s))) + Received(AfterLine(s))
  }

  datatype ReadResult = Got(length: nat) | Eof | TooLong

  predicate Capacity(c: nat) {
    exists k :: 0 <= k <= 12 && c == CapacityAt(k)
  }

  function CapacityAt(k: nat): nat {
    4096 * Pow2(k)
  }

  class Relay {
    var input: seq<byte>
    var child: seq<byte>
    var record: array<byte>
    var decoded: array<byte>

    ghost predicate Valid()
      reads this
    {
      Capacity(record.Length) && record != decoded
    }

    constructor (input: seq<byte>)
      ensures Valid() && fresh(record) && fresh(decoded) && this.input == input && child == []
    {
      this.input, child := input, [];
      record, decoded := new byte[4096], new byte[0];
      new;
      FirstCapacity();
    }

    /** Double the record buffer, unless that takes it past the limit. */
    method GrowRecord(used: nat) returns (ok: bool)
      requires Valid() && used <= record.Length
      modifies this`record
      ensures Valid() && (ok <==> old(record.Length) < RECORD_LIMIT)
      ensures ok ==> fresh(record) && record.Length == 2 * old(record.Length) && record[..used] == old(record[..used])
      ensures !ok ==> record == old(record)
    {
      CapacityDoubles(record.Length);
      var next := record.Length * 2;
      if next > RECORD_LIMIT {
        return false;
      }
      var grown := new byte[next];
      for i := 0 to used
        invariant record == old(record) && grown[..i] == record[..i] && used <= record.Length && grown.Length == 2 * record.Length
        invariant record[..used] == old(record[..used])
      {
        grown[i] := record[i];
      }
      record := grown;
      ok := true;
    }

    /** Keep one more byte of a line, if there is room or can be. */
    method Keep(length: nat, c: byte) returns (ok: bool)
      requires Valid() && length < record.Length
      modifies this`record, record
      ensures Valid() && (record == old(record) || fresh(record))
      ensures ok ==> length + 1 < record.Length && record[..length + 1] == old(record[..length]) + [c]
      ensures !ok ==> length + 1 >= RECORD_LIMIT
    {
      hide Capacity;
      CapacityBounds(record.Length);
      ok := true;
      if length + 1 >= record.Length {
        ok := GrowRecord(length);
        if !ok {
          return;
        }
      }
      record[length] := c;
    }

    /** Read a line, dropping carriage returns, into a buffer that grows on demand. */
    method ReadRecord() returns (r: ReadResult)
      requires Valid()
      modifies this`input, this`record, record
      ensures Valid() && (record == old(record) || fresh(record))
      ensures r.Got? ==> r.length < record.Length && ReadLine(old(input), input, record[..r.length])
      ensures r.Eof? ==> LF !in old(input)
      ensures r.TooLong? ==> LF in old(input) ==> |WithoutReturns(LineOf(old(input)))| > RECORD_MAX
    {
      hide Capacity, WithoutReturns, LineOf, AfterLine, ReadLine;
      var length := 0;
      ghost var all, read: seq<byte> := input, [];
      NoReturns();
      CapacityBounds(record.Length);
      while input != []
        invariant Valid() && (record == old(record) || fresh(record)) && all == read + input && LF !in read
        invariant length < record.Length && length <= RECORD_MAX && record[..length] == WithoutReturns(read)
        decreases |input|
      {
        var c := input[0];
        input := input[1..];
        assert all == read + [c] + input;
        if c == LF {
          LineRead(all, read, input);
          return Got(length);
        }
        ReturnsNext(read, c);
        if c != CR {
          var ok := Keep(length, c);
          if !ok {
            if LF in all { PrefixShorter(read + [c], input); }
            return TooLong;
          }
          CapacityBounds(record.Length);
          length := length + 1;
        }
        read := read + [c];
      }
      assert all == read;
      return Eof;
    }

    /** Decode one record for the child; a line that is none is ignored. */
    method PassOn(length: nat)
      requires Valid() && length < record.Length
      modifies this`child, this`decoded, decoded
      ensures Valid() && record == old(record) && record[..] == old(record[..])
      ensures decoded == old(decoded) || fresh(decoded)
      ensures child == old(child) + RecordData(old(record[..length]))
    {
      hide Capacity, Decode, CString;
      var text := CString(record[..length]);
      assert child + [] == child;
      if !(RECORD_PREFIX <= text) {
        return;
      }
      var encoded := text[3..];
      var required := |encoded| / 4 * 3;
      if required > decoded.Length {
        decoded := new byte[required];
      }
      var n := DecodeInto(encoded, decoded);
      if n.Some? {
        child := child + decoded[..n.value];
      }
    }

    /** Serve the child until the console closes, or prints a line that is too long. */
    method DecodeInput()
      requires Valid()
      modifies this, record, decoded
      ensures child == old(child) + Received(old(input))
    {
      hide Capacity, Received, RecordData, ReadLine;
      assert child + Received(input) == child + Received(input);
      while true
        invariant Valid() && (record == old(record) || fresh(record)) && (decoded == old(decoded) || fresh(decoded))
        invariant child + Received(input) == old(child) + Received(old(input))
        decreases |input|
      {
        ghost var all, before := input, child;
        var r := ReadRecord();
        if !r.Got? {
          ReceivedLast(all);
          assert child + [] == child;
          return;
        }
        ghost var line := record[..r.length];
        PassOn(r.length);
        ReceivedNext(all, input, line);
        assert before + (RecordData(line) + Received(input)) == before + RecordData(line) + Received(input);
      }
    }
  }

  lemma ReceivedLast(s: seq<byte>)
    requires LF in s ==> |WithoutReturns(LineOf(s))| > RECORD_MAX
    ensures Received(s) == []
  {
  }

  lemma ReceivedNext(all: seq<byte>, rest: seq<byte>, record: seq<byte>)
    requires ReadLine(all, rest, record)
    ensures Received(all) == RecordData(record) + Received(rest) && |rest| < |all|
  {
  }

  // ---- What the host sends ----

  /** The largest message that fits a line the guest accepts. */
  const LARGEST := 12582909

  function Sent(messages: seq<seq<byte>>): seq<byte> {
    if messages == [] then [] else RECORD_PREFIX + Encode(messages[0]) + [LF] + Sent(messages[1..])
  }

  /** The messages up to the first that is too large. */
  function UpToTooLarge(messages: seq<seq<byte>>): seq<seq<byte>> {
    if messages == [] || |messages[0]| > LARGEST then [] else [messages[0]] + UpToTooLarge(messages[1..])
  }

  lemma {:induction false} PlainKept(l: seq<byte>)
    requires CR !in l
    ensures WithoutReturns(l) == l
  {
    hide WithoutReturns;
    if l == [] {
      NoReturns();
    } else {
      var n := |l| - 1;
      assert l[n] in l;
      assert CR !in l[..n];
      PlainKept(l[..n]);
      ReturnsNext(l[..n], l[n]);
      assert l == l[..n] + [l[n]];
    }
  }

  lemma {:induction false} NoZeroKept(s: seq<byte>)
    requires 0 !in s
    ensures CString(s) == s
  {
    if s != [] {
      NoZeroKept(s[1..]);
      assert s == [s[0]] + s[1..];
    }
  }

  lemma MessageLine(m: seq<byte>)
    ensures var line := RECORD_PREFIX + Encode(m);
      && LF !in line && WithoutReturns(line) == line && RecordData(line) == m
      && (|line| > RECORD_MAX <==> |m| > LARGEST)
  {
    hide Encode, Decode, WithoutReturns, CString;
    var line := RECORD_PREFIX + Encode(m);
    EncodedIsPlain(m);
    PlainKept(line);
    NoZeroKept(line);
    EncodedLength(m);
    assert line[3..] == Encode(m);
    if m != [] {
      DecodeUndoesEncode(m);
    } else {
      NothingDecodes();
    }
  }

  lemma NothingDecodes()
    ensures Encode([]) == [] && Decode([]) == None
  {
  }

  /** The child receives the messages sent, up to the first that is larger than a line can carry. */
  lemma {:induction false} MessagesArrive(messages: seq<seq<byte>>)
    ensures Received(Sent(messages)) == Joined(UpToTooLarge(messages))
  {
    hide WithoutReturns, LineOf, AfterLine, RecordData;
    if messages != [] {
      var line, rest := RECORD_PREFIX + Encode(messages[0]), Sent(messages[1..]);
      MessageLine(messages[0]);
      LineUnique(line, rest);
      MessagesArrive(messages[1..]);
      var up := UpToTooLarge(messages);
      assert up != [] ==> up[1..] == UpToTooLarge(messages[1..]);
    }
  }

  /** All messages arrive exactly if none is larger than LARGEST, whereas the host relays messages
      of up to MESSAGE_LIMIT bytes. */
  lemma AllArriveIff(messages: seq<seq<byte>>)
    requires forall i :: 0 <= i < |messages| ==> |messages[i]| <= MESSAGE_LIMIT
    ensures Received(Sent(messages)) == Joined(messages) <==> forall i :: 0 <= i < |messages| ==> |messages[i]| <= LARGEST
    ensures LARGEST < MESSAGE_LIMIT
  {
    MessagesArrive(messages);
    ShorterJoin(messages);
  }

  lemma {:induction false} ShorterJoin(messages: seq<seq<byte>>)
    ensures |Joined(UpToTooLarge(messages))| <= |Joined(messages)|
    ensures Joined(UpToTooLarge(messages)) == Joined(messages) <==> forall i :: 0 <= i < |messages| ==> |messages[i]| <= LARGEST
  {
    if messages != [] {
      ShorterJoin(messages[1..]);
      if |messages[0]| <= LARGEST {
        var up := UpToTooLarge(messages);
        assert up[0] == messages[0] && up[1..] == UpToTooLarge(messages[1..]);
        var a, b := Joined(up[1..]), Joined(messages[1..]);
        assert messages[0] + a == messages[0] + b ==> a == b by {
          assert (messages[0] + a)[|messages[0]|..] == a && (messages[0] + b)[|messages[0]|..] == b;
        }
        assert (forall i :: 0 <= i < |messages| ==> |messages[i]| <= LARGEST) <==> forall i :: 0 <= i < |messages[1..]| ==> |messages[1..][i]| <= LARGEST by {
          assert forall i :: 0 <= i < |messages[1..]| ==> messages[1..][i] == messages[i + 1];
          assert forall i :: 1 <= i < |messages| ==> messages[i] == messages[1..][i - 1];
        }
      }
    }
  }

  /** One line of a length allowed has been read from all, leaving rest. */
  ghost predicate ReadLine(all: seq<byte>, rest: seq<byte>, record: seq<byte>) {
    LF in all && rest == AfterLine(all) && record == WithoutReturns(LineOf(all)) && |record| <= RECORD_MAX
  }

  lemma LineRead(all: seq<byte>, line: seq<byte>, rest: seq<byte>)
    requires LF !in line && all == line + [LF] + rest && |WithoutReturns(line)| <= RECORD_MAX
    ensures ReadLine(all, rest, WithoutReturns(line))
  {
    LineUnique(line, rest);
  }

  lemma NoReturns()
    ensures WithoutReturns([]) == []
  {
  }

  lemma ReturnsNext(l: seq<byte>, c: byte)
    ensures WithoutReturns(l + [c]) == WithoutReturns(l) + if c == CR then [] else [c]
  {
    assert (l + [c])[..|l|] == l;
  }

  lemma {:induction false} ReturnsGrow(a: seq<byte>, b: seq<byte>)
    ensures |WithoutReturns(a)| <= |WithoutReturns(a + b)|
  {
    if b == [] {
      assert a + b == a;
    } else {
      ReturnsGrow(a, b[..|b| - 1]);
      assert a + b == (a + b[..|b| - 1]) + [b[|b| - 1]];
      ReturnsNext(a + b[..|b| - 1], b[|b| - 1]);
    }
  }

  /** A line that has already been read in part is no shorter than that part. */
  lemma PrefixShorter(read: seq<byte>, rest: seq<byte>)
    requires LF !in read && LF in read + rest
    ensures |WithoutReturns(read)| <= |WithoutReturns(LineOf(read + rest))|
  {
    LineSkips(read, rest);
    ReturnsGrow(read, LineOf(rest));
  }

  lemma {:induction false} LineSkips(read: seq<byte>, rest: seq<byte>)
    requires LF !in read && LF in read + rest
    ensures LF in rest && LineOf(read + rest) == read + LineOf(rest)
  {
    if read == [] {
      assert read + rest == rest;
    } else {
      var all := read + rest;
      assert all[1..] == read[1..] + rest && all[0] == read[0] && read[0] in read;
      assert LF in all[1..];
      LineSkips(read[1..], rest);
      assert LineOf(all) == [all[0]] + LineOf(all[1..]);
      assert read == [read[0]] + read[1..];
    }
  }

  lemma FirstCapacity()
    ensures Capacity(4096)
  {
    assert CapacityAt(0) == 4096;
  }

  lemma CapacityBounds(c: nat)
    requires Capacity(c)
    ensures 4096 <= c <= RECORD_LIMIT
  {
    var k :| 0 <= k <= 12 && c == CapacityAt(k);
    Pow2Bounds(k);
  }

  lemma Pow2Bounds(k: nat)
    ensures 1 <= Pow2(k) && (k <= 12 ==> Pow2(k) <= 4096) && (k < 12 ==> Pow2(k) <= 2048)
  {
    assert Pow2(4) == 16 && Pow2(8) == 256 && Pow2(11) == 2048 && Pow2(12) == 4096;
    if k < 12 { Pow2Grows(k, 11); }
  }

  lemma CapacityDoubles(c: nat)
    requires Capacity(c)
    ensures c < RECORD_LIMIT ==> Capacity(2 * c) && 2 * c <= RECORD_LIMIT
    ensures c == RECORD_LIMIT ==> 2 * c > RECORD_LIMIT
    ensures c <= RECORD_LIMIT
  {
    var k :| 0 <= k <= 12 && c == CapacityAt(k);
    Pow2Bounds(k);
    if k < 12 {
      assert CapacityAt(k + 1) == 2 * c;
    } else {
      TopCapacity();
    }
  }

  lemma TopCapacity()
    ensures CapacityAt(12) == RECORD_LIMIT
  {
    assert Pow2(4) == 16 && Pow2(8) == 256 && Pow2(12) == 4096;
  }
}
