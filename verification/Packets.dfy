/** The debugger stub's serial packets: $data#checksum, acknowledged by '+', refused by '-', sent again until '+'. */
module Packets {

  type Byte = b: int | 0 <= b < 256
  type Text = seq<Byte>

  const DOLLAR: Byte := 36
  const HASH: Byte := 35
  const PLUS: Byte := 43
  const MINUS: Byte := 45
  const COLON: Byte := 58

  /** The digit a byte stands for, or -1. */
  function HexValue(b: Byte): (v: int)
    ensures -1 <= v < 16
  {
    if 48 <= b <= 57 then b - 48
    else if 97 <= b <= 102 then b - 97 + 10
    else if 65 <= b <= 70 then b - 65 + 10
    else -1
  }

  /** hexchars. */
  function HexDigit(v: int): (b: Byte)
    requires 0 <= v < 16
    ensures HexValue(b) == v && b !in {0, DOLLAR, HASH, COLON}
  {
    if v < 10 then 48 + v else 97 + v - 10
  }

  /** Two digits make a byte; arithmetic wraps as it does in a char. */
  function HexPair(hi: Byte, lo: Byte): Byte { (16 * HexValue(hi) + HexValue(lo)) % 256 }

  function Sum(s: Text): nat { if s == [] then 0 else Sum(s[..|s| - 1]) + s[|s| - 1] }

  function Checksum(s: Text): Byte { Sum(s) % 256 }

  /** The C string that starts at index i. */
  function CString(buffer: Text, i: nat): Text
    decreases |buffer| - i
  { if i < |buffer| && buffer[i] != 0 then [buffer[i]] + CString(buffer, i + 1) else [] }

  /* Receiving. */

  datatype Phase = Hunting | Filling(count: nat)

  /** The input may run out, or a packet is left at index start of the buffer. */
  datatype Outcome = Starved(buffer: Text, replies: Text)
                   | Delivered(start: nat, buffer: Text, replies: Text, rest: Text)

  function Told(b: Byte, o: Outcome): Outcome { o.(replies := [b] + o.replies) }

  ghost predicate FitsPhase(buffer: Text, phase: Phase) {
    |buffer| >= 3 && (phase.Filling? ==> phase.count < |buffer|)
  }

  /** What getpacket does with the input that is still to come. */
  ghost function Receive(buffer: Text, phase: Phase, input: Text): Outcome
    requires FitsPhase(buffer, phase)
    decreases |input|, if phase.Filling? then 1 else 0
  {
    if phase.Filling? && phase.count == |buffer| - 1 then Receive(buffer[phase.count := 0], Hunting, input)
    else if input == [] then Starved(buffer, [])
    else if input[0] == DOLLAR then Receive(buffer, Filling(0), input[1..])
    else if phase.Hunting? then Receive(buffer, Hunting, input[1..])
    else if input[0] != HASH then Receive(buffer[phase.count := input[0]], Filling(phase.count + 1), input[1..])
    else if |input| < 3 then Starved(buffer[phase.count := 0], [])
    else Finish(buffer, phase.count, HexPair(input[1], input[2]), input[3..])
  }

  ghost function Finish(buffer: Text, count: nat, sent: Byte, rest: Text): Outcome
    requires |buffer| >= 3 && count < |buffer|
    decreases |rest|, 1
  {
    var ended := buffer[count := 0];
    if sent != Checksum(buffer[..count]) then Told(MINUS, Receive(ended, Hunting, rest))
    else if ended[2] == COLON then Delivered(3, ended, [PLUS, ended[0], ended[1]], rest)
    else Delivered(0, ended, [PLUS], rest)
  }

  ghost function Prefixed(replies: Text, o: Outcome): Outcome { o.(replies := replies + o.replies) }

  /** One byte that starts a packet, one that is noise, one that is data. */
  lemma ReceiveByte(buffer: Text, phase: Phase, input: Text, pos: nat)
    requires FitsPhase(buffer, phase) && pos < |input| && (phase.Filling? ==> phase.count < |buffer| - 1)
    ensures var b, rest := input[pos], input[pos + 1..];
      && (b == DOLLAR ==> Receive(buffer, phase, input[pos..]) == Receive(buffer, Filling(0), rest))
      && (b != DOLLAR && phase.Hunting? ==> Receive(buffer, phase, input[pos..]) == Receive(buffer, Hunting, rest))
      && (b != DOLLAR && b != HASH && phase.Filling? ==>
            Receive(buffer, phase, input[pos..]) == Receive(buffer[phase.count := b], Filling(phase.count + 1), rest))
  {
    assert input[pos..][1..] == input[pos + 1..];
  }

  lemma ReceiveEnd(buffer: Text, count: nat, input: Text, pos: nat)
    requires FitsPhase(buffer, Filling(count)) && count < |buffer| - 1 && pos < |input| && input[pos] == HASH
    ensures Receive(buffer, Filling(count), input[pos..]) ==
              if |input| - pos < 3 then Starved(buffer[count := 0], [])
              else Finish(buffer, count, HexPair(input[pos + 1], input[pos + 2]), input[pos + 3..])
  {
    assert |input| - pos >= 3 ==> input[pos..][3..] == input[pos + 3..];
  }

  lemma ChecksumMore(s: Text, b: Byte)
    ensures Checksum(s + [b]) == (Checksum(s) + b) % 256
  {
    assert (s + [b])[..|s|] == s;
  }

  datatype Stop = RanOut | Full | AtHash

  /** The filling loop, which starts again at each '$'. */
  method Fill(buffer: array<Byte>, input: Text, from: nat) returns (stop: Stop, count: nat, checksum: Byte, pos: nat)
    requires buffer.Length >= 3 && from <= |input|
    modifies buffer
    ensures from <= pos <= |input| && count < buffer.Length
    ensures var was := Receive(old(buffer[..]), Filling(0), input[from..]);
      match stop
      case RanOut => was == Starved(buffer[..], []) && pos == |input|
      case Full => count == buffer.Length - 1 && was == Receive(buffer[..], Filling(count), input[pos..])
      case AtHash =>
        pos < |input| && count < buffer.Length - 1 && was == Receive(buffer[..], Filling(count), input[pos..])
    ensures stop.AtHash? ==> input[pos] == HASH && checksum == Checksum(buffer[..count])
  {
    hide Receive, Checksum;
    checksum, count, pos := 0, 0, from;
    assert Checksum([]) == 0 by { EmptyChecksum(); }
    assert buffer[..0] == [];
    while count < buffer.Length - 1
      invariant from <= pos <= |input| && count < buffer.Length
      invariant checksum == Checksum(buffer[..count])
      invariant Receive(old(buffer[..]), Filling(0), input[from..]) == Receive(buffer[..], Filling(count), input[pos..])
      decreases |input| - pos
    {
      if pos == |input| {
        assert input[pos..] == [];
        ReceiveNothing(buffer[..], count);
        return RanOut, count, checksum, pos;
      }
      var ch := input[pos];
      if ch == HASH { return AtHash, count, checksum, pos; }
      ReceiveByte(buffer[..], Filling(count), input, pos);
      pos := pos + 1;
      if ch == DOLLAR {
        checksum, count := 0, 0;
        assert buffer[..0] == [];
      } else {
        ghost var was := buffer[..];
        ChecksumMore(was[..count], ch);
        checksum := (checksum + ch) % 256;
        buffer[count] := ch;
        assert buffer[..] == was[count := ch];
        assert buffer[..count + 1] == was[..count] + [ch];
        count := count + 1;
      }
    }
    stop := Full;
  }

  lemma EmptyChecksum() ensures Checksum([]) == 0 {}

  lemma ReceiveNothing(buffer: Text, count: nat)
    requires |buffer| >= 3 && count < |buffer| - 1
    ensures Receive(buffer, Filling(count), []) == Starved(buffer, [])
  {}

  /** The hunt for the start of a packet. */
  method Hunt(input: Text, from: nat, ghost buffer: Text) returns (pos: nat)
    requires from <= |input| && |buffer| >= 3
    ensures from <= pos <= |input|
    ensures pos < |input| ==> input[pos] == DOLLAR
    ensures Receive(buffer, Hunting, input[from..]) == Receive(buffer, Hunting, input[pos..])
  {
    hide Receive;
    pos := from;
    while pos < |input| && input[pos] != DOLLAR
      invariant from <= pos <= |input|
      invariant Receive(buffer, Hunting, input[from..]) == Receive(buffer, Hunting, input[pos..])
    {
      ReceiveByte(buffer, Hunting, input, pos);
      pos := pos + 1;
    }
  }

  method GetPacket(buffer: array<Byte>, input: Text) returns (delivered: bool, start: nat, replies: Text, pos: nat)
    requires buffer.Length >= 3
    modifies buffer
    ensures pos <= |input|
    ensures delivered ==>
      Receive(old(buffer[..]), Hunting, input) == Delivered(start, buffer[..], replies, input[pos..])
    ensures !delivered ==> Receive(old(buffer[..]), Hunting, input) == Starved(buffer[..], replies)
  {
    hide Receive, Checksum;
    delivered, start, replies, pos := false, 0, [], 0;
    assert input[0..] == input;
    while true
      invariant pos <= |input| && !delivered && start == 0
      invariant Receive(old(buffer[..]), Hunting, input) ==
                  Prefixed(replies, Receive(buffer[..], Hunting, input[pos..]))
      decreases |input| - pos
    {
      pos := Hunt(input, pos, buffer[..]);
      if pos == |input| {
        assert input[pos..] == [];
        HuntNothing(buffer[..]);
        return;
      }
      ReceiveByte(buffer[..], Hunting, input, pos);
      var stop, count, checksum;
      stop, count, checksum, pos := Fill(buffer, input, pos + 1);
      if stop == RanOut { return; }
      ghost var was := buffer[..];
      buffer[count] := 0;
      assert buffer[..] == was[count := 0];
      if stop == Full {
        ReceiveFull(was, count, input[pos..]);
      } else {
        ReceiveEnd(was, count, input, pos);
        if |input| - pos < 3 {
          pos := |input|;
          return;
        }
        var sent := HexPair(input[pos + 1], input[pos + 2]);
        pos := pos + 3;
        if checksum != sent {
          replies := replies + [MINUS];
        } else {
          delivered, replies := true, replies + [PLUS];
          if buffer[2] == COLON {
            replies, start := replies + [buffer[0], buffer[1]], 3;
          }
          return;
        }
      }
    }
  }

  lemma HuntNothing(buffer: Text)
    requires |buffer| >= 3
    ensures Receive(buffer, Hunting, []) == Starved(buffer, [])
  {}

  lemma ReceiveFull(buffer: Text, count: nat, input: Text)
    requires |buffer| >= 3 && count == |buffer| - 1
    ensures Receive(buffer, Filling(count), input) == Receive(buffer[count := 0], Hunting, input)
  {}

  /* Sending. */

  /** What putpacket sends for a text: once for each time round its loop. */
  function Framed(text: Text): (f: Text)
    ensures |f| == |text| + 4
  {
    var c := Checksum(text);
    [DOLLAR] + text + [HASH, HexDigit(c / 16), HexDigit(c % 16)]
  }

  function Repeated(f: Text, n: nat): Text { if n == 0 then [] else Repeated(f, n - 1) + f }

  /** A text as characters. */
  function Bytes(text: string): (r: Text)
    requires forall i :: 0 <= i < |text| ==> text[i] < 256 as char
    ensures |r| == |text| && forall i :: 0 <= i < |text| ==> r[i] == text[i] as int
  { if text == "" then [] else Bytes(text[..|text| - 1]) + [text[|text| - 1] as int] }

  /** The frame of the protocol's own answer. */
  lemma FrameOfOK()
    ensures Framed(Bytes("OK")) == Bytes("$OK#9a")
  {
    var ok := Bytes("OK");
    assert ok == [79, 75] && ok[..1] == [79] && ok[..1][..0] == [];
    assert Sum([79]) == 79 by { assert [79][..0] == []; }
    assert Checksum(ok) == 154;
    assert Bytes("$OK#9a") == [36, 79, 75, 35, 57, 97];
  }

  /** The digits are the characters of the hexadecimal numerals, and both cases of the letters are read. */
  lemma DigitCharacters(c: char)
    requires c < 256 as char
    ensures '0' <= c <= '9' ==> HexValue(c as int) == c as int - '0' as int && HexDigit(HexValue(c as int)) == c as int
    ensures 'a' <= c <= 'f' ==>
      HexValue(c as int) == c as int - 'a' as int + 10 && HexDigit(HexValue(c as int)) == c as int
    ensures 'A' <= c <= 'F' ==> HexValue(c as int) == c as int - 'A' as int + 10
    ensures !('0' <= c <= '9' || 'a' <= c <= 'f' || 'A' <= c <= 'F') ==> HexValue(c as int) == -1
  {}

  /** Sends the C string in the buffer until an acknowledgement reads '+'; blocked when the answers run out. */
  method PutPacket(buffer: array<Byte>, answers: Text) returns (sent: Text, used: nat, done: bool)
    requires 0 in buffer[..]
    ensures done ==> 0 < used <= |answers| && PLUS !in answers[..used - 1] && answers[used - 1] == PLUS
    ensures done ==> sent == Repeated(Framed(CString(buffer[..], 0)), used)
    ensures !done ==> PLUS !in answers && sent == Repeated(Framed(CString(buffer[..], 0)), |answers| + 1)
  {
    ghost var frame := Framed(CString(buffer[..], 0));
    sent, used := [], 0;
    while true
      invariant used <= |answers| && sent == Repeated(frame, used) && PLUS !in answers[..used]
      decreases |answers| - used
    {
      var once := SendOnce(buffer);
      sent := sent + once;
      if used == |answers| { return sent, used, false; }
      used := used + 1;
      if answers[used - 1] == PLUS { return sent, used, true; }
    }
  }

  /** '$', the string, its running checksum as two digits. */
  method SendOnce(buffer: array<Byte>) returns (sent: Text)
    requires 0 in buffer[..]
    ensures sent == Framed(CString(buffer[..], 0))
  {
    hide CString, Checksum;
    ghost var all := buffer[..];
    EmptyChecksum();
    var checksum: Byte, count := 0, 0;
    sent := [DOLLAR];
    assert all[..0] == [];
    while buffer[count] != 0
      invariant 0 <= count < buffer.Length && 0 in all[count..]
      invariant all[..count] + CString(all, count) == CString(all, 0)
      invariant sent == [DOLLAR] + all[..count] && checksum == Checksum(all[..count])
      decreases buffer.Length - count
    {
      ChecksumMore(all[..count], all[count]);
      CStringNext(all, count);
      sent := sent + [buffer[count]];
      checksum := (checksum + buffer[count]) % 256;
      count := count + 1;
    }
    CStringEnds(all, count);
    sent := sent + [HASH, HexDigit(checksum / 16), HexDigit(checksum % 16)];
  }

  lemma CStringNext(all: Text, i: nat)
    requires i < |all| && all[i] != 0 && 0 in all[i..]
    ensures all[..i] + [all[i]] == all[..i + 1] && i + 1 < |all| && 0 in all[i + 1..]
    ensures all[..i] + CString(all, i) == all[..i + 1] + CString(all, i + 1)
  {
    var c := CString(all, i + 1);
    assert CString(all, i) == [all[i]] + c;
    hide CString;
    assert all[i..] == [all[i]] + all[i + 1..];
    assert all[..i] + [all[i]] == all[..i + 1];
    Regrouped(all[..i], all[i], c);
  }

  lemma Regrouped(a: Text, x: Byte, c: Text)
    ensures a + ([x] + c) == (a + [x]) + c
  {}

  lemma CStringEnds(all: Text, i: nat)
    requires i < |all| && all[i] == 0 && all[..i] + CString(all, i) == CString(all, 0)
    ensures all[..i] == CString(all, 0)
  {}

  /* The two together. */

  ghost predicate Plain(text: Text) { DOLLAR !in text && HASH !in text }

  /** The data bytes of a frame, put into the buffer from count on. */
  ghost function Written(buffer: Text, count: nat, data: Text): Text
    requires count + |data| <= |buffer|
  { buffer[..count] + data + buffer[count + |data|..] }

  lemma {:induction false} ReceiveData(buffer: Text, count: nat, data: Text, rest: Text)
    requires |buffer| >= 3 && count + |data| < |buffer| - 1 && Plain(data)
    ensures Receive(buffer, Filling(count), data + rest) ==
              Receive(Written(buffer, count, data), Filling(count + |data|), rest)
    decreases |data|
  {
    hide Receive;
    if data == [] {
      assert data + rest == rest && Written(buffer, count, data) == buffer;
    } else {
      ReceiveByte(buffer, Filling(count), data + rest, 0);
      assert (data + rest)[0..] == data + rest;
      assert (data + rest)[1..] == data[1..] + rest;
      ReceiveData(buffer[count := data[0]], count + 1, data[1..], rest);
      assert Written(buffer[count := data[0]], count + 1, data[1..]) == Written(buffer, count, data);
    }
  }

  lemma {:induction false} SkipNoise(buffer: Text, noise: Text, rest: Text)
    requires |buffer| >= 3 && DOLLAR !in noise
    ensures Receive(buffer, Hunting, noise + rest) == Receive(buffer, Hunting, rest)
  {
    if noise == [] {
      assert noise + rest == rest;
    } else {
      assert (noise + rest)[1..] == noise[1..] + rest;
      SkipNoise(buffer, noise[1..], rest);
    }
  }

  /** The buffer once a frame with this data has come in, whether it is accepted or not. */
  ghost function Holding(buffer: Text, data: Text): Text
    requires |data| < |buffer|
  { Written(buffer, 0, data)[|data| := 0] }

  /** Any frame, in any phase: a packet in the making is dropped for it, and its checksum alone decides. */
  lemma ReceiveFrame(buffer: Text, phase: Phase, data: Text, hi: Byte, lo: Byte, rest: Text) returns (now: Text)
    requires FitsPhase(buffer, phase) && Plain(data) && |data| <= |buffer| - 2
    ensures |now| == |buffer| && now[..|buffer| - 1] == buffer[..|buffer| - 1]
    ensures phase.Hunting? ==> now == buffer
    ensures Receive(buffer, phase, [DOLLAR] + data + [HASH, hi, lo] + rest) ==
              if HexPair(hi, lo) != Checksum(data) then Told(MINUS, Receive(Holding(now, data), Hunting, rest))
              else if Holding(now, data)[2] == COLON then
                Delivered(3, Holding(now, data), [PLUS, Holding(now, data)[0], Holding(now, data)[1]], rest)
              else Delivered(0, Holding(now, data), [PLUS], rest)
  {
    hide Receive;
    var input := [DOLLAR] + data + [HASH, hi, lo] + rest;
    now := buffer;
    var at := phase;
    if phase.Filling? && phase.count == |buffer| - 1 {
      ReceiveFull(buffer, phase.count, input);
      now, at := buffer[phase.count := 0], Hunting;
    }
    assert input[0..] == input && input[1..] == data + ([HASH, hi, lo] + rest);
    ReceiveByte(now, at, input, 0);
    var tail := [HASH, hi, lo] + rest;
    ReceiveData(now, 0, data, tail);
    var filled := Written(now, 0, data);
    assert tail[0..] == tail && tail[3..] == rest;
    ReceiveEnd(filled, |data|, tail, 0);
    assert filled[..|data|] == data;
  }

  lemma FillsUp(buffer: Text, data: Text, last: Byte, rest: Text)
    requires |buffer| >= 3 && |data| == |buffer| - 2 && Plain(data + [last])
    ensures Receive(buffer, Filling(0), data + ([last] + rest)) == Receive(data + [last, 0], Hunting, rest)
  {
    hide Receive;
    assert DOLLAR !in data && HASH !in data && last in data + [last];
    var tail, filled := [last] + rest, Written(buffer, 0, data);
    ReceiveData(buffer, 0, data, tail);
    assert tail[0..] == tail && tail[1..] == rest;
    ReceiveByte(filled, Filling(|data|), tail, 0);
    ReceiveFull(filled[|data| := last], |data| + 1, rest);
    assert filled[|data| := last][|data| + 1 := 0] == data + [last, 0];
  }

  /** A packet too long for the buffer is passed over: no reply, and the receiver waits for the next '$'. */
  lemma TooLongIgnored(buffer: Text, data: Text, more: Text, rest: Text)
    requires |buffer| >= 3 && |data| == |buffer| - 1 && Plain(data) && DOLLAR !in more
    ensures Receive(buffer, Hunting, [DOLLAR] + (data + (more + rest))) == Receive(data + [0], Hunting, rest)
  {
    hide Receive;
    var n, input := |data| - 1, [DOLLAR] + (data + (more + rest));
    assert data[..n] + [data[n]] == data;
    assert data[..n] + [data[n], 0] == data + [0];
    assert data + (more + rest) == data[..n] + ([data[n]] + (more + rest));
    assert input[0..] == input && input[1..] == data + (more + rest);
    ReceiveByte(buffer, Hunting, input, 0);
    FillsUp(buffer, data[..n], data[n], more + rest);
    SkipNoise(data + [0], more, rest);
  }

  /** The receiver takes the text for one with a sequence number: byte 2 of the buffer is then ':', be it the text's own
      or, under a text of less than two bytes, one left there by an earlier packet. */
  ghost predicate TakenForNumbered(buffer: Text, text: Text) requires |buffer| >= 3 {
    if |text| > 2 then text[2] == COLON else |text| < 2 && buffer[2] == COLON
  }

  ghost predicate Sendable(buffer: Text, text: Text) {
    |buffer| >= 3 && Plain(text) && 0 !in text && |text| <= |buffer| - 2
  }

  lemma {:induction false} CStringAt(buffer: Text, text: Text, i: nat)
    requires i <= |text| < |buffer| && buffer[..|text|] == text && buffer[|text|] == 0 && 0 !in text
    ensures CString(buffer, i) == text[i..]
    decreases |text| - i
  {
    if i < |text| {
      CStringAt(buffer, text, i + 1);
      assert buffer[i] == buffer[..|text|][i] == text[i];
    }
  }

  lemma FramedDigits(text: Text)
    ensures var c := Checksum(text); HexPair(HexDigit(c / 16), HexDigit(c % 16)) == c
  {}

  /** Delivery of text: the receiver answers '+', leaves the rest of the input and holds the text in its buffer; it
      returns all of it unless it takes it for a numbered one. */
  ghost predicate DeliveredAs(o: Outcome, buffer: Text, text: Text, refusals: nat, rest: Text) requires |buffer| >= 3 {
    && o.Delivered? && o.rest == rest && CString(o.buffer, 0) == text
    && |o.replies| > refusals && o.replies[refusals] == PLUS
    && (forall i :: 0 <= i < refusals ==> o.replies[i] == MINUS)
    && (o.start == 0 <==> !TakenForNumbered(buffer, text))
    && (o.start == 0 ==> |o.replies| == refusals + 1)
    && (o.start != 0 ==> o.start == 3 && |o.buffer| >= 3 && o.replies[refusals + 1..] == o.buffer[..2])
  }

  /** Round trip: what putpacket sends, getpacket returns, after any noise that holds no '$'. */
  lemma RoundTrip(buffer: Text, noise: Text, text: Text, rest: Text)
    requires Sendable(buffer, text) && DOLLAR !in noise
    ensures DeliveredAs(Receive(buffer, Hunting, noise + (Framed(text) + rest)), buffer, text, 0, rest)
  {
    hide Receive, HexPair, HexDigit, Checksum, Holding, TakenForNumbered, CString;
    SkipNoise(buffer, noise, Framed(text) + rest);
    FramedDigits(text);
    var c := Checksum(text);
    var now := ReceiveFrame(buffer, Hunting, text, HexDigit(c / 16), HexDigit(c % 16), rest);
    HoldingIs(buffer, text);
    assert [PLUS, Holding(buffer, text)[0], Holding(buffer, text)[1]][1..] == Holding(buffer, text)[..2];
    assert Framed(text) + rest == [DOLLAR] + text + [HASH, HexDigit(c / 16), HexDigit(c % 16)] + rest;
  }

  lemma HoldingIs(buffer: Text, text: Text)
    requires Sendable(buffer, text)
    ensures CString(Holding(buffer, text), 0) == text && |Holding(buffer, text)| == |buffer|
    ensures Holding(buffer, text)[2] == COLON <==> TakenForNumbered(buffer, text)
  {
    CStringAt(Holding(buffer, text), text, 0);
  }

  lemma {:induction false} SumChanged(s: Text, i: nat, b: Byte)
    requires i < |s|
    ensures Sum(s[i := b]) == Sum(s) - s[i] + b
  {
    if i == |s| - 1 {
      assert s[i := b][..i] == s[..i];
    } else {
      SumChanged(s[..|s| - 1], i, b);
      assert s[i := b][..|s| - 1] == s[..|s| - 1][i := b];
    }
  }

  lemma ChecksumChanged(s: Text, i: nat, b: Byte)
    requires i < |s| && b != s[i]
    ensures Checksum(s[i := b]) != Checksum(s)
  {
    hide Sum;
    SumChanged(s, i, b);
    NotCongruent(Sum(s), Sum(s[i := b]));
  }

  lemma NotCongruent(x: nat, y: nat)
    requires x != y && -256 < x - y < 256
    ensures x % 256 != y % 256
  {
    assert x == 256 * (x / 256) + x % 256 && y == 256 * (y / 256) + y % 256;
  }

  /** A byte at this place of the text changed on the way, to one that is no '$' and no '#'. */
  datatype Garble = Garble(at: nat, to: Byte)

  ghost predicate Garbles(g: Garble, text: Text) {
    g.at < |text| && g.to != text[g.at] && g.to != DOLLAR && g.to != HASH
  }

  ghost predicate AllGarble(garbles: seq<Garble>, text: Text) {
    forall i :: 0 <= i < |garbles| ==> Garbles(garbles[i], text)
  }

  function Garbled(text: Text, g: Garble): Text requires g.at < |text| { Framed(text)[g.at + 1 := g.to] }

  /** One changed byte is always noticed. */
  lemma GarbledRefused(buffer: Text, text: Text, g: Garble, rest: Text)
    requires Sendable(buffer, text) && Garbles(g, text)
    ensures Receive(buffer, Hunting, Garbled(text, g) + rest) ==
              Told(MINUS, Receive(Holding(buffer, text[g.at := g.to]), Hunting, rest))
  {
    hide Receive, HexPair, HexDigit, Checksum;
    var data, c := text[g.at := g.to], Checksum(text);
    FramedDigits(text);
    ChecksumChanged(text, g.at, g.to);
    assert forall x <- data :: x in text || x == g.to;
    var now := ReceiveFrame(buffer, Hunting, data, HexDigit(c / 16), HexDigit(c % 16), rest);
    assert Garbled(text, g) + rest == [DOLLAR] + data + [HASH, HexDigit(c / 16), HexDigit(c % 16)] + rest;
  }

  /** What reaches the receiver when each attempt but the last is garbled. */
  function Attempts(text: Text, garbles: seq<Garble>, rest: Text): Text
    requires AllGarble(garbles, text)
  { if garbles == [] then Framed(text) + rest else Garbled(text, garbles[0]) + Attempts(text, garbles[1..], rest) }

  /** Retransmission: however many attempts are garbled, each is refused and the text is delivered once, unharmed. */
  lemma {:induction false} EventuallyDelivered(buffer: Text, text: Text, garbles: seq<Garble>, rest: Text)
    requires Sendable(buffer, text) && AllGarble(garbles, text)
    ensures DeliveredAs(Receive(buffer, Hunting, Attempts(text, garbles, rest)), buffer, text, |garbles|, rest)
    decreases |garbles|
  {
    hide Receive;
    if garbles == [] {
      RoundTrip(buffer, [], text, rest);
      assert [] + (Framed(text) + rest) == Framed(text) + rest;
    } else {
      var g := garbles[0];
      GarbledRefused(buffer, text, g, Attempts(text, garbles[1..], rest));
      EventuallyDelivered(Holding(buffer, text[g.at := g.to]), text, garbles[1..], rest);
    }
  }

  /** Both ends: the sender reads the receiver's replies, stops at the first '+', and has then sent exactly one frame
      more than were garbled; what it sent is what the line had to carry. */
  method Exchange(outgoing: array<Byte>, incoming: array<Byte>, garbles: seq<Garble>, rest: Text)
    returns (start: nat, sent: Text, used: nat)
    requires outgoing != incoming && 0 in outgoing[..] && Sendable(incoming[..], CString(outgoing[..], 0))
    requires AllGarble(garbles, CString(outgoing[..], 0))
    modifies incoming
    ensures CString(incoming[..], 0) == CString(outgoing[..], 0)
    ensures start == 0 <==> !TakenForNumbered(old(incoming[..]), CString(outgoing[..], 0))
    ensures used == |garbles| + 1 && sent == Repeated(Framed(CString(outgoing[..], 0)), |garbles| + 1)
  {
    hide Receive, CString, Framed, Attempts, TakenForNumbered, AllGarble;
    var text := CString(outgoing[..], 0);
    EventuallyDelivered(incoming[..], text, garbles, rest);
    var delivered, replies, next;
    delivered, start, replies, next := GetPacket(incoming, Attempts(text, garbles, rest));
    var done;
    sent, used, done := PutPacket(outgoing, replies);
    assert replies[|garbles|] == PLUS && used <= |garbles| + 1;
  }

  /* Memory as text. */

  function Hex(mem: Text): (text: Text)
    ensures |text| == 2 * |mem| && forall b <- text :: b !in {0, DOLLAR, HASH, COLON}
  { if mem == [] then [] else [HexDigit(mem[0] / 16), HexDigit(mem[0] % 16)] + Hex(mem[1..]) }

  function Unhex(text: Text): (mem: Text)
    ensures |mem| == |text| / 2
  { if |text| < 2 then [] else [HexPair(text[0], text[1])] + Unhex(text[2..]) }

  lemma {:induction false} HexRoundTrip(mem: Text)
    ensures Unhex(Hex(mem)) == mem
  {
    if mem != [] { HexRoundTrip(mem[1..]); }
  }

  lemma {:induction false} HexMore(mem: Text, b: Byte)
    ensures Hex(mem + [b]) == Hex(mem) + [HexDigit(b / 16), HexDigit(b % 16)]
  {
    if mem == [] {
      assert mem + [b] == [b];
    } else {
      HexMore(mem[1..], b);
      assert (mem + [b])[1..] == mem[1..] + [b];
    }
  }

  lemma {:induction false} UnhexAt(text: Text, i: nat)
    requires 2 * i + 1 < |text|
    ensures Unhex(text)[i] == HexPair(text[2 * i], text[2 * i + 1])
  {
    if i > 0 { UnhexAt(text[2..], i - 1); }
  }

  function Least(a: nat, b: nat): nat { if a < b then a else b }

  /** A buffer with some bytes of it overwritten. */
  ghost function Spliced(whole: Text, at: nat, text: Text): (r: Text)
    requires at + |text| <= |whole|
    ensures |r| == |whole|
  { whole[..at] + text + whole[at + |text|..] }

  lemma SplicedNone(whole: Text, at: nat)
    requires at <= |whole|
    ensures Spliced(whole, at, []) == whole
  {}

  lemma SplicedMore(whole: Text, at: nat, text: Text, b: Byte)
    requires at + |text| < |whole|
    ensures Spliced(whole, at, text)[at + |text| := b] == Spliced(whole, at, text + [b])
  {}

  /** Writes memory as text; reading byte number fault of it traps, if there is one. */
  method Mem2Hex(mem: Text, buf: array<Byte>, at: nat, fault: nat) returns (next: nat)
    requires at + 2 * |mem| < buf.Length
    modifies buf
    ensures next == at + 2 * Least(|mem|, fault)
    ensures fault < |mem| ==> buf[..] == Spliced(old(buf[..]), at, Hex(mem[..fault]))
    ensures fault >= |mem| ==> buf[..] == Spliced(old(buf[..]), at, Hex(mem) + [0])
  {
    assert Hex(mem[..0]) == [];
    hide Hex, HexDigit, Spliced;
    SplicedNone(buf[..], at);
    next := at;
    var i := 0;
    while i < |mem|
      invariant i <= |mem| && i <= fault && next == at + 2 * i
      invariant buf[..] == Spliced(old(buf[..]), at, Hex(mem[..i]))
    {
      if i == fault { return; }
      StoreHex(mem, buf, at, i, old(buf[..]));
      next, i := next + 2, i + 1;
    }
    assert mem[..i] == mem;
    SplicedMore(old(buf[..]), at, Hex(mem), 0);
    ghost var was: Text := buf[..];
    buf[next] := 0;
    assert buf[..] == was[next := 0];
  }

  /** The digits of byte i. */
  method StoreHex(mem: Text, buf: array<Byte>, at: nat, i: nat, ghost was: Text)
    requires i < |mem| && at + 2 * i + 1 < buf.Length == |was| && buf[..] == Spliced(was, at, Hex(mem[..i]))
    modifies buf
    ensures buf[..] == Spliced(was, at, Hex(mem[..i + 1]))
  {
    hide Hex, HexDigit, Spliced;
    var hi: Byte, lo: Byte := HexDigit(mem[i] / 16), HexDigit(mem[i] % 16);
    SplicedMore(was, at, Hex(mem[..i]), hi);
    SplicedMore(was, at, Hex(mem[..i]) + [hi], lo);
    HexNext(mem, i);
    StorePair(buf, at + 2 * i, hi, lo);
  }

  method StorePair(buf: array<Byte>, at: nat, hi: Byte, lo: Byte)
    requires at + 1 < buf.Length
    modifies buf
    ensures buf[..] == old(buf[..])[at := hi][at + 1 := lo]
  {
    buf[at], buf[at + 1] := hi, lo;
  }

  lemma HexNext(mem: Text, i: nat)
    requires i < |mem|
    ensures Hex(mem[..i + 1]) == Hex(mem[..i]) + [HexDigit(mem[i] / 16)] + [HexDigit(mem[i] % 16)]
  {
    HexMore(mem[..i], mem[i]);
    assert mem[..i] + [mem[i]] == mem[..i + 1];
  }

  /** Reads text back into memory; storing byte number fault of it traps, if there is one. */
  method Hex2Mem(buf: Text, mem: array<Byte>, at: nat, count: nat, fault: nat) returns (next: nat)
    requires 2 * count <= |buf| && at + count <= mem.Length
    modifies mem
    ensures next == at + (if fault < count then fault + 1 else count)
    ensures mem[..] == Spliced(old(mem[..]), at, Unhex(buf)[..Least(count, fault)])
  {
    hide Unhex, HexPair, Spliced;
    ghost var bytes := Unhex(buf);
    assert bytes[..0] == [];
    SplicedNone(mem[..], at);
    next := at;
    var i := 0;
    while i < count
      invariant i <= count && i <= fault && next == at + i
      invariant mem[..] == Spliced(old(mem[..]), at, bytes[..i])
    {
      next := next + 1;
      if i == fault { return; }
      UnhexAt(buf, i);
      SplicedMore(old(mem[..]), at, bytes[..i], bytes[i]);
      ghost var was: Text := mem[..];
      mem[at + i] := HexPair(buf[2 * i], buf[2 * i + 1]);
      assert mem[..] == was[at + i := bytes[i]];
      assert bytes[..i] + [bytes[i]] == bytes[..i + 1];
      i := i + 1;
    }
  }

  /** End to end: memory sent as a packet over a line that garbles any number of attempts arrives as it was. */
  lemma MemoryArrives(buffer: Text, mem: Text, garbles: seq<Garble>, rest: Text)
    requires |buffer| >= 3 && 2 * |mem| <= |buffer| - 2 && (mem == [] ==> buffer[2] != COLON)
    requires AllGarble(garbles, Hex(mem))
    ensures var o := Receive(buffer, Hunting, Attempts(Hex(mem), garbles, rest));
      o.Delivered? && o.rest == rest && Unhex(CString(o.buffer, o.start)) == mem
  {
    hide Receive;
    EventuallyDelivered(buffer, Hex(mem), garbles, rest);
    HexRoundTrip(mem);
  }
}
