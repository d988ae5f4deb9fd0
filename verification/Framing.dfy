// Frames on the wire (tools/venue_relay.py:71-134), sections 5.2 and 5.3 of RFC 6455: a byte of flags and
// opcode, a length in the shortest of three forms, a mask from the client's side, and the payload.
module Framing {
  import opened Options
  import opened Words

  type Mask = m: seq<Byte> | |m| == 4 witness [0, 0, 0, 0]

  // ------------------------------------------------------------------------------- numbers and masks

  function Power256(k: nat): (p: nat)
    ensures p > 0
  {
    if k == 0 then 1 else 256 * Power256(k - 1)
  }

  // `k` bytes of a number, the most significant first, and back.
  function BigEndian(n: nat, k: nat): (b: seq<Byte>)
    ensures |b| == k
  {
    if k == 0 then [] else BigEndian(n / 256, k - 1) + [n % 256]
  }

  function Number(b: seq<Byte>): nat {
    if b == [] then 0 else 256 * Number(b[..|b| - 1]) + b[|b| - 1]
  }

  // The i-th of `k` bytes is the digit of that place to the base 256.
  lemma {:induction false} ByteOf(n: nat, k: nat, i: nat)
    requires i < k
    ensures BigEndian(n, k)[i] == n / Power256(k - 1 - i) % 256
  {
    if i < k - 1 {
      ByteOf(n / 256, k - 1, i);
      DivideTwice(n, Power256(k - 2 - i), Power256(k - 1 - i));
    } else {
      assert Power256(0) == 1;
    }
  }

  lemma DivideTwice(n: nat, p: nat, q: nat)
    requires p > 0 && q == 256 * p
    ensures n / 256 / p == n / q
  {
    var m := n / 256;
    assert n == 256 * m + n % 256 && m == m / p * p + m % p;
    Expand(m / p, p, m % p, n % 256, q);
    RemainderIs(n, q, m / p, 256 * (m % p) + n % 256);
  }

  lemma Expand(a: nat, p: nat, b: nat, c: nat, q: nat)
    requires q == 256 * p
    ensures 256 * (a * p + b) + c == a * q + (256 * b + c)
  {
  }

  lemma {:induction false} NumberOfBigEndian(n: nat, k: nat)
    requires n < Power256(k)
    ensures Number(BigEndian(n, k)) == n
  {
    if k > 0 {
      NumberOfBigEndian(n / 256, k - 1);
      assert BigEndian(n, k)[..k - 1] == BigEndian(n / 256, k - 1);
    }
  }

  lemma Widths()
    ensures Power256(2) == 65536 && Power256(8) == TWO_64
  {
    assert Power256(4) == 0x1_0000_0000;
    assert Power256(6) == 256 * (256 * Power256(4));
    assert Power256(8) == 256 * (256 * Power256(6));
  }

  function XorByte(a: Byte, b: Byte): Byte {
    Pow2Widths();
    XorBound(a, b, 8);
    Xor(a, b)
  }

  // Each byte under the mask's byte of its place.
  function Masked(data: seq<Byte>, mask: Mask): (m: seq<Byte>)
    ensures |m| == |data|
  {
    if data == [] then []
    else Masked(data[..|data| - 1], mask) + [XorByte(data[|data| - 1], mask[(|data| - 1) % 4])]
  }

  // A masked byte is the byte of its place exclusive-or the mask's byte of that place modulo four, digit by
  // digit.
  lemma {:induction false} MaskedAt(data: seq<Byte>, mask: Mask, i: nat, j: nat)
    requires i < |data|
    ensures Bit(Masked(data, mask)[i], j) == if Bit(data[i], j) == Bit(mask[i % 4], j) then 0 else 1
  {
    if i == |data| - 1 {
      XorBits(data[i], mask[i % 4], j);
    } else {
      MaskedAt(data[..|data| - 1], mask, i, j);
    }
  }

  lemma {:induction false} MaskedTwice(data: seq<Byte>, mask: Mask)
    ensures Masked(Masked(data, mask), mask) == data
  {
    if data != [] {
      var less, last := data[..|data| - 1], data[|data| - 1];
      MaskedTwice(less, mask);
      XorInvolution(last, mask[|less| % 4]);
      assert Masked(data, mask)[..|less|] == Masked(less, mask);
    }
  }

  // ------------------------------------------------------------------------------------------ encoding

  // The length as written: its seven-bit form and the bytes that follow.
  function ShortLength(n: nat): (s: nat)
    ensures s < 128
  {
    if n < 126 then n else if n < 65536 then 126 else 127
  }

  function Extension(short: nat): nat {
    if short == 126 then 2 else if short == 127 then 8 else 0
  }

  function Header(opcode: nat, n: nat, masked: bool): seq<Byte>
    requires opcode < 16 && n < TWO_64
  {
    [First(opcode), Second(n, masked)] + BigEndian(n, Extension(ShortLength(n)))
  }

  function MaskOf(mask: Option<Mask>): seq<Byte> {
    if mask.Some? then mask.value else []
  }

  function BodyOf(payload: seq<Byte>, mask: Option<Mask>): seq<Byte> {
    if mask.Some? then Masked(payload, mask.value) else payload
  }

  function Encoded(opcode: nat, payload: seq<Byte>, mask: Option<Mask>): seq<Byte>
    requires opcode < 16 && |payload| < TWO_64
  {
    Header(opcode, |payload|, mask.Some?) + MaskOf(mask) + BodyOf(payload, mask)
  }

  // Of the forms that can carry a length, the one written is the shortest, as section 5.2 requires.
  predicate Carries(extension: nat, n: nat) {
    (extension == 0 && n < 126) || (extension == 2 && n < 65536) || (extension == 8 && n < TWO_64)
  }

  lemma LengthIsMinimal(n: nat, extension: nat)
    requires n < TWO_64 && Carries(extension, n)
    ensures Carries(Extension(ShortLength(n)), n) && Extension(ShortLength(n)) <= extension
  {
  }

  // The bytes before the mask, one by one: the final flag with the opcode, the mask flag with the length or the
  // mark of its form, and the length in network order.
  lemma HeaderIs(opcode: nat, n: nat, masked: bool)
    requires opcode < 16 && n < TWO_64
    ensures
      var h, flag := Header(opcode, n, masked), if masked then 128 else 0;
      && (n <= 125 ==> h == [128 + opcode, flag + n])
      && (125 < n <= 65535 ==> h == [128 + opcode, flag + 126, n / 256, n % 256])
      && (n > 65535 ==>
            && |h| == 10 && h[0] == 128 + opcode && h[1] == flag + 127
            && forall i :: 2 <= i < 10 ==> h[i] == n / Power256(9 - i) % 256)
  {
    if 125 < n <= 65535 {
      ByteOf(n, 2, 0);
      ByteOf(n, 2, 1);
      assert Power256(0) == 1 && Power256(1) == 256;
    } else if n > 65535 {
      forall i | 0 <= i < 8 ensures BigEndian(n, 8)[i] == n / Power256(7 - i) % 256 {
        ByteOf(n, 8, i);
      }
    }
  }

  method EncodeFrame(payload: seq<Byte>, opcode: nat) returns (frame: seq<Byte>)
    requires opcode < 16 && |payload| < TWO_64
    ensures frame == Encoded(opcode, payload, None)
  {
    var header: seq<Byte> := [0x80 + opcode];
    var length := |payload|;
    if length < 126 {
      header := header + [length];
    } else if length < 65536 {
      header := header + [126];
      header := header + BigEndian(length, 2);
    } else {
      header := header + [127];
      header := header + BigEndian(length, 8);
    }
    frame := header + payload;
    assert header == Header(opcode, length, false);
    assert header + [] + payload == frame;
  }

  // The mask is whatever the generator drew.
  method SendMasked(data: seq<Byte>, opcode: nat, mask: Mask) returns (sent: seq<Byte>)
    requires opcode < 16 && |data| < TWO_64
    ensures sent == Encoded(opcode, data, Some(mask))
  {
    var header: seq<Byte> := [0x80 + opcode];
    var length := |data|;
    if length < 126 {
      header := header + [0x80 + length];
    } else if length < 65536 {
      header := header + [0x80 + 126];
      header := header + BigEndian(length, 2);
    } else {
      header := header + [0x80 + 127];
      header := header + BigEndian(length, 8);
    }
    assert header == Header(opcode, length, true);
    header := header + mask;
    var body: seq<Byte> := [];
    for i := 0 to length
      invariant body == Masked(data[..i], mask)
    {
      assert data[..i + 1][..i] == data[..i];
      body := body + [XorByte(data[i], mask[i % 4])];
    }
    assert data[..length] == data;
    sent := header + body;
  }

  // ------------------------------------------------------------------------------------------ decoding

  // A reader gets a frame, or finds the connection closed, or fails on a length that was cut short.
  datatype Outcome = Closed | Failed | Frame(fin: bool, opcode: nat, payload: seq<Byte>)

  // What the reader makes of the bytes still to come, and the bytes left after it.
  datatype Reading = Reading(outcome: Outcome, rest: seq<Byte>)

  function Read(s: seq<Byte>): Reading {
    if |s| < 2 then Reading(Closed, [])
    else
      var extension := Extension(s[1] % 128);
      if |s| < 2 + extension then Reading(Failed, [])
      else
        var length := if extension == 0 then s[1] % 128 else Number(s[2..2 + extension]);
        ReadBody(s[0], s[1] >= 128, length, s[2 + extension..])
  }

  // A mask cut short is not noticed when there is no payload for it.
  function ReadBody(first: Byte, masked: bool, length: nat, s: seq<Byte>): Reading {
    if masked && |s| < 4 then
      Reading(if length == 0 then Frame(first >= 128, first % 16, []) else Closed, [])
    else
      var start := if masked then 4 else 0;
      if |s| < start + length then Reading(Closed, [])
      else
        var body := s[start..start + length];
        Reading(Frame(first >= 128, first % 16, if masked then Masked(body, s[..4]) else body), s[start + length..])
  }

  // The bytes a connection will still deliver. Each call returns some of them, never none while any are
  // left, never more than asked for, and how many is up to the network.
  class Socket {
    var incoming: seq<Byte>

    constructor (stream: seq<Byte>)
      ensures incoming == stream
    {
      incoming := stream;
    }

    method Recv(count: nat) returns (chunk: seq<Byte>)
      requires count > 0
      modifies this
      ensures old(incoming) == chunk + incoming && |chunk| <= count
      ensures chunk == [] <==> old(incoming) == []
    {
      if incoming == [] {
        return [];
      }
      var n :| 1 <= n <= count && n <= |incoming|;
      chunk := incoming[..n];
      incoming := incoming[n..];
    }

    method RecvExact(count: nat) returns (buffer: Option<seq<Byte>>)
      modifies this
      ensures if |old(incoming)| >= count
              then buffer == Some(old(incoming)[..count]) && incoming == old(incoming)[count..]
              else buffer == None && incoming == []
    {
      var got: seq<Byte> := [];
      while |got| < count
        invariant |got| <= count && old(incoming) == got + incoming
        decreases count - |got|
      {
        var chunk := Recv(count - |got|);
        if chunk == [] {
          return None;
        }
        got := got + chunk;
      }
      return Some(got);
    }

    // The length field: none when the connection closed inside its extension.
    method ReadLength(short: nat) returns (length: Option<nat>)
      requires short < 128
      modifies this
      ensures
        var extension := Extension(short);
        if |old(incoming)| >= extension
        then length == Some(if extension == 0 then short else Number(old(incoming)[..extension]))
             && incoming == old(incoming)[extension..]
        else length == None && incoming == []
    {
      if short == 126 {
        var field := RecvExact(2);
        length := if field.None? then None else Some(Number(field.value));
      } else if short == 127 {
        var field := RecvExact(8);
        length := if field.None? then None else Some(Number(field.value));
      } else {
        length := Some(short);
      }
    }

    method ReadFrame() returns (outcome: Outcome)
      modifies this
      ensures Reading(outcome, incoming) == Read(old(incoming))
    {
      ghost var stream := incoming;
      var header := RecvExact(2);
      if header.None? {
        return Closed;
      }
      var fin, opcode := header.value[0] >= 128, header.value[0] % 16;
      var masked := header.value[1] >= 128;
      var length := ReadLength(header.value[1] % 128);
      if length.None? {
        return Failed;
      }
      outcome := FinishFrame(header.value[0], masked, length.value);
      ghost var extension := Extension(stream[1] % 128);
      assert stream[2..][..extension] == stream[2..2 + extension];
      assert stream[2..][extension..] == stream[2 + extension..];
    }

    method FinishFrame(first: Byte, masked: bool, length: nat) returns (outcome: Outcome)
      modifies this
      ensures Reading(outcome, incoming) == ReadBody(first, masked, length, old(incoming))
    {
      ghost var s := incoming;
      var mask: Option<seq<Byte>> := None;
      if masked {
        mask := RecvExact(4);
      }
      var payload: Option<seq<Byte>> := Some([]);
      if length > 0 {
        payload := RecvExact(length);
      }
      if payload.None? {
        return Closed;
      }
      var data := payload.value;
      if mask.Some? {
        var plain: seq<Byte> := [];
        for i := 0 to |data|
          invariant plain == Masked(data[..i], mask.value)
        {
          assert data[..i + 1][..i] == data[..i];
          plain := plain + [XorByte(data[i], mask.value[i % 4])];
        }
        assert data[..|data|] == data;
        assert s[4..][..length] == s[4..4 + length] && s[4..][length..] == s[4 + length..];
        data := plain;
      }
      return Frame(first >= 128, first % 16, data);
    }
  }

  // ---------------------------------------------------------------------------------------- round trips

  // A header read off its parts.
  lemma PartsRead(first: Byte, second: Byte, field: seq<Byte>, tail: seq<Byte>)
    requires |field| == Extension(second % 128)
    ensures Read([first, second] + field + tail)
         == ReadBody(first, second >= 128, if field == [] then second % 128 else Number(field), tail)
  {
    var s := [first, second] + field + tail;
    assert s[2..2 + |field|] == field;
    assert s[2 + |field|..] == tail;
  }

  function First(opcode: nat): (b: Byte)
    requires opcode < 16
    ensures b == 0x80 + opcode && b >= 128 && b % 16 == opcode
  {
    0x80 + opcode
  }

  function Second(n: nat, masked: bool): (b: Byte)
    ensures b % 128 == ShortLength(n) && (b >= 128 <==> masked)
  {
    ShortLength(n) + if masked then 0x80 else 0
  }

  lemma HeaderReads(opcode: nat, n: nat, masked: bool, tail: seq<Byte>)
    requires opcode < 16 && n < TWO_64
    ensures Read(Header(opcode, n, masked) + tail) == ReadBody(First(opcode), masked, n, tail)
  {
    var extension := Extension(ShortLength(n));
    Widths();
    if extension > 0 {
      NumberOfBigEndian(n, extension);
    }
    PartsRead(First(opcode), Second(n, masked), BigEndian(n, extension), tail);
  }

  // What follows a frame's header.
  function Tail(payload: seq<Byte>, mask: Option<Mask>, rest: seq<Byte>): seq<Byte> {
    MaskOf(mask) + BodyOf(payload, mask) + rest
  }

  lemma BodyReads(first: Byte, payload: seq<Byte>, mask: Option<Mask>, rest: seq<Byte>)
    ensures ReadBody(first, mask.Some?, |payload|, Tail(payload, mask, rest))
         == Reading(Frame(first >= 128, first % 16, payload), rest)
  {
    var s := Tail(payload, mask, rest);
    var start := |MaskOf(mask)|;
    assert s[start..start + |payload|] == BodyOf(payload, mask);
    assert s[start + |payload|..] == rest;
    if mask.Some? {
      assert s[..4] == mask.value;
      MaskedTwice(payload, mask.value);
    }
  }

  // Reading what was encoded gives the opcode and the payload back, masked or not, for each of the three
  // length forms, and leaves the bytes that follow.
  lemma FrameReads(opcode: nat, payload: seq<Byte>, mask: Option<Mask>, rest: seq<Byte>)
    requires opcode < 16 && |payload| < TWO_64
    ensures Read(Encoded(opcode, payload, mask) + rest) == Reading(Frame(true, opcode, payload), rest)
  {
    FrameBytes(opcode, payload, mask, rest);
    HeaderThenBody(opcode, payload, mask, rest);
  }

  lemma HeaderThenBody(opcode: nat, payload: seq<Byte>, mask: Option<Mask>, rest: seq<Byte>)
    requires opcode < 16 && |payload| < TWO_64
    ensures Read(Header(opcode, |payload|, mask.Some?) + Tail(payload, mask, rest))
         == Reading(Frame(true, opcode, payload), rest)
  {
    HeaderReads(opcode, |payload|, mask.Some?, Tail(payload, mask, rest));
    BodyReads(First(opcode), payload, mask, rest);
  }

  lemma FrameBytes(opcode: nat, payload: seq<Byte>, mask: Option<Mask>, rest: seq<Byte>)
    requires opcode < 16 && |payload| < TWO_64
    ensures Encoded(opcode, payload, mask) + rest
         == Header(opcode, |payload|, mask.Some?) + Tail(payload, mask, rest)
  {
    Regroup(Header(opcode, |payload|, mask.Some?), MaskOf(mask), BodyOf(payload, mask), rest);
  }

  lemma Regroup(a: seq<Byte>, b: seq<Byte>, c: seq<Byte>, d: seq<Byte>)
    ensures a + b + c + d == a + (b + c + d)
  {
  }

  datatype Message = Message(opcode: nat, payload: seq<Byte>, mask: Option<Mask>) {
    ghost predicate Valid() {
      opcode < 16 && |payload| < TWO_64
    }

    function Bytes(): seq<Byte>
      requires Valid()
    {
      Encoded(opcode, payload, mask)
    }
  }

  ghost predicate AllValid(messages: seq<Message>) {
    forall i :: 0 <= i < |messages| ==> messages[i].Valid()
  }

  function Stream(messages: seq<Message>): seq<Byte>
    requires AllValid(messages)
  {
    if messages == [] then []
    else
      messages[0].Bytes() + Stream(messages[1..])
  }

  lemma ReadShrinks(s: seq<Byte>)
    ensures Read(s).outcome.Frame? ==> |Read(s).rest| < |s|
  {
  }

  // Everything a reader gets until it stops.
  function ReadAll(s: seq<Byte>): seq<Outcome>
    decreases |s|
  {
    ReadShrinks(s);
    var r := Read(s);
    if r.outcome.Frame? then [r.outcome] + ReadAll(r.rest) else [r.outcome]
  }

  function Frames(messages: seq<Message>): seq<Outcome> {
    if messages == [] then [] else [Frame(true, messages[0].opcode, messages[0].payload)] + Frames(messages[1..])
  }

  // Any frames are read back in order, whatever bytes follow them.
  lemma {:induction false} FramesThenBytes(messages: seq<Message>, rest: seq<Byte>)
    requires AllValid(messages)
    ensures ReadAll(Stream(messages) + rest) == Frames(messages) + ReadAll(rest)
  {
    if messages != [] {
      FirstJoins(messages, rest);
      FrameThenBytes(messages[0], Stream(messages[1..]) + rest);
      FramesThenBytes(messages[1..], rest);
      Associates([Frame(true, messages[0].opcode, messages[0].payload)], Frames(messages[1..]), ReadAll(rest));
    } else {
      assert Stream(messages) + rest == rest;
    }
  }

  lemma FrameThenBytes(m: Message, rest: seq<Byte>)
    requires m.Valid()
    ensures ReadAll(m.Bytes() + rest) == [Frame(true, m.opcode, m.payload)] + ReadAll(rest)
  {
    FrameReads(m.opcode, m.payload, m.mask, rest);
    ReadsOn(m.Bytes(), Frame(true, m.opcode, m.payload), rest);
  }

  lemma ReadsOn(s: seq<Byte>, o: Outcome, rest: seq<Byte>)
    requires o.Frame? && Read(s + rest) == Reading(o, rest)
    ensures ReadAll(s + rest) == [o] + ReadAll(rest)
  {
  }

  lemma FirstJoins(messages: seq<Message>, rest: seq<Byte>)
    requires messages != [] && AllValid(messages)
    ensures messages[0].Valid() && Stream(messages) + rest == messages[0].Bytes() + (Stream(messages[1..]) + rest)
  {
    var first := messages[0].Bytes();
    assert Stream(messages) == first + Stream(messages[1..]);
    Associates(first, Stream(messages[1..]), rest);
  }

  lemma Associates<T>(a: seq<T>, b: seq<T>, c: seq<T>)
    ensures a + b + c == a + (b + c)
  {
  }

  // Then the connection is found closed. What is read depends on the bytes alone, so it is the same however
  // the socket cuts them up.
  lemma StreamReads(messages: seq<Message>)
    requires AllValid(messages)
    ensures ReadAll(Stream(messages)) == Frames(messages) + [Closed]
  {
    FramesThenBytes(messages, []);
    assert Stream(messages) + [] == Stream(messages) && ReadAll([]) == [Closed];
  }

  method ReadFrames(socket: Socket) returns (outcomes: seq<Outcome>)
    modifies socket
    ensures outcomes == ReadAll(old(socket.incoming))
  {
    outcomes := [];
    while true
      invariant outcomes + ReadAll(socket.incoming) == ReadAll(old(socket.incoming))
      decreases |socket.incoming|
    {
      ReadShrinks(socket.incoming);
      var outcome := socket.ReadFrame();
      outcomes := outcomes + [outcome];
      if !outcome.Frame? {
        return;
      }
    }
  }

  function CutOutcome(opcode: nat, payload: seq<Byte>, cut: nat): Outcome {
    if 2 <= cut < 2 + Extension(ShortLength(|payload|)) then Failed
    else if payload == [] && cut >= 2 then Frame(true, opcode, [])
    else Closed
  }

  // A frame cut short anywhere: inside the extended length the reader fails instead of finding the
  // connection closed, and a masked frame with no payload is taken for whole without its mask.
  lemma CutFrame(opcode: nat, payload: seq<Byte>, mask: Option<Mask>, cut: nat)
    requires opcode < 16 && |payload| < TWO_64 && cut < |Encoded(opcode, payload, mask)|
    ensures Read(Encoded(opcode, payload, mask)[..cut]) == Reading(CutOutcome(opcode, payload, cut), [])
  {
    var n, extension := |payload|, Extension(ShortLength(|payload|));
    var whole, header := Encoded(opcode, payload, mask), Header(opcode, |payload|, mask.Some?);
    var s := whole[..cut];
    if cut >= 2 {
      assert s[0] == header[0] && s[1] == header[1];
      if cut >= 2 + extension {
        assert s == header + s[2 + extension..];
        HeaderReads(opcode, n, mask.Some?, s[2 + extension..]);
      }
    }
  }
  // What a cut frame gives, and that the connection is closed if the reader takes it for whole.
  function CutReads(m: Message, cut: nat): seq<Outcome> {
    var last := CutOutcome(m.opcode, m.payload, cut);
    if last.Frame? then [last, Closed] else [last]
  }

  lemma {:induction false} StreamJoins(a: seq<Message>, b: seq<Message>)
    requires AllValid(a) && AllValid(b)
    ensures AllValid(a + b) && Stream(a + b) == Stream(a) + Stream(b)
  {
    if a == [] {
      assert a + b == b;
    } else {
      StreamJoins(a[1..], b);
      assert (a + b)[1..] == a[1..] + b;
      Associates(a[0].Bytes(), Stream(a[1..]), Stream(b));
    }
  }

  // The frame that a byte of a stream falls into.
  lemma {:induction false} FrameAt(messages: seq<Message>, cut: nat, most: nat) returns (n: nat)
    requires AllValid(messages) && most <= |messages| && cut < |Stream(messages[..most])|
    ensures n < most && |Stream(messages[..n])| <= cut < |Stream(messages[..n + 1])|
  {
    if |Stream(messages[..most - 1])| <= cut {
      n := most - 1;
    } else {
      n := FrameAt(messages, cut, most - 1);
    }
  }

  // The stream up to a byte of its n-th frame.
  lemma StreamUpTo(messages: seq<Message>, n: nat, cut: nat)
    requires AllValid(messages) && n < |messages|
    requires |Stream(messages[..n])| <= cut < |Stream(messages[..n + 1])|
    ensures
      var m, left := messages[n], cut - |Stream(messages[..n])|;
      && cut <= |Stream(messages)| && m.Valid() && left < |m.Bytes()|
      && Stream(messages)[..cut] == Stream(messages[..n]) + m.Bytes()[..left]
  {
    var before, m, after := messages[..n], messages[n], messages[n + 1..];
    Around(messages, n);
    StreamParts(before, m, after);
    CutJoins(Stream(before), m.Bytes(), Stream(after), cut);
  }

  lemma Around(messages: seq<Message>, n: nat)
    requires AllValid(messages) && n < |messages|
    ensures AllValid(messages[..n]) && messages[n].Valid() && AllValid(messages[n + 1..])
    ensures messages[..n + 1] == messages[..n] + [messages[n]]
    ensures messages == messages[..n] + [messages[n]] + messages[n + 1..]
  {
  }

  lemma StreamParts(before: seq<Message>, m: Message, after: seq<Message>)
    requires AllValid(before) && m.Valid() && AllValid(after)
    ensures AllValid(before + [m] + after) && AllValid(before + [m])
    ensures Stream(before + [m]) == Stream(before) + m.Bytes()
    ensures Stream(before + [m] + after) == Stream(before) + m.Bytes() + Stream(after)
  {
    OneFrame(m);
    StreamJoins(before, [m]);
    StreamJoins(before + [m], after);
  }

  lemma OneFrame(m: Message)
    requires m.Valid()
    ensures Stream([m]) == m.Bytes()
  {
    assert Stream([m][1..]) == [];
  }

  lemma CutJoins(a: seq<Byte>, b: seq<Byte>, c: seq<Byte>, cut: nat)
    requires |a| <= cut < |a + b|
    ensures cut <= |a + b + c| && (a + b + c)[..cut] == a + b[..cut - |a|]
  {
  }

  // A stream cut at any byte gives the frames that end by it, in order, then what the frame it cuts gives.
  lemma CutStreamReads(messages: seq<Message>, cut: nat) returns (n: nat)
    requires AllValid(messages) && cut < |Stream(messages)|
    ensures n < |messages| && |Stream(messages[..n])| <= cut < |Stream(messages[..n + 1])|
    ensures ReadAll(Stream(messages)[..cut])
         == Frames(messages[..n]) + CutReads(messages[n], cut - |Stream(messages[..n])|)
  {
    assert messages[..|messages|] == messages;
    n := FrameAt(messages, cut, |messages|);
    StreamUpTo(messages, n, cut);
    var m, left := messages[n], cut - |Stream(messages[..n])|;
    FramesThenBytes(messages[..n], m.Bytes()[..left]);
    CutFrameReads(m, left);
  }

  lemma CutFrameReads(m: Message, cut: nat)
    requires m.Valid() && cut < |m.Bytes()|
    ensures ReadAll(m.Bytes()[..cut]) == CutReads(m, cut)
  {
    CutFrame(m.opcode, m.payload, m.mask, cut);
    assert ReadAll([]) == [Closed];
  }
}
