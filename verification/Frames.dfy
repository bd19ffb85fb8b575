/** WebSocket frames (backend/internal/gateway/wsframe.go; RFC 6455, sections 5.2 and 5.3). */
module Frames {
  import Text
  import opened Wrappers

  type octet = bv8

  const MAX_PAYLOAD := 1048576   // 1 << 20

  /** io.EOF, io.ErrUnexpectedEOF, any other error of the connection, and the "payload too large" error. */
  datatype FrameError = EOF | UnexpectedEOF | Fault(code: nat) | TooLarge

  /** What the connection reports when no more bytes come. */
  datatype StreamEnd = AtEOF | Faulty(code: nat)

  datatype Frame = Frame(opcode: octet, payload: seq<octet>)

  // ---------------------------------------------------------------- numbers on the wire

  function Pow256(width: nat): (p: nat)
    ensures p > 0
  {
    if width == 0 then 1 else 256 * Pow256(width - 1)
  }

  function BigEndian(v: nat, width: nat): (bytes: seq<octet>)
    ensures |bytes| == width
  {
    if width == 0 then [] else BigEndian(v / 256, width - 1) + [(v % 256) as octet]
  }

  function FromBigEndian(bytes: seq<octet>): nat {
    if bytes == [] then 0 else FromBigEndian(bytes[..|bytes| - 1]) * 256 + bytes[|bytes| - 1] as nat
  }

  lemma OctetOfNat(n: nat)
    requires n < 256
    ensures (n as octet) as nat == n
  {
    assert n % 256 == n;
  }

  lemma NatOfOctet(b: octet)
    ensures (b as nat) as octet == b
  {
  }

  lemma {:induction false} DecodesBigEndian(v: nat, width: nat)
    requires v < Pow256(width)
    ensures FromBigEndian(BigEndian(v, width)) == v
  {
    if width > 0 {
      DecodesBigEndian(v / 256, width - 1);
      OctetOfNat(v % 256);
      assert BigEndian(v, width)[..width - 1] == BigEndian(v / 256, width - 1);
    }
  }

  /** Octet i of a number on the wire is its digit of weight 256 to the power of what follows. */
  lemma {:induction false} BigEndianDigit(v: nat, width: nat, i: nat)
    requires i < width
    ensures BigEndian(v, width)[i] as nat == v / Pow256(width - 1 - i) % 256
    decreases width
  {
    if i == width - 1 {
      OctetOfNat(v % 256);
    } else {
      BigEndianDigit(v / 256, width - 1, i);
      DivideTwice(v, Pow256(width - 2 - i));
    }
  }

  lemma DivideTwice(v: nat, p: nat)
    requires p > 0
    ensures v / 256 / p == v / (256 * p)
  {
    var q, r, last := v / 256 / p, v / 256 % p, v % 256;
    assert v == 256 * (q * p + r) + last;
    assert 256 * (q * p) == q * (256 * p);
    QuotientIs(v, 256 * p, q, 256 * r + last);
  }

  lemma QuotientIs(v: nat, d: nat, q: nat, r: nat)
    requires d > 0 && v == q * d + r && r < d
    ensures v / d == q
  {
    var k, rest := v / d, v % d;
    assert v == k * d + rest && rest < d;
    assert (k - q) * d == r - rest;
    SmallMultiple(k - q, d);
  }

  lemma SmallMultiple(z: int, d: int)
    requires -d < z * d < d
    ensures z == 0
  {
    MultipleGrows(z, d);
  }

  lemma MultipleGrows(z: int, d: int)
    requires d > 0
    ensures z >= 1 ==> z * d >= d
    ensures z <= -1 ==> z * d <= -d
  {
    assert z * d - d == (z - 1) * d;
    assert z * d + d == (z + 1) * d;
  }

  lemma {:induction false} EncodesBigEndian(bytes: seq<octet>)
    ensures BigEndian(FromBigEndian(bytes), |bytes|) == bytes
    ensures FromBigEndian(bytes) < Pow256(|bytes|)
  {
    if bytes != [] {
      var n := |bytes| - 1;
      EncodesBigEndian(bytes[..n]);
      LastDigit(FromBigEndian(bytes[..n]), bytes[n], n);
      OctetIsSmall(bytes[n]);
    }
  }

  lemma LastDigit(v: nat, b: octet, n: nat)
    ensures BigEndian(v * 256 + b as nat, n + 1) == BigEndian(v, n) + [b]
  {
    OctetIsSmall(b);
    NatOfOctet(b);
    DivideBack(v, b as nat);
  }

  lemma DivideBack(v: nat, d: nat)
    requires d < 256
    ensures (v * 256 + d) / 256 == v && (v * 256 + d) % 256 == d
  {
  }

  lemma OctetIsSmall(b: octet)
    ensures b as nat < 256
  {
  }

  // ---------------------------------------------------------------- masking

  function Masked(payload: seq<octet>, key: seq<octet>): (r: seq<octet>)
    requires |key| == 4
    ensures |r| == |payload| && forall i | 0 <= i < |payload| :: r[i] == payload[i] ^ key[i % 4]
  {
    seq(|payload|, i requires 0 <= i < |payload| => payload[i] ^ key[i % 4])
  }

  lemma XorTwice(a: octet, b: octet)
    ensures (a ^ b) ^ b == a
  {
  }

  lemma MaskedTwice(payload: seq<octet>, key: seq<octet>)
    requires |key| == 4
    ensures Masked(Masked(payload, key), key) == payload
  {
    forall i | 0 <= i < |payload|
      ensures Masked(Masked(payload, key), key)[i] == payload[i]
    {
      XorTwice(payload[i], key[i % 4]);
    }
  }

  // ---------------------------------------------------------------- the printer

  /** How the payload length is written: 7 bits, or 126 and 16 bits, or 127 and 64 bits. */
  datatype LengthForm = Short | Medium | Long

  function Width(form: LengthForm): nat {
    match form case Short => 0 case Medium => 2 case Long => 8
  }

  predicate Fits(form: LengthForm, length: nat) {
    match form
    case Short => length <= 125
    case Medium => length < Pow256(2)
    case Long => length < Pow256(8)
  }

  /** The number in the second header byte, next to the mask bit. */
  function LengthField(form: LengthForm, length: nat): (field: nat)
    requires Fits(form, length)
    ensures field <= 127
  {
    match form case Short => length case Medium => 126 case Long => 127
  }

  /** A frame as a peer may send it: final or not, with the three reserved bits, an opcode of four bits, any length
      form that fits, masked or not. */
  datatype Sent = Sent(fin: bool, reserved: nat, opcode: nat,
                       form: LengthForm, key: Option<seq<octet>>, payload: seq<octet>)

  predicate WellFormed(f: Sent) {
    && f.reserved < 8 && f.opcode < 16
    && Fits(f.form, |f.payload|) && (f.key.Some? ==> |f.key.value| == 4)
  }

  /** The number that the first header byte stands for: the final bit is its highest, the opcode its lowest four. */
  function FirstNumber(f: Sent): (n: nat)
    requires WellFormed(f)
    ensures n < 256
  {
    (if f.fin then 128 else 0) + 16 * f.reserved + f.opcode
  }

  function FirstByte(f: Sent): octet
    requires WellFormed(f)
  {
    FirstNumber(f) as octet
  }

  function Header(first: octet, form: LengthForm, masked: bool, length: nat): seq<octet>
    requires Fits(form, length)
  {
    [first, ((if masked then 128 else 0) + LengthField(form, length)) as octet] + BigEndian(length, Width(form))
  }

  /** What follows the header: the key, if there is one, and the payload. */
  function Body(f: Sent): seq<octet>
    requires WellFormed(f)
  {
    if f.key.Some? then f.key.value + Masked(f.payload, f.key.value) else f.payload
  }

  function Printed(f: Sent): seq<octet>
    requires WellFormed(f)
  {
    Header(FirstByte(f), f.form, f.key.Some?, |f.payload|) + Body(f)
  }

  function Shortest(length: nat): LengthForm {
    if length <= 125 then Short else if length <= 65535 then Medium else Long
  }

  /** What the server writes: FIN and the text opcode, unmasked. */
  function TextFrame(payload: seq<octet>): Sent {
    Sent(true, 0, 1, Shortest(|payload|), None, payload)
  }

  // ---------------------------------------------------------------- the parser

  /** The fields of the two header bytes. */
  function Opcode(b: octet): octet { b & 0x0F }
  predicate IsMasked(b: octet) { b & 0x80 != 0 }
  function Length7(b: octet): nat { (b & 0x7F) as nat }

  /** io.ReadFull on what is left of the stream. */
  function ReadFull(s: seq<octet>, n: nat, end: StreamEnd): (Result<seq<octet>, FrameError>, seq<octet>) {
    if |s| >= n then (Success(s[..n]), s[n..]) else (Failure(Cut(s, end)), [])
  }

  function Cut(s: seq<octet>, end: StreamEnd): FrameError {
    if end.Faulty? then Fault(end.code) else if s == [] then EOF else UnexpectedEOF
  }

  function ReadLength(len7: nat, s: seq<octet>, end: StreamEnd): (Result<nat, FrameError>, seq<octet>) {
    if len7 == 126 then
      var (ext, rest) := ReadFull(s, 2, end);
      if ext.Failure? then (Failure(ext.error), rest) else (Success(FromBigEndian(ext.value)), rest)
    else if len7 == 127 then
      var (ext, rest) := ReadFull(s, 8, end);
      if ext.Failure? then (Failure(ext.error), rest)
      else if FromBigEndian(ext.value) > MAX_PAYLOAD then (Failure(TooLarge), rest)
      else (Success(FromBigEndian(ext.value)), rest)
    else (Success(len7), s)
  }

  /** The masking key, if there is one, and the payload. */
  function ReadPayload(masked: bool, length: nat, s: seq<octet>, end: StreamEnd)
    : (Result<seq<octet>, FrameError>, seq<octet>)
  {
    var (key, rest) := if masked then ReadFull(s, 4, end) else (Success([0, 0, 0, 0]), s);
    if key.Failure? then (Failure(key.error), rest) else
    var (payload, last) := ReadFull(rest, length, end);
    if payload.Failure? then (Failure(payload.error), last) else
    (Success(if masked then Masked(payload.value, key.value) else payload.value), last)
  }

  /** One call of readFrame on the stream s: its result, and the stream behind it. */
  function Parse(s: seq<octet>, end: StreamEnd): (Result<Frame, FrameError>, seq<octet>) {
    var (header, s1) := ReadFull(s, 2, end);
    if header.Failure? then (Failure(header.error), s1) else
    var (length, s2) := ReadLength(Length7(header.value[1]), s1, end);
    if length.Failure? then (Failure(length.error), s2) else
    var (payload, s3) := ReadPayload(IsMasked(header.value[1]), length.value, s2, end);
    if payload.Failure? then (Failure(payload.error), s3) else
    (Success(Frame(Opcode(header.value[0]), payload.value)), s3)
  }

  /** The connection: what the peer will still send and what comes then, what has been written, and how many bytes
      can still be written before a write fails. */
  class Conn {
    var incoming: seq<octet>
    var end: StreamEnd
    var outgoing: seq<octet>
    var room: Option<nat>

    method Read(n: nat) returns (r: Result<seq<octet>, FrameError>)
      modifies this`incoming
      ensures r == ReadFull(old(incoming), n, end).0 && incoming == ReadFull(old(incoming), n, end).1
    {
      if |incoming| >= n {
        r := Success(incoming[..n]);
        incoming := incoming[n..];
      } else {
        r := Failure(Cut(incoming, end));
        incoming := [];
      }
    }

    predicate HasRoom(n: nat)
      reads this
    {
      room.None? || n <= room.value
    }

    method Write(bytes: seq<octet>) returns (ok: bool)
      modifies this`outgoing, this`room
      ensures ok <==> old(HasRoom(|bytes|))
      ensures outgoing == old(outgoing) + (if ok then bytes else bytes[..old(room).value])
    {
      ok := HasRoom(|bytes|);
      if ok {
        outgoing := outgoing + bytes;
        if room.Some? {
          room := Some(room.value - |bytes|);
        }
      } else {
        outgoing := outgoing + bytes[..room.value];
        room := Some(0);
      }
    }
  }

  /** binary.BigEndian.PutUint16 and PutUint64 on the last bytes of the header. */
  method PutUint(header: seq<octet>, width: nat, v: nat) returns (r: seq<octet>)
    requires width <= |header|
    ensures r == header[..|header| - width] + BigEndian(v, width)
  {
    r := header;
    var rest := v;
    for i := 0 to width
      invariant |r| == |header|
      invariant r[..|r| - width] == header[..|r| - width]
      invariant BigEndian(v, width) == BigEndian(rest, width - i) + r[|r| - i..]
    {
      ghost var before := r;
      r := r[|r| - 1 - i := (rest % 256) as octet];
      assert r[|r| - (i + 1)..] == [(rest % 256) as octet] + before[|r| - i..];
      rest := rest / 256;
    }
  }

  lemma TextHeader(payload: seq<octet>)
    requires |payload| < Pow256(8)
    ensures WellFormed(TextFrame(payload)) && FirstByte(TextFrame(payload)) == 0x81
  {
    assert Pow256(2) == 65536;
  }

  /** `ok` is false when the write returned an error; then only a part of the frame has gone out. */
  method WriteTextFrame(conn: Conn, payload: seq<octet>) returns (ok: bool)
    requires |payload| < Pow256(8)
    modifies conn`outgoing, conn`room
    ensures WellFormed(TextFrame(payload))
    ensures var frame := Printed(TextFrame(payload));
            && (ok <==> old(conn.HasRoom(|frame|)))
            && conn.outgoing == old(conn.outgoing) + (if ok then frame else frame[..old(conn.room).value])
  {
    assert Pow256(2) == 65536;
    var header: seq<octet> := [0x80 | 0x1];
    if |payload| <= 125 {
      header := header + [|payload| as octet];
    } else if |payload| <= 65535 {
      header := header + [126, 0, 0];
      header := PutUint(header, 2, |payload|);
    } else {
      header := header + [127, 0, 0, 0, 0, 0, 0, 0, 0];
      header := PutUint(header, 8, |payload|);
    }
    TextHeader(payload);
    assert header == Header(0x81, Shortest(|payload|), false, |payload|);
    ok := conn.Write(header + payload);
  }

  method Unmask(payload: array<octet>, maskKey: seq<octet>)
    requires |maskKey| == 4
    modifies payload
    ensures payload[..] == Masked(old(payload[..]), maskKey)
    ensures forall i | 0 <= i < payload.Length :: payload[i] == old(payload[i]) ^ maskKey[i % 4]
  {
    for i := 0 to payload.Length
      invariant forall k | 0 <= k < i :: payload[k] == old(payload[k]) ^ maskKey[k % 4]
      invariant forall k | i <= k < payload.Length :: payload[k] == old(payload[k])
    {
      payload[i] := payload[i] ^ maskKey[i % 4];
    }
  }

  /** The extended length, lines 64-80. */
  method ReadPayloadLength(conn: Conn, len7: nat) returns (r: Result<nat, FrameError>)
    modifies conn`incoming
    ensures r == ReadLength(len7, old(conn.incoming), conn.end).0
    ensures conn.incoming == ReadLength(len7, old(conn.incoming), conn.end).1
  {
    if len7 == 126 {
      var ext := conn.Read(2);
      if ext.Failure? {
        return Failure(ext.error);
      }
      return Success(FromBigEndian(ext.value));
    } else if len7 == 127 {
      var ext := conn.Read(8);
      if ext.Failure? {
        return Failure(ext.error);
      }
      var length := FromBigEndian(ext.value);
      if length > MAX_PAYLOAD {
        return Failure(TooLarge);
      }
      return Success(length);
    }
    return Success(len7);
  }

  /** Lines 82-99. */
  method ReadMaskedPayload(conn: Conn, masked: bool, length: nat) returns (r: Result<seq<octet>, FrameError>)
    modifies conn`incoming
    ensures r == ReadPayload(masked, length, old(conn.incoming), conn.end).0
    ensures conn.incoming == ReadPayload(masked, length, old(conn.incoming), conn.end).1
  {
    var maskKey: seq<octet> := [0, 0, 0, 0];
    if masked {
      var key := conn.Read(4);
      if key.Failure? {
        return Failure(key.error);
      }
      maskKey := key.value;
    }
    var received: seq<octet> := [];
    if length > 0 {
      var body := conn.Read(length);
      if body.Failure? {
        return Failure(body.error);
      }
      received := body.value;
    }
    var payload := new octet[|received|](i requires 0 <= i < |received| => received[i]);
    assert payload[..] == received;
    if masked {
      Unmask(payload, maskKey);
    }
    return Success(payload[..]);
  }

  method ReadFrame(conn: Conn) returns (r: Result<Frame, FrameError>)
    modifies conn`incoming
    ensures r == Parse(old(conn.incoming), conn.end).0 && conn.incoming == Parse(old(conn.incoming), conn.end).1
    ensures r.Success? ==> |old(conn.incoming)| >= 2 && r.value.opcode as nat == old(conn.incoming)[0] as nat % 16
  {
    var header := conn.Read(2);
    if header.Failure? {
      return Failure(header.error);
    }
    var opcode := Opcode(header.value[0]);
    LowFourBits(header.value[0]);
    var masked := IsMasked(header.value[1]);
    var length := ReadPayloadLength(conn, Length7(header.value[1]));
    if length.Failure? {
      return Failure(length.error);
    }
    var payload := ReadMaskedPayload(conn, masked, length.value);
    if payload.Failure? {
      return Failure(payload.error);
    }
    return Success(Frame(opcode, payload.value));
  }

  // ---------------------------------------------------------------- round trip

  /** The bits of an octet are the digits of its number. */
  lemma OctetBits(b: octet)
    ensures Opcode(b) as nat == b as nat % 16
    ensures IsMasked(b) <==> b as nat >= 128
    ensures Length7(b) == b as nat % 128
  {
    LowFourBits(b);
    HighBit(b);
    LowSevenBits(b);
  }

  lemma LowFourBits(b: octet)
    ensures (b & 0x0F) as nat == b as nat % 16
  {
  }

  lemma HighBit(b: octet)
    ensures b & 0x80 != 0 <==> b as nat >= 128
  {
  }

  lemma LowSevenBits(b: octet)
    ensures (b & 0x7F) as nat == b as nat % 128
  {
  }

  lemma LastOfSixteen(a: nat, o: nat)
    requires o < 16
    ensures (16 * a + o) % 16 == o
  {
  }

  lemma FirstByteBits(f: Sent)
    requires WellFormed(f)
    ensures Opcode(FirstByte(f)) == f.opcode as octet
  {
    OctetBits(FirstByte(f));
    OctetOfNat(FirstNumber(f));
    LastOfSixteen((if f.fin then 8 else 0) + f.reserved, f.opcode);
    SameNumber(Opcode(FirstByte(f)), f.opcode);
  }

  lemma SameNumber(b: octet, n: nat)
    requires b as nat == n
    ensures n < 256 && b == n as octet
  {
    OctetIsSmall(b);
    NatOfOctet(b);
  }

  /** Every number below 256 has these parts. */
  lemma NumberParts(n: nat)
    requires n < 256
    ensures n == (if n >= 128 then 128 else 0) + 16 * (n / 16 % 8) + n % 16
  {
    assert n == 16 * (n / 16) + n % 16;
    assert n / 16 < 16;
    assert n / 16 % 8 == if n / 16 >= 8 then n / 16 - 8 else n / 16;
  }

  /** Every octet is the first byte of some frame: these are its parts. */
  lemma FirstByteParts(b: octet, f: Sent)
    requires WellFormed(f)
    requires f.fin == (b as nat >= 128) && f.reserved == b as nat / 16 % 8 && f.opcode == b as nat % 16
    ensures FirstByte(f) == b
  {
    OctetIsSmall(b);
    NumberParts(b as nat);
    SameNumber(b, FirstNumber(f));
  }

  lemma SecondByteBits(field: nat, masked: bool)
    requires field <= 127
    ensures var b := ((if masked then 128 else 0) + field) as octet; IsMasked(b) == masked && Length7(b) == field
  {
    var n := (if masked then 128 else 0) + field;
    OctetOfNat(n);
    OctetBits(n as octet);
  }

  lemma SecondByteSplits(b: octet)
    ensures b == ((if IsMasked(b) then 128 else 0) + Length7(b)) as octet && Length7(b) <= 127
  {
    OctetIsSmall(b);
    OctetBits(b);
    NatOfOctet(b);
  }

  lemma ReadFullConcat(a: seq<octet>, rest: seq<octet>, end: StreamEnd)
    ensures ReadFull(a + rest, |a|, end).0 == Success(a) && ReadFull(a + rest, |a|, end).1 == rest
  {
    assert (a + rest)[..|a|] == a && (a + rest)[|a|..] == rest;
  }

  predicate Accepted(f: Sent) {
    WellFormed(f) && (f.form.Long? ==> |f.payload| <= 1048576)
  }

  lemma LengthRead(form: LengthForm, length: nat, rest: seq<octet>, end: StreamEnd)
    requires Fits(form, length)
    ensures var r := ReadLength(LengthField(form, length), BigEndian(length, Width(form)) + rest, end);
            && r.0 == (if form.Long? && length > 1048576 then Failure(TooLarge) else Success(length))
            && r.1 == rest
  {
    ReadFullConcat(BigEndian(length, Width(form)), rest, end);
    if form.Short? {
      assert BigEndian(length, 0) + rest == rest;
    } else {
      DecodesBigEndian(length, Width(form));
    }
  }

  lemma PayloadRead(f: Sent, rest: seq<octet>, end: StreamEnd)
    requires WellFormed(f)
    ensures var r := ReadPayload(f.key.Some?, |f.payload|, Body(f) + rest, end);
            r.0 == Success(f.payload) && r.1 == rest
  {
    if f.key.Some? {
      var key, data := f.key.value, Masked(f.payload, f.key.value);
      assert (key + data) + rest == key + (data + rest);
      ReadFullConcat(key, data + rest, end);
      ReadFullConcat(data, rest, end);
      MaskedTwice(f.payload, key);
    } else {
      ReadFullConcat(f.payload, rest, end);
    }
  }

  lemma HeaderRead(f: Sent, tail: seq<octet>, end: StreamEnd)
    requires WellFormed(f)
    ensures var s := Header(FirstByte(f), f.form, f.key.Some?, |f.payload|) + tail;
            var (header, s1) := ReadFull(s, 2, end);
            && header.Success? && header.value[0] == FirstByte(f) && IsMasked(header.value[1]) == f.key.Some?
            && Length7(header.value[1]) == LengthField(f.form, |f.payload|)
            && s1 == BigEndian(|f.payload|, Width(f.form)) + tail
  {
    var field := LengthField(f.form, |f.payload|);
    var second := ((if f.key.Some? then 128 else 0) + field) as octet;
    SecondByteBits(field, f.key.Some?);
    TwoFirst([FirstByte(f), second], BigEndian(|f.payload|, Width(f.form)), tail, end);
  }

  lemma TwoFirst(two: seq<octet>, ext: seq<octet>, tail: seq<octet>, end: StreamEnd)
    requires |two| == 2
    ensures ReadFull(two + ext + tail, 2, end).0 == Success(two) && ReadFull(two + ext + tail, 2, end).1 == ext + tail
  {
    Text.Associates(two, ext, tail);
    ReadFullConcat(two, ext + tail, end);
  }

  /** readFrame reads back any frame a peer may send, and nothing behind it; a frame longer than the
      limit is refused. */
  lemma ParsesPrinted(f: Sent, rest: seq<octet>, end: StreamEnd)
    requires WellFormed(f)
    ensures Accepted(f) ==> Parse(Printed(f) + rest, end).0 == Success(Frame(f.opcode as octet, f.payload))
                            && Parse(Printed(f) + rest, end).1 == rest
    ensures !Accepted(f) ==> Parse(Printed(f) + rest, end).0 == Failure(TooLarge)
  {
    FirstByteBits(f);
    assert Printed(f) + rest == Header(FirstByte(f), f.form, f.key.Some?, |f.payload|) + (Body(f) + rest);
    HeaderRead(f, Body(f) + rest, end);
    LengthRead(f.form, |f.payload|, Body(f) + rest, end);
    PayloadRead(f, rest, end);
  }

  lemma ParseParts(s: seq<octet>, end: StreamEnd)
    requires Parse(s, end).0.Success?
    ensures |s| >= 2
    ensures var (length, s2) := ReadLength(Length7(s[1]), s[2..], end);
            && length.Success?
            && var (payload, s3) := ReadPayload(IsMasked(s[1]), length.value, s2, end);
               && payload.Success? && Parse(s, end).1 == s3
               && Parse(s, end).0 == Success(Frame(Opcode(s[0]), payload.value))
  {
    assert ReadFull(s, 2, end).0.Success?;
  }

  lemma HeaderOfParse(s: seq<octet>, end: StreamEnd) returns (form: LengthForm, length: nat, s2: seq<octet>)
    requires Parse(s, end).0.Success?
    ensures |s| >= 2 && Fits(form, length) && (form.Long? ==> length <= 1048576)
    ensures s == Header(s[0], form, IsMasked(s[1]), length) + s2
    ensures var r := ReadPayload(IsMasked(s[1]), length, s2, end);
            r.0.Success? && Parse(s, end).1 == r.1 && Parse(s, end).0 == Success(Frame(Opcode(s[0]), r.0.value))
  {
    ParseParts(s, end);
    var (read, rest) := ReadLength(Length7(s[1]), s[2..], end);
    form := if Length7(s[1]) == 126 then Medium else if Length7(s[1]) == 127 then Long else Short;
    length, s2 := read.value, rest;
    LengthWasPrinted(s[1], form, s[2..], end);
    HeaderWasPrinted(s, form, length);
    Text.Associates(s[..2], BigEndian(length, Width(form)), s2);
  }

  /** And it accepts nothing else: whatever it returns was such a frame at the front of the stream. */
  lemma ParsesOnlyPrinted(s: seq<octet>, end: StreamEnd) returns (f: Sent)
    requires Parse(s, end).0.Success?
    ensures Accepted(f) && s == Printed(f) + Parse(s, end).1
    ensures Parse(s, end).0 == Success(Frame(f.opcode as octet, f.payload))
  {
    var form, length, s2 := HeaderOfParse(s, end);
    var masked := IsMasked(s[1]);
    var (payload, s3) := ReadPayload(masked, length, s2, end);
    PayloadWasPrinted(masked, length, s2, end);
    OctetIsSmall(s[0]);
    f := Sent(s[0] as nat >= 128, s[0] as nat / 16 % 8, s[0] as nat % 16,
              form, if masked then Some(s2[..4]) else None, payload.value);
    FirstByteParts(s[0], f);
    FirstByteBits(f);
    Reassembled(f, s2, s3);
  }

  lemma Reassembled(f: Sent, s2: seq<octet>, s3: seq<octet>)
    requires WellFormed(f)
    requires s2 == Body(f) + s3
    ensures Header(FirstByte(f), f.form, f.key.Some?, |f.payload|) + s2 == Printed(f) + s3
  {
    var header := Header(FirstByte(f), f.form, f.key.Some?, |f.payload|);
    assert header + (Body(f) + s3) == (header + Body(f)) + s3;
  }

  lemma HeaderWasPrinted(s: seq<octet>, form: LengthForm, length: nat)
    requires |s| >= 2 && Fits(form, length) && LengthField(form, length) == Length7(s[1])
    ensures Header(s[0], form, IsMasked(s[1]), length) == s[..2] + BigEndian(length, Width(form))
  {
    SecondByteSplits(s[1]);
    assert s[..2] == [s[0], s[1]];
  }

  lemma LengthWasPrinted(b: octet, form: LengthForm, s1: seq<octet>, end: StreamEnd)
    requires form == if Length7(b) == 126 then Medium else if Length7(b) == 127 then Long else Short
    requires ReadLength(Length7(b), s1, end).0.Success?
    ensures var (length, s2) := ReadLength(Length7(b), s1, end);
            && Fits(form, length.value) && (form.Long? ==> length.value <= 1048576)
            && LengthField(form, length.value) == Length7(b)
            && s1 == BigEndian(length.value, Width(form)) + s2
  {
    SecondByteSplits(b);
    if Length7(b) == 126 {
      EncodesBigEndian(s1[..2]);
    } else if Length7(b) == 127 {
      EncodesBigEndian(s1[..8]);
    }
  }

  lemma PayloadWasPrinted(masked: bool, length: nat, s2: seq<octet>, end: StreamEnd)
    requires ReadPayload(masked, length, s2, end).0.Success?
    ensures var (payload, s3) := ReadPayload(masked, length, s2, end);
            && |payload.value| == length
            && (masked ==> |s2| >= 4 && s2 == s2[..4] + Masked(payload.value, s2[..4]) + s3)
            && (!masked ==> s2 == payload.value + s3)
  {
    if masked {
      var data := s2[4..][..length];
      MaskedTwice(data, s2[..4]);
    }
  }

  // ---------------------------------------------------------------- frames that break off

  /** How a read fails when only n of the bytes that it needs still come. */
  function BreakOff(n: nat, end: StreamEnd): FrameError {
    if end.Faulty? then Fault(end.code) else if n == 0 then EOF else UnexpectedEOF
  }

  lemma ReadFullCut(a: seq<octet>, b: seq<octet>, n: nat, end: StreamEnd)
    requires n <= |a| + |b|
    ensures ReadFull((a + b)[..n], |a|, end)
            == if n < |a| then (Failure(BreakOff(n, end)), []) else (Success(a), b[..n - |a|])
  {
    var s := (a + b)[..n];
    if n >= |a| {
      assert s[..|a|] == a && s[|a|..] == b[..n - |a|];
    }
  }

  lemma BodyCut(f: Sent, n: nat, end: StreamEnd)
    requires WellFormed(f) && n < |Body(f)|
    ensures var key := if f.key.Some? then 4 else 0;
            ReadPayload(f.key.Some?, |f.payload|, Body(f)[..n], end).0
            == Failure(BreakOff(if n < key then n else n - key, end))
  {
    if f.key.Some? {
      var data := Masked(f.payload, f.key.value);
      ReadFullCut(f.key.value, data, n, end);
      if n >= 4 {
        assert data + [] == data;
        ReadFullCut(data, [], n - 4, end);
      }
    } else {
      assert f.payload + [] == f.payload;
      ReadFullCut(f.payload, [], n, end);
    }
  }

  lemma LengthCut(f: Sent, n: nat, end: StreamEnd)
    requires Accepted(f) && n <= Width(f.form) + |Body(f)|
    ensures var ext := BigEndian(|f.payload|, Width(f.form));
            ReadLength(LengthField(f.form, |f.payload|), (ext + Body(f))[..n], end)
            == if n < Width(f.form) then (Failure(BreakOff(n, end)), [])
               else (Success(|f.payload|), Body(f)[..n - Width(f.form)])
  {
    var ext := BigEndian(|f.payload|, Width(f.form));
    if f.form.Short? {
      assert ext + Body(f) == Body(f);
    } else {
      ReadFullCut(ext, Body(f), n, end);
      DecodesBigEndian(|f.payload|, Width(f.form));
    }
  }

  /** How many bytes of the part come in which the stream breaks off: header, length, key or payload. */
  function IntoPart(f: Sent, n: nat): nat {
    var w, key := 2 + Width(f.form), if f.key.Some? then 4 else 0;
    if n < 2 then n else if n < w then n - 2 else if n < w + key then n - w else n - w - key
  }

  lemma HeaderCut(f: Sent, n: nat, end: StreamEnd)
    requires WellFormed(f) && n < |Printed(f)|
    ensures var (header, s1) := ReadFull(Printed(f)[..n], 2, end);
            if n < 2 then header == Failure(BreakOff(n, end))
            else && header.Success? && IsMasked(header.value[1]) == f.key.Some?
                 && Length7(header.value[1]) == LengthField(f.form, |f.payload|)
                 && s1 == (BigEndian(|f.payload|, Width(f.form)) + Body(f))[..n - 2]
  {
    var field := LengthField(f.form, |f.payload|);
    var two := [FirstByte(f), ((if f.key.Some? then 128 else 0) + field) as octet];
    SecondByteBits(field, f.key.Some?);
    Text.Associates(two, BigEndian(|f.payload|, Width(f.form)), Body(f));
    ReadFullCut(two, BigEndian(|f.payload|, Width(f.form)) + Body(f), n, end);
  }

  /** A frame that breaks off is never returned: the error of the connection is, or EOF where the next part would
      have begun, and an unexpected EOF inside a part. */
  lemma BrokenFrameFails(f: Sent, n: nat, end: StreamEnd)
    requires Accepted(f) && n < |Printed(f)|
    ensures Parse(Printed(f)[..n], end).0 == Failure(BreakOff(IntoPart(f, n), end))
  {
    HeaderCut(f, n, end);
    if n >= 2 {
      LengthCut(f, n - 2, end);
      if n - 2 >= Width(f.form) {
        BodyCut(f, n - 2 - Width(f.form), end);
      }
    }
  }

  // ---------------------------------------------------------------- streams

  function PrintedAll(fs: seq<Sent>): seq<octet>
    requires forall i | 0 <= i < |fs| :: WellFormed(fs[i])
  {
    if fs == [] then [] else Printed(fs[0]) + PrintedAll(fs[1..])
  }

  /** n calls of readFrame in a row, up to the first error. */
  function ParseMany(s: seq<octet>, n: nat, end: StreamEnd): (Result<seq<Frame>, FrameError>, seq<octet>) {
    if n == 0 then (Success([]), s)
    else
      var (frame, rest) := Parse(s, end);
      if frame.Failure? then (Failure(frame.error), rest) else
      var (frames, last) := ParseMany(rest, n - 1, end);
      if frames.Failure? then (frames, last) else (Success([frame.value] + frames.value), last)
  }

  /** What was sent, without its form on the wire. */
  function Content(f: Sent): Frame
    requires WellFormed(f)
  {
    Frame(f.opcode as octet, f.payload)
  }

  function Contents(fs: seq<Sent>): (frames: seq<Frame>)
    requires forall i | 0 <= i < |fs| :: WellFormed(fs[i])
    ensures |frames| == |fs| && forall i | 0 <= i < |fs| :: frames[i] == Content(fs[i])
  {
    seq(|fs|, i requires 0 <= i < |fs| => Content(fs[i]))
  }

  /** One frame at the front of a stream is the first that is read. */
  lemma OneFrameFirst(f: Sent, tail: seq<octet>, n: nat, end: StreamEnd)
    requires Accepted(f) && ParseMany(tail, n, end).0.Success?
    ensures ParseMany(Printed(f) + tail, n + 1, end).0 ==
              Success([Content(f)] + ParseMany(tail, n, end).0.value)
    ensures ParseMany(Printed(f) + tail, n + 1, end).1 == ParseMany(tail, n, end).1
  {
    ParsesPrinted(f, tail, end);
  }

  lemma FirstPrinted(fs: seq<Sent>, rest: seq<octet>)
    requires fs != [] && forall i | 0 <= i < |fs| :: WellFormed(fs[i])
    ensures PrintedAll(fs) + rest == Printed(fs[0]) + (PrintedAll(fs[1..]) + rest)
  {
    Text.Associates(Printed(fs[0]), PrintedAll(fs[1..]), rest);
  }

  lemma FirstContent(fs: seq<Sent>)
    requires fs != [] && forall i | 0 <= i < |fs| :: WellFormed(fs[i])
    ensures Contents(fs) == [Content(fs[0])] + Contents(fs[1..])
  {
  }

  /** Reading a stream of frames gives exactly these frames and leaves exactly what follows them. */
  lemma {:induction false} StreamRoundTrip(fs: seq<Sent>, rest: seq<octet>, end: StreamEnd)
    requires forall i | 0 <= i < |fs| :: WellFormed(fs[i]) && Accepted(fs[i])
    ensures ParseMany(PrintedAll(fs) + rest, |fs|, end).0 == Success(Contents(fs))
    ensures ParseMany(PrintedAll(fs) + rest, |fs|, end).1 == rest
  {
    if fs == [] {
      assert [] + rest == rest;
      assert Contents(fs) == [];
    } else {
      var f, tail, n := fs[0], PrintedAll(fs[1..]) + rest, |fs| - 1;
      assert ParseMany(tail, n, end).0 == Success(Contents(fs[1..])) && ParseMany(tail, n, end).1 == rest by {
        StreamRoundTrip(fs[1..], rest, end);
      }
      OneFrameFirst(f, tail, n, end);
      assert PrintedAll(fs) + rest == Printed(f) + tail by {
        FirstPrinted(fs, rest);
      }
      FirstContent(fs);
    }
  }

  /** The server's own frames use the shortest length form, and are read back up to the limit of
      readFrame and refused beyond it. */
  lemma TextFrameRoundTrip(payload: seq<octet>, rest: seq<octet>, end: StreamEnd)
    requires |payload| < Pow256(8)
    ensures WellFormed(TextFrame(payload))
    ensures forall form | Fits(form, |payload|) :: Width(Shortest(|payload|)) <= Width(form)
    ensures var (r, left) := Parse(Printed(TextFrame(payload)) + rest, end);
            if |payload| <= 1048576 then r == Success(Frame(0x1, payload)) && left == rest
            else r == Failure(TooLarge)
  {
    assert Pow256(2) == 65536;
    ParsesPrinted(TextFrame(payload), rest, end);
  }
}
