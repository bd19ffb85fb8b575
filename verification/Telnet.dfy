/** The resumable Telnet filter (backend/internal/gateway/telnet.go; RFC 854 and RFC 855). */
module Telnet {
  import opened Text

  newtype byte = b: int | 0 <= b < 256

  const IAC: byte := 255
  const WILL: byte := 251
  const WONT: byte := 252
  const DO: byte := 253
  const DONT: byte := 254
  const SB: byte := 250
  const SE: byte := 240

  datatype FilterState = Data | AfterIAC | SkipOption | Subnegotiation | SubnegotiationIAC

  predicate IsNegotiation(b: byte) { b == WILL || b == WONT || b == DO || b == DONT }

  /** One byte: the next state, and what reaches the output. */
  function Feed(state: FilterState, b: byte): (FilterState, seq<byte>) {
    match state
    case Data => if b == IAC then (AfterIAC, []) else (Data, [b])
    case AfterIAC =>
      if IsNegotiation(b) then (SkipOption, [])
      else if b == SB then (Subnegotiation, [])
      else if b == IAC then (Data, [b])
      else (Data, [])
    case SkipOption => (Data, [])
    case Subnegotiation => (if b == IAC then SubnegotiationIAC else Subnegotiation, [])
    case SubnegotiationIAC =>
      (if b == SE then Data else if b != IAC then Subnegotiation else SubnegotiationIAC, [])
  }

  function Filtered(state: FilterState, data: seq<byte>): (FilterState, seq<byte>)
    decreases |data|
  {
    if data == [] then (state, [])
    else
      var n := |data| - 1;
      var (mid, out) := Filtered(state, data[..n]);
      var (last, more) := Feed(mid, data[n]);
      (last, out + more)
  }

  predicate Yields(state: FilterState, data: seq<byte>, last: FilterState, out: seq<byte>) {
    Filtered(state, data).0 == last && Filtered(state, data).1 == out
  }

  class TelnetFilter {
    var state: FilterState

    constructor ()
      ensures state == Data
    {
      state := Data;
    }

    method Filter(data: seq<byte>) returns (out: seq<byte>)
      modifies this
      ensures Yields(old(state), data, state, out)
    {
      out := [];
      if |data| == 0 {
        return;
      }
      for i := 0 to |data|
        invariant Yields(old(state), data[..i], state, out)
      {
        assert data[..i + 1][..i] == data[..i];
        var b := data[i];
        match state
        case Data =>
          if b == IAC {
            state := AfterIAC;
            continue;
          }
          out := out + [b];
        case AfterIAC =>
          if b == WILL || b == WONT || b == DO || b == DONT {
            state := SkipOption;
          } else if b == SB {
            state := Subnegotiation;
          } else if b == IAC {
            out := out + [b];
            state := Data;
          } else {
            state := Data;
          }
        case SkipOption =>
          state := Data;
        case Subnegotiation =>
          if b == IAC {
            state := SubnegotiationIAC;
          }
        case SubnegotiationIAC =>
          if b == SE {
            state := Data;
            continue;
          }
          if b != IAC {
            state := Subnegotiation;
          }
      }
      assert data[..|data|] == data;
    }
  }

  // ---------------------------------------------------------------- chunks

  /** The filter resumes: cutting the stream anywhere changes neither the output nor the state. */
  lemma {:induction false} FilteredConcat(state: FilterState, x: seq<byte>, y: seq<byte>)
    ensures var (mid, outX) := Filtered(state, x);
            var (last, outY) := Filtered(mid, y);
            Yields(state, x + y, last, outX + outY)
    decreases |y|
  {
    if y == [] {
      assert x + y == x;
    } else {
      var n := |y| - 1;
      FilteredConcat(state, x, y[..n]);
      assert (x + y)[..|x + y| - 1] == x + y[..n];
    }
  }

  /** What the filter returns for each of the chunks it is called with. */
  function FilteredChunks(state: FilterState, chunks: seq<seq<byte>>): (FilterState, seq<seq<byte>>) {
    if chunks == [] then (state, [])
    else
      var n := |chunks| - 1;
      var (mid, outs) := FilteredChunks(state, chunks[..n]);
      var (last, out) := Filtered(mid, chunks[n]);
      (last, outs + [out])
  }

  lemma {:induction false} ChunkingIsInvisible(state: FilterState, chunks: seq<seq<byte>>)
    ensures var (last, outs) := FilteredChunks(state, chunks);
            Yields(state, Flatten(chunks), last, Flatten(outs))
  {
    if chunks != [] {
      var n := |chunks| - 1;
      var (mid, outs) := FilteredChunks(state, chunks[..n]);
      var (last, out) := Filtered(mid, chunks[n]);
      ChunkingIsInvisible(state, chunks[..n]);
      FilteredConcat(state, Flatten(chunks[..n]), chunks[n]);
      assert (outs + [out])[..|outs|] == outs;
    }
  }

  // ---------------------------------------------------------------- the inverse

  /** What a Telnet server sends, with the codes of RFC 854: 255 escapes, 251 to 254 negotiate an option, 250 begins
      a subnegotiation and 240 ends it. Commands are the other ones, of two bytes. */
  datatype Token =
    | DataByte(b: byte)                          // data, byte 255 doubled on the wire
    | Command(b: byte)
    | Negotiation(verb: byte, option: byte)
    | Subneg(body: seq<byte>)

  predicate WellFormed(t: Token) {
    match t
    case DataByte(_) => true
    case Command(b) => b < 250
    case Negotiation(verb, _) => 251 <= verb <= 254
    case Subneg(_) => true
  }

  /** RFC 854: byte 255 as data is sent twice. */
  function Doubled(body: seq<byte>): seq<byte> {
    if body == [] then []
    else (if body[0] == 255 then [255, 255] else [body[0]]) + Doubled(body[1..])
  }

  function Encode(t: Token): seq<byte> {
    match t
    case DataByte(b) => Doubled([b])
    case Command(b) => [255, b]
    case Negotiation(verb, option) => [255, verb, option]
    case Subneg(body) => [255, 250] + Doubled(body) + [255, 240]
  }

  /** What of a subnegotiation's body comes after its first byte pair 255 240: the filter takes that
      pair for the end, because after a doubled 255 it stays in the IAC sub-state. */
  function Leak(body: seq<byte>): seq<byte> {
    if |body| < 2 then []
    else if body[0] == 255 && body[1] == 240 then body[2..]
    else Leak(body[1..])
  }

  function Payload(t: Token): seq<byte> {
    match t
    case DataByte(b) => [b]
    case Subneg(body) => Leak(body)
    case _ => []
  }

  function EncodeAll(ts: seq<Token>): seq<byte> {
    if ts == [] then [] else EncodeAll(ts[..|ts| - 1]) + Encode(ts[|ts| - 1])
  }

  function PayloadAll(ts: seq<Token>): seq<byte> {
    if ts == [] then [] else PayloadAll(ts[..|ts| - 1]) + Payload(ts[|ts| - 1])
  }

  lemma Filtered1(state: FilterState, b: byte)
    ensures Yields(state, [b], Feed(state, b).0, Feed(state, b).1)
  {
    assert [b][..0] == [];
  }

  lemma Filtered2(state: FilterState, a: byte, b: byte)
    ensures var (mid, outA) := Feed(state, a);
            var (last, outB) := Feed(mid, b);
            Yields(state, [a, b], last, outA + outB)
  {
    Filtered1(state, a);
    assert [a, b][..1] == [a];
  }

  /** One body byte as it is sent, in the data state. */
  lemma {:induction false} DoubledInData(body: seq<byte>)
    ensures Yields(Data, Doubled(body), Data, body)
  {
    if body != [] {
      var head := if body[0] == IAC then [IAC, IAC] else [body[0]];
      FilteredConcat(Data, head, Doubled(body[1..]));
      DoubledInData(body[1..]);
      Filtered1(Data, body[0]);
      Filtered2(Data, IAC, IAC);
    }
  }

  /** A body inside a subnegotiation, followed by IAC SE; `afterIAC` tells that 255 has just been doubled. */
  lemma {:induction false} DoubledInSubneg(body: seq<byte>, afterIAC: bool)
    requires afterIAC && body != [] ==> body[0] != SE
    ensures Yields(if afterIAC then SubnegotiationIAC else Subnegotiation, Doubled(body) + [IAC, SE], Data, Leak(body))
    decreases |body|
  {
    var state := if afterIAC then SubnegotiationIAC else Subnegotiation;
    if body == [] {
      Filtered2(state, IAC, SE);
      assert Doubled(body) + [IAC, SE] == [IAC, SE];
    } else {
      var head := if body[0] == IAC then [IAC, IAC] else [body[0]];
      var rest := Doubled(body[1..]) + [IAC, SE];
      assert Doubled(body) + [IAC, SE] == head + rest;
      FilteredConcat(state, head, rest);
      Filtered1(state, body[0]);
      Filtered2(state, IAC, IAC);
      if body[0] == IAC && |body| > 1 && body[1] == SE {
        LeakStarts(body);
      } else {
        DoubledInSubneg(body[1..], body[0] == IAC);
      }
    }
  }

  /** 255 240 inside a body: what follows leaks, and the closing IAC SE is taken for a command. */
  lemma LeakStarts(body: seq<byte>)
    requires |body| > 1 && body[0] == IAC && body[1] == SE
    ensures Yields(SubnegotiationIAC, Doubled(body[1..]) + [IAC, SE], Data, body[2..])
  {
    var tail := Doubled(body[2..]);
    assert body[1..][1..] == body[2..];
    assert Doubled(body[1..]) + [IAC, SE] == [SE] + (tail + [IAC, SE]);
    FilteredConcat(SubnegotiationIAC, [SE], tail + [IAC, SE]);
    Filtered1(SubnegotiationIAC, SE);
    FilteredConcat(Data, tail, [IAC, SE]);
    DoubledInData(body[2..]);
    Filtered2(Data, IAC, SE);
  }

  lemma TokenFiltered(t: Token)
    requires WellFormed(t)
    ensures Yields(Data, Encode(t), Data, Payload(t))
  {
    match t
    case DataByte(b) => DoubledInData([b]);
    case Command(b) => Filtered2(Data, IAC, b);
    case Negotiation(verb, option) =>
      assert [IAC, verb, option] == [IAC, verb] + [option];
      FilteredConcat(Data, [IAC, verb], [option]);
      Filtered2(Data, IAC, verb);
      Filtered1(SkipOption, option);
    case Subneg(body) =>
      assert Encode(t) == [IAC, SB] + (Doubled(body) + [IAC, SE]);
      FilteredConcat(Data, [IAC, SB], Doubled(body) + [IAC, SE]);
      Filtered2(Data, IAC, SB);
      DoubledInSubneg(body, false);
  }

  lemma {:induction false} TokensFiltered(ts: seq<Token>)
    requires forall i | 0 <= i < |ts| :: WellFormed(ts[i])
    ensures Yields(Data, EncodeAll(ts), Data, PayloadAll(ts))
  {
    if ts != [] {
      var n := |ts| - 1;
      TokensFiltered(ts[..n]);
      FilteredConcat(Data, EncodeAll(ts[..n]), Encode(ts[n]));
      TokenFiltered(ts[n]);
    }
  }

  /** For every token list in every chunking, the filter ends in the data state, and its outputs put
      together are the payload. */
  lemma TokensInAnyChunking(ts: seq<Token>, chunks: seq<seq<byte>>)
    requires forall i | 0 <= i < |ts| :: WellFormed(ts[i])
    requires Flatten(chunks) == EncodeAll(ts)
    ensures FilteredChunks(Data, chunks).0 == Data && Flatten(FilteredChunks(Data, chunks).1) == PayloadAll(ts)
  {
    ChunkingIsInvisible(Data, chunks);
    TokensFiltered(ts);
  }

  // ---------------------------------------------------------------- exactly the data

  function DataBytes(ts: seq<Token>): seq<byte> {
    if ts == [] then []
    else DataBytes(ts[..|ts| - 1]) + (if ts[|ts| - 1].DataByte? then [ts[|ts| - 1].b] else [])
  }

  /** A body that the filter does not leave early: 255 240 occurs in it at its very end at most. */
  predicate Contained(t: Token) {
    t.Subneg? ==> forall i | 0 <= i < |t.body| - 2 :: !(t.body[i] == 255 && t.body[i + 1] == 240)
  }

  lemma {:induction false} LeakIffPair(body: seq<byte>)
    ensures Leak(body) == [] <==> Contained(Subneg(body))
  {
    if |body| >= 2 && !(body[0] == IAC && body[1] == SE) {
      LeakIffPair(body[1..]);
      assert forall i | 1 <= i < |body| - 2 :: body[i] == body[1..][i - 1] && body[i + 1] == body[1..][i];
    }
  }

  lemma {:induction false} PayloadLength(ts: seq<Token>)
    ensures |PayloadAll(ts)| >= |DataBytes(ts)|
    ensures |PayloadAll(ts)| == |DataBytes(ts)| <==> forall i | 0 <= i < |ts| :: Contained(ts[i])
    ensures (forall i | 0 <= i < |ts| :: Contained(ts[i])) ==> PayloadAll(ts) == DataBytes(ts)
  {
    if ts != [] {
      var n := |ts| - 1;
      PayloadLength(ts[..n]);
      if ts[n].Subneg? {
        LeakIffPair(ts[n].body);
      }
    }
  }

  /** The filter returns exactly the data bytes if and only if no subnegotiation body holds 255 240
      anywhere before its end. */
  lemma ExactlyTheData(ts: seq<Token>, chunks: seq<seq<byte>>)
    requires forall i | 0 <= i < |ts| :: WellFormed(ts[i])
    requires Flatten(chunks) == EncodeAll(ts)
    ensures Flatten(FilteredChunks(Data, chunks).1) == DataBytes(ts) <==> forall i | 0 <= i < |ts| :: Contained(ts[i])
  {
    TokensInAnyChunking(ts, chunks);
    PayloadLength(ts);
  }
}
