/** CP1251 text and the repair of the letter Ya (backend/internal/gateway/decoder.go). */
module Decoder {
  import opened Text
  import opened Telnet
  import opened Wrappers

  /** A single-byte code page: each byte stands for one rune. */
  type CodePage = byte -> char

  /** The small letters of the Russian alphabet. */
  const ALPHABET: string := "абвгдеёжзийклмнопрстуфхцчшщъыьэюя"

  /** What is used of Windows-1251: ASCII bytes are themselves and others are not ASCII; the bytes from 0xC0 on are
      the letters from А to я, 0xB8 is ё, and no other byte is Я or a small letter. */
  ghost predicate IsWindows1251(cp: CodePage) {
    && (forall b: byte :: b < 128 ==> cp(b) == b as int as char)
    && (forall b: byte :: b >= 128 ==> cp(b) as int >= 128)
    && (forall b: byte :: b >= 0xC0 ==> cp(b) == (b as int - 0xC0 + 0x410) as char)
    && cp(0xB8) == 'ё'
    && (forall b: byte :: 128 <= b < 0xC0 && b != 0xB8 ==> cp(b) != 'Я' && cp(b) !in ALPHABET)
  }

  function Runes(cp: CodePage, input: seq<byte>): (text: string)
    ensures |text| == |input| && forall i | 0 <= i < |input| :: text[i] == cp(input[i])
  {
    seq(|input|, i requires 0 <= i < |input| => cp(input[i]))
  }

  predicate IsLowerCyrillic(r: char) {
    if r == '\0' || r == '\U{FFFD}' then false
    else if r == 'ё' then true
    else 'а' <= r <= 'я'
  }

  lemma LowerIsInAlphabet(r: char)
    ensures IsLowerCyrillic(r) <==> r in ALPHABET
  {
  }

  /** A small letter at k, and nothing but Я behind it. */
  predicate SmallAt(before: string, k: nat) {
    k < |before| && before[k] in ALPHABET && forall j | k < j < |before| :: before[j] == 'Я'
  }

  /** Seen from the end, the nearest rune that is not Я is a small letter. */
  predicate AfterSmall(before: string) { exists k | 0 <= k < |before| :: SmallAt(before, k) }

  /** Every Я that follows a small letter is turned into its small form, and nothing else changes. */
  predicate RepairsTo(text: string, r: string) {
    |r| == |text| && forall i | 0 <= i < |text| ::
      r[i] == if text[i] == 'Я' && AfterSmall(text[..i]) then 'я' else text[i]
  }

  predicate EndsLower(s: string) {
    s != "" && IsLowerCyrillic(s[|s| - 1])
  }

  /** The repaired text; the letter before is looked up in its repaired form. */
  function Repaired(text: string): (r: string)
    ensures |r| == |text|
  {
    if text == "" then ""
    else
      var before := Repaired(text[..|text| - 1]);
      var last := text[|text| - 1];
      before + [if last == 'Я' && EndsLower(before) then 'я' else last]
  }

  lemma {:induction false} RepairedPrefix(text: string, n: nat)
    requires n <= |text|
    ensures Repaired(text[..n]) == Repaired(text)[..n]
  {
    if n < |text| {
      RepairedPrefix(text[..|text| - 1], n);
      assert text[..|text| - 1][..n] == text[..n];
    } else {
      assert text[..n] == text;
    }
  }

  lemma {:induction false} NothingToRepair(text: string)
    requires 'Я' !in text
    ensures Repaired(text) == text
  {
    if text != "" {
      NothingToRepair(text[..|text| - 1]);
    }
  }

  lemma RepairedNext(text: string, i: nat)
    requires i < |text|
    ensures Repaired(text[..i + 1]) ==
            Repaired(text[..i]) + [if text[i] == 'Я' && EndsLower(Repaired(text[..i])) then 'я' else text[i]]
  {
    assert text[..i + 1][..i] == text[..i];
  }

  method FixSmaugYaArtifact(text: string) returns (r: string)
    ensures r == Repaired(text)
    ensures RepairsTo(text, r)
  {
    if text == "" || 'Я' !in text {
      NothingToRepair(text);
      RepairedEverywhere(text);
      return text;
    }
    var runes := new char[|text|](i requires 0 <= i < |text| => text[i]);
    var changed := false;
    for i := 0 to runes.Length
      invariant runes[..i] == Repaired(text[..i])
      invariant forall k | i <= k < |text| :: runes[k] == text[k]
      invariant !changed ==> runes[..i] == text[..i]
    {
      RepairedNext(text, i);
      if runes[i] == 'Я' {
        var prev := '\0';
        if i > 0 {
          prev := runes[i - 1];
        }
        assert EndsLower(runes[..i]) <==> IsLowerCyrillic(prev);
        if IsLowerCyrillic(prev) {
          runes[i] := 'я';
          changed := true;
        }
      }
      assert runes[..i + 1] == runes[..i] + [runes[i]];
    }
    assert text[..|text|] == text && runes[..runes.Length] == runes[..];
    RepairedEverywhere(text);
    if !changed {
      return text;
    }
    return runes[..];
  }

  function Decode(cp: CodePage, input: seq<byte>): string {
    Repaired(ReplaceAll(Runes(cp, input), "\r\n", "\n"))
  }

  method DecodeText(cp: CodePage, input: seq<byte>) returns (text: string)
    ensures text == Decode(cp, input)
    ensures RepairsTo(ReplaceAll(Runes(cp, input), "\r\n", "\n"), text)
  {
    if |input| == 0 {
      return "";
    }
    text := FixSmaugYaArtifact(ReplaceAll(Runes(cp, input), "\r\n", "\n"));
  }

  // ---------------------------------------------------------------- the repair

  lemma SmallAtStep(text: string, last: char, k: nat)
    ensures k < |text| ==> (SmallAt(text + [last], k) <==> SmallAt(text, k) && last == 'Я')
    ensures SmallAt(text + [last], |text|) <==> last in ALPHABET
  {
    var more := text + [last];
    if k < |text| && SmallAt(text, k) && last == 'Я' {
      assert forall j | k < j < |more| :: more[j] == if j < |text| then text[j] else last;
    }
    if k < |text| && SmallAt(more, k) {
      assert more[|text|] == last;
      assert forall j | k < j < |text| :: more[j] == text[j];
    }
  }

  lemma AfterSmallStep(text: string)
    requires text != ""
    ensures var n := |text| - 1;
            AfterSmall(text) <==> if text[n] == 'Я' then AfterSmall(text[..n]) else text[n] in ALPHABET
  {
    var n := |text| - 1;
    assert text == text[..n] + [text[n]];
    LowerIsInAlphabet('Я');
    SmallAtStep(text[..n], text[n], n);
    if AfterSmall(text) {
      var k :| 0 <= k < |text| && SmallAt(text, k);
      SmallAtStep(text[..n], text[n], k);
    } else if text[n] == 'Я' && AfterSmall(text[..n]) {
      var k :| 0 <= k < n && SmallAt(text[..n], k);
      SmallAtStep(text[..n], text[n], k);
    }
  }

  lemma {:induction false} RepairedEnd(text: string)
    ensures EndsLower(Repaired(text)) <==> AfterSmall(text)
  {
    if text != "" {
      var n := |text| - 1;
      RepairedEnd(text[..n]);
      AfterSmallStep(text);
      LowerIsInAlphabet(text[n]);
      LowerIsInAlphabet('я');
      LowerIsInAlphabet('Я');
    }
  }

  /** The repair cascades: a Ya is turned into its small form exactly if the nearest rune to its left
      that is not Ya is one of the thirty-three small letters, and nothing else changes. */
  lemma RepairedAt(text: string, i: nat)
    requires i < |text|
    ensures Repaired(text)[i] == (if text[i] == 'Я' && AfterSmall(text[..i]) then 'я' else text[i])
  {
    RepairedPrefix(text, i + 1);
    assert Repaired(text)[i] == Repaired(text)[..i + 1][i];
    RepairedNext(text, i);
    RepairedEnd(text[..i]);
  }

  lemma RepairedEverywhere(text: string)
    ensures RepairsTo(text, Repaired(text))
  {
    forall i | 0 <= i < |text|
      ensures Repaired(text)[i] == if text[i] == 'Я' && AfterSmall(text[..i]) then 'я' else text[i]
    {
      RepairedAt(text, i);
    }
  }

  lemma {:induction false} RepairIsIdempotent(text: string)
    ensures Repaired(Repaired(text)) == Repaired(text)
  {
    if text != "" {
      var n := |text| - 1;
      RepairIsIdempotent(text[..n]);
      assert Repaired(text)[..n] == Repaired(text[..n]);
    }
  }

  // ---------------------------------------------------------------- where a stream may be cut

  predicate StartsCRLF(s: string) { |s| >= 2 && s[0] == '\r' && s[1] == '\n' }

  /** Every carriage return that a line feed follows, dropped. */
  function WithoutCR(s: string): string {
    if s == "" then ""
    else (if StartsCRLF(s) then "" else [s[0]]) + WithoutCR(s[1..])
  }

  lemma PrefixIsCRLF(s: string)
    ensures HasPrefix(s, "\r\n") <==> StartsCRLF(s)
  {
    if |s| >= 2 {
      assert s[..2] == [s[0], s[1]];
    }
  }

  lemma {:induction false} FoldDropsCR(s: string)
    ensures ReplaceAll(s, "\r\n", "\n") == WithoutCR(s)
    decreases |s|
  {
    PrefixIsCRLF(s);
    if StartsCRLF(s) {
      assert s[1..][1..] == s[2..];
      FoldDropsCR(s[2..]);
    } else if s != "" {
      FoldDropsCR(s[1..]);
    }
  }

  predicate CutsCRLF(x: string, y: string) {
    x != "" && y != "" && x[|x| - 1] == '\r' && y[0] == '\n'
  }

  lemma {:induction false} WithoutCRConcat(x: string, y: string)
    ensures |WithoutCR(x + y)| == |WithoutCR(x)| + |WithoutCR(y)| - (if CutsCRLF(x, y) then 1 else 0)
    ensures !CutsCRLF(x, y) ==> WithoutCR(x + y) == WithoutCR(x) + WithoutCR(y)
    decreases |x|
  {
    if x == "" {
      assert x + y == y;
    } else if |x| == 1 {
      assert (x + y)[1..] == y && x[1..] == "";
      assert StartsCRLF(x + y) <==> CutsCRLF(x, y);
    } else {
      assert (x + y)[1..] == x[1..] + y;
      WithoutCRConcat(x[1..], y);
      assert StartsCRLF(x + y) <==> StartsCRLF(x);
      assert CutsCRLF(x[1..], y) <==> CutsCRLF(x, y);
      Associates(if StartsCRLF(x) then "" else [x[0]], WithoutCR(x[1..]), WithoutCR(y));
    }
  }

  predicate CutsRepair(u: string, v: string) {
    v != "" && v[0] == 'Я' && EndsLower(Repaired(u))
  }

  lemma {:induction false} RepairedApart(u: string, v: string)
    requires !CutsRepair(u, v)
    ensures Repaired(u + v) == Repaired(u) + Repaired(v)
    decreases |v|
  {
    if v == "" {
      assert u + v == u;
    } else {
      var n := |v| - 1;
      var w := v[..n];
      RepairedApart(u, w);
      assert (u + v)[..|u + v| - 1] == u + w;
      assert EndsLower(Repaired(u) + Repaired(w)) <==> EndsLower(if n == 0 then Repaired(u) else Repaired(w));
    }
  }

  lemma RepairedTogether(u: string, v: string)
    requires CutsRepair(u, v)
    ensures Repaired(u + v)[|u|] == 'я' && (Repaired(u) + Repaired(v))[|u|] == 'Я'
  {
    RepairedAt(u + v, |u|);
    RepairedAt(v, 0);
    assert (u + v)[..|u|] == u;
    RepairedEnd(u);
  }

  // ---------------------------------------------------------------- the split law

  /** A byte for a small letter at k, and nothing but Я behind it. */
  predicate SmallByteAt(x: seq<byte>, k: nat) {
    k < |x| && (x[k] >= 0xE0 || x[k] == 0xB8) && forall j | k < j < |x| :: x[j] == 0xDF
  }

  /** Seen from the end, the nearest byte that is not Я is a small letter. */
  predicate AfterSmallByte(x: seq<byte>) { exists k | 0 <= k < |x| :: SmallByteAt(x, k) }

  /** The two places at which cutting the stream changes the text: inside CR LF, and before a letter Ya that
      follows a small letter, with any number of other Ya between them. */
  predicate BadCut(x: seq<byte>, y: seq<byte>) {
    && x != [] && y != []
    && ((x[|x| - 1] == 13 && y[0] == 10) || (y[0] == 0xDF && AfterSmallByte(x)))
  }

  lemma AfterSmallByteIsRune(cp: CodePage, x: seq<byte>)
    requires IsWindows1251(cp)
    ensures AfterSmallByte(x) <==> AfterSmall(Runes(cp, x))
  {
    var u := Runes(cp, x);
    forall i | 0 <= i < |x|
      ensures u[i] in ALPHABET <==> x[i] >= 0xE0 || x[i] == 0xB8
      ensures u[i] == 'Я' <==> x[i] == 0xDF
    {
      LowerIsInAlphabet(u[i]);
    }
    assert forall k: nat | k < |x| :: SmallByteAt(x, k) <==> SmallAt(u, k);
  }

  lemma {:induction false} WithoutCREnd(s: string)
    requires s != ""
    ensures WithoutCR(s) != "" && WithoutCR(s)[|WithoutCR(s)| - 1] == s[|s| - 1]
  {
    if |s| > 1 {
      WithoutCREnd(s[1..]);
      var rest := WithoutCR(s[1..]);
      assert WithoutCR(s) == rest || WithoutCR(s) == [s[0]] + rest;
    } else {
      assert s == [s[0]];
    }
  }

  /** Dropping carriage returns does not change which letter decides. */
  lemma {:induction false} AfterSmallWithoutCR(u: string)
    ensures AfterSmall(WithoutCR(u)) <==> AfterSmall(u)
  {
    if u != "" {
      var n := |u| - 1;
      WithoutCREnd(u);
      AfterSmallStep(u);
      AfterSmallStep(WithoutCR(u));
      if u[n] == 'Я' {
        WithoutCRConcat(u[..n], [u[n]]);
        assert u[..n] + [u[n]] == u && WithoutCR([u[n]]) == [u[n]];
        AfterSmallWithoutCR(u[..n]);
        assert WithoutCR(u)[..|WithoutCR(u)| - 1] == WithoutCR(u[..n]);
      }
    }
  }

  lemma WithoutCRStart(s: string)
    requires s != "" && s[0] != '\r'
    ensures WithoutCR(s) != "" && WithoutCR(s)[0] == s[0]
  {
  }

  lemma WithoutCRStartYa(s: string)
    ensures WithoutCR(s) != "" && WithoutCR(s)[0] == 'Я' ==> s[0] == 'Я'
  {
    if StartsCRLF(s) {
      WithoutCRStart(s[1..]);
    }
  }

  lemma BadCutIsTextual(cp: CodePage, x: seq<byte>, y: seq<byte>)
    requires IsWindows1251(cp)
    ensures var u, v := Runes(cp, x), Runes(cp, y);
            BadCut(x, y) <==> CutsCRLF(u, v) || CutsRepair(WithoutCR(u), WithoutCR(v))
  {
    var u, v := Runes(cp, x), Runes(cp, y);
    RepairedEnd(WithoutCR(u));
    AfterSmallWithoutCR(u);
    AfterSmallByteIsRune(cp, x);
    WithoutCRStartYa(v);
    if v != "" && v[0] == 'Я' {
      WithoutCRStart(v);
    }
  }

  /** The exact split law: decoding two pieces apart gives the text of the whole if and only if the cut
      between them is not one of the two bad ones. */
  lemma SplitLaw(cp: CodePage, x: seq<byte>, y: seq<byte>)
    requires IsWindows1251(cp)
    ensures Decode(cp, x + y) == Decode(cp, x) + Decode(cp, y) <==> !BadCut(x, y)
    ensures |Decode(cp, x + y)| <= |Decode(cp, x)| + |Decode(cp, y)|
    ensures |Decode(cp, x + y)| == |Decode(cp, x)| + |Decode(cp, y)| ==> Decode(cp, x) <= Decode(cp, x + y)
  {
    var u, v := Runes(cp, x), Runes(cp, y);
    BadCutIsTextual(cp, x, y);
    assert Runes(cp, x + y) == u + v;
    FoldDropsCR(u);
    FoldDropsCR(v);
    FoldDropsCR(u + v);
    WithoutCRConcat(u, v);
    if !CutsCRLF(u, v) {
      var a, b := WithoutCR(u), WithoutCR(v);
      RepairedPrefix(a + b, |a|);
      assert (a + b)[..|a|] == a;
      if CutsRepair(a, b) {
        RepairedTogether(a, b);
      } else {
        RepairedApart(a, b);
      }
    }
  }

  /** The text that the pieces of a stream decode to one by one. */
  function Segmented(cp: CodePage, pieces: seq<seq<byte>>): string {
    if pieces == [] then ""
    else Segmented(cp, pieces[..|pieces| - 1]) + Decode(cp, pieces[|pieces| - 1])
  }

  /** No piece starts at a bad cut of the stream. */
  predicate CutsAreGood(pieces: seq<seq<byte>>) {
    forall i | 0 <= i < |pieces| :: !BadCut(Flatten(pieces[..i]), pieces[i])
  }

  lemma CutsAreGoodSnoc(pieces: seq<seq<byte>>)
    requires pieces != []
    ensures var n := |pieces| - 1;
            CutsAreGood(pieces) <==> CutsAreGood(pieces[..n]) && !BadCut(Flatten(pieces[..n]), pieces[n])
  {
    var n := |pieces| - 1;
    assert forall i | 0 <= i < n :: pieces[..n][..i] == pieces[..i];
  }

  /** a is what came of the stream so far, b what should have; d is the next piece, w the whole. */
  lemma JoinLaw(a: string, b: string, d: string, w: string, good: bool)
    requires |a| >= |b| && |w| <= |b| + |d| && (|w| == |b| + |d| ==> b <= w) && (w == b + d <==> good)
    ensures a + d == w <==> a == b && good
  {
    if a + d == w {
      assert b == w[..|b|] && a == (a + d)[..|a|];
    }
  }

  lemma {:induction false} SegmentationLaw(cp: CodePage, pieces: seq<seq<byte>>)
    requires IsWindows1251(cp)
    ensures Segmented(cp, pieces) == Decode(cp, Flatten(pieces)) <==> CutsAreGood(pieces)
    ensures |Segmented(cp, pieces)| >= |Decode(cp, Flatten(pieces))|
  {
    if pieces != [] {
      var n := |pieces| - 1;
      var init, last := pieces[..n], pieces[n];
      SegmentationLaw(cp, init);
      SplitLaw(cp, Flatten(init), last);
      CutsAreGoodSnoc(pieces);
      JoinLaw(Segmented(cp, init), Decode(cp, Flatten(init)), Decode(cp, last), Decode(cp, Flatten(pieces)),
              !BadCut(Flatten(init), last));
    }
  }

  // ---------------------------------------------------------------- readUpstream

  datatype ReadError = Closed | TimedOut | Broken

  /** One round of the read loop: the deadline cannot be set, or conn.Read gives bytes and an error, or both. */
  datatype Round = NoDeadline | Read(data: seq<byte>, error: Option<ReadError>)

  /** What follows the last round: the loop goes on, ends quietly, or disconnects the session. */
  datatype Ending = GoesOn | Quiet | Disconnects

  function EndingOf(r: Round): Ending {
    if r.NoDeadline? || r.error == Some(Broken) then Disconnects
    else if r.error == Some(Closed) then Quiet
    else GoesOn
  }

  /** The bytes that arrive until a round ends the loop, that round's included. */
  function Received(rounds: seq<Round>): seq<seq<byte>> {
    if rounds == [] || rounds[0].NoDeadline? then []
    else [rounds[0].data] + if EndingOf(rounds[0]).GoesOn? then Received(rounds[1..]) else []
  }

  function LoopEnding(rounds: seq<Round>): Ending {
    if rounds == [] then GoesOn
    else if EndingOf(rounds[0]).GoesOn? then LoopEnding(rounds[1..])
    else EndingOf(rounds[0])
  }

  /** The text of one filtered chunk; an empty one is not passed on. */
  function TextOf(cp: CodePage): seq<byte> -> seq<string> {
    (piece: seq<byte>) => if piece == [] then [] else [Decode(cp, piece)]
  }

  /** The texts passed on for the chunks of a stream. */
  function Texts(cp: CodePage, chunks: seq<seq<byte>>): seq<string> {
    FlatMap(TextOf(cp), FilteredChunks(Data, chunks).1)
  }

  lemma TextsSnoc(cp: CodePage, chunks: seq<seq<byte>>, chunk: seq<byte>)
    ensures var (state, outs) := FilteredChunks(Data, chunks);
            && FilteredChunks(Data, chunks + [chunk]).0 == Filtered(state, chunk).0
            && Texts(cp, chunks + [chunk]) == Texts(cp, chunks) + TextOf(cp)(Filtered(state, chunk).1)
  {
    var (state, outs) := FilteredChunks(Data, chunks);
    var out := Filtered(state, chunk).1;
    assert (chunks + [chunk])[..|chunks|] == chunks;
    assert (outs + [out])[..|outs|] == outs;
  }

  /** After i rounds that did not end the loop, these chunks have been read. */
  predicate ReadSoFar(rounds: seq<Round>, i: nat, read: seq<seq<byte>>)
    requires i <= |rounds|
  {
    Received(rounds) == read + Received(rounds[i..]) && LoopEnding(rounds) == LoopEnding(rounds[i..])
  }

  lemma ReadOn(rounds: seq<Round>, i: nat, read: seq<seq<byte>>)
    requires i < |rounds| && ReadSoFar(rounds, i, read)
    ensures var r := rounds[i];
            && (r.NoDeadline? ==> Received(rounds) == read)
            && (EndingOf(r).GoesOn? ==> ReadSoFar(rounds, i + 1, read + [r.data]))
            && (!EndingOf(r).GoesOn? ==> LoopEnding(rounds) == EndingOf(r))
            && (!EndingOf(r).GoesOn? && r.Read? ==> Received(rounds) == read + [r.data])
  {
    var r := rounds[i];
    assert rounds[i..][0] == r && rounds[i..][1..] == rounds[i + 1..];
    assert read + [] == read;
    if EndingOf(r).GoesOn? {
      Associates(read, [r.data], Received(rounds[i + 1..]));
    }
  }

  /** The loop of readUpstream (backend/internal/gateway/manager.go): the texts that it passes on, and how it ends. */
  method ReadUpstream(cp: CodePage, rounds: seq<Round>) returns (texts: seq<string>, ending: Ending)
    ensures texts == Texts(cp, Received(rounds)) && ending == LoopEnding(rounds)
  {
    var filter := new TelnetFilter();
    texts := [];
    ghost var read: seq<seq<byte>> := [];
    for i := 0 to |rounds|
      invariant filter.state == FilteredChunks(Data, read).0 && texts == Texts(cp, read)
      invariant ReadSoFar(rounds, i, read)
    {
      var round := rounds[i];
      ReadOn(rounds, i, read);
      if round.NoDeadline? {
        return texts, Disconnects;
      }
      TextsSnoc(cp, read, round.data);
      if |round.data| > 0 {
        var payload := filter.Filter(round.data);
        if |payload| > 0 {
          var text := DecodeText(cp, payload);
          texts := texts + [text];
        }
      }
      read := read + [round.data];
      if round.error == Some(Closed) {
        return texts, Quiet;
      }
      if round.error == Some(Broken) {
        return texts, Disconnects;
      }
    }
    assert rounds[|rounds|..] == [] && read + [] == read;
    return texts, GoesOn;
  }

  /** A round after which the loop reads again: the deadline was set, and the read succeeded or timed out. */
  predicate ReadsAgain(r: Round) { r.Read? && (r.error == None || r.error == Some(TimedOut)) }

  /** While rounds succeed or time out, all their bytes are received and the loop goes on. */
  lemma {:induction false} LoopGoesOn(rounds: seq<Round>)
    requires forall k | 0 <= k < |rounds| :: ReadsAgain(rounds[k])
    ensures LoopEnding(rounds) == GoesOn
    ensures |Received(rounds)| == |rounds|
    ensures forall k | 0 <= k < |rounds| :: rounds[k].Read? && Received(rounds)[k] == rounds[k].data
  {
    if rounds != [] {
      LoopGoesOn(rounds[1..]);
    }
  }

  /** The first other round ends the loop, quietly if the connection was closed here, and its bytes are the last. */
  lemma {:induction false} LoopEndsAt(rounds: seq<Round>, i: nat)
    requires i < |rounds| && !ReadsAgain(rounds[i]) && forall k | 0 <= k < i :: ReadsAgain(rounds[k])
    ensures LoopEnding(rounds) == if rounds[i].Read? && rounds[i].error == Some(Closed) then Quiet else Disconnects
    ensures |Received(rounds)| == if rounds[i].Read? then i + 1 else i
    ensures forall k | 0 <= k < |Received(rounds)| :: rounds[k].Read? && Received(rounds)[k] == rounds[k].data
  {
    if i > 0 {
      assert ReadsAgain(rounds[0]) && rounds[1..][i - 1] == rounds[i];
      LoopEndsAt(rounds[1..], i - 1);
    } else {
      assert rounds[0].NoDeadline? || rounds[0].error.value.Closed? || rounds[0].error.value.Broken?;
    }
  }

  /** The texts of the pieces of a stream, put together. */
  lemma {:induction false} TextsAreSegmented(cp: CodePage, pieces: seq<seq<byte>>)
    ensures Flatten(FlatMap(TextOf(cp), pieces)) == Segmented(cp, pieces)
  {
    if pieces != [] {
      var n := |pieces| - 1;
      TextsAreSegmented(cp, pieces[..n]);
      if pieces[n] != [] {
        FlattenSnoc(FlatMap(TextOf(cp), pieces[..n]), Decode(cp, pieces[n]));
      } else {
        var before := FlatMap(TextOf(cp), pieces[..n]);
        assert before + [] == before;
        assert Runes(cp, []) == "" && Decode(cp, pieces[n]) == "";
      }
    }
  }

  /** The terminal text does not depend on how TCP cut the stream, if and only if no cut, seen in the
      filtered stream, is one of the two bad ones. */
  lemma TerminalTextLaw(cp: CodePage, chunks: seq<seq<byte>>)
    requires IsWindows1251(cp)
    ensures Flatten(Texts(cp, chunks)) == Decode(cp, Filtered(Data, Flatten(chunks)).1) <==>
            CutsAreGood(FilteredChunks(Data, chunks).1)
  {
    ChunkingIsInvisible(Data, chunks);
    SegmentationLaw(cp, FilteredChunks(Data, chunks).1);
    TextsAreSegmented(cp, FilteredChunks(Data, chunks).1);
  }
}
