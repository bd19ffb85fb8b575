/** Reading a suggestion out of a model's answer (suggestions/service.go). */
module SuggestionText {
  import opened Text
  import opened Wrappers

  // ---------------------------------------------------------------- three backquotes

  const FENCE: string := ['`', '`', '`']
  const NEWLINE: string := ['\n']

  /** A fence marker begins at i. */
  predicate Ticks(s: string, i: nat) { i + 3 <= |s| && s[i] == '`' && s[i + 1] == '`' && s[i + 2] == '`' }

  predicate FenceFree(s: string) { forall i: nat | i < |s| :: !Ticks(s, i) }

  /** The first fence marker begins at i. */
  predicate FirstTicks(s: string, i: nat) { Ticks(s, i) && forall j: nat | j < i :: !Ticks(s, j) }

  lemma TicksOccur(s: string, i: nat)
    ensures OccursAt(s, FENCE, i) <==> Ticks(s, i)
  {
    if i + 3 <= |s| {
      assert s[i..i + 3] == [s[i], s[i + 1], s[i + 2]];
    }
  }

  function IndexFence(s: string): (r: int)
    ensures r >= 0 ==> FirstTicks(s, r)
    ensures r < 0 ==> FenceFree(s)
  {
    var r := Index(s, FENCE);
    assert forall i: nat :: OccursAt(s, FENCE, i) <==> Ticks(s, i) by {
      forall i: nat
        ensures OccursAt(s, FENCE, i) <==> Ticks(s, i)
      {
        TicksOccur(s, i);
      }
    }
    r
  }

  function IndexNewline(s: string): (r: int)
    ensures r >= 0 ==> r < |s| && s[r] == '\n' && forall j | 0 <= j < r :: s[j] != '\n'
    ensures r < 0 ==> '\n' !in s
  {
    var r := Index(s, NEWLINE);
    assert forall i: nat | i < |s| :: OccursAt(s, NEWLINE, i) <==> s[i] == '\n' by {
      forall i: nat | i < |s|
        ensures OccursAt(s, NEWLINE, i) <==> s[i] == '\n'
      {
        assert s[i..i + 1] == [s[i]];
      }
    }
    r
  }

  // ---------------------------------------------------------------- normalizeSuggestionJSON

  /** The text up to the closing fence marker. */
  function UpToFence(inBody: string): Option<string> {
    var end := IndexFence(inBody);
    if end < 0 then None else Some(inBody[..end])
  }

  /** The text between the first line end and the closing fence marker. */
  function AfterLine(inFence: string): Option<string> {
    var newline := IndexNewline(inFence);
    if newline < 0 then None else UpToFence(inFence[newline + 1..])
  }

  function FencedBody(t: string): Option<string> {
    var start := IndexFence(t);
    if start < 0 then None else AfterLine(t[start + 3..])
  }

  function NormalizeTrimmed(t: string): string {
    var body := FencedBody(t);
    if body.None? || Trim(body.value) == "" then t else Trim(body.value)
  }

  function Normalize(raw: string): string { NormalizeTrimmed(Trim(raw)) }

  /** A text after which a fence marker is the first one: no marker inside, no backquote at the end. */
  predicate Clear(s: string) { FenceFree(s) && (s == "" || s[|s| - 1] != '`') }

  function AfterTag(body: string, post: string): string { body + FENCE + post }

  function AfterFence(tag: string, body: string, post: string): string { tag + NEWLINE + AfterTag(body, post) }

  /** A body in a fence with a language tag, between two pieces of prose. */
  function Wrap(pre: string, tag: string, body: string, post: string): string {
    pre + FENCE + AfterFence(tag, body, post)
  }

  /** The fence markers and the line end in Wrap(pre, tag, body, post) are the first ones there. */
  predicate Fences(pre: string, tag: string, body: string) { Clear(pre) && '\n' !in tag && Clear(body) }

  lemma FirstFence(pre: string, rest: string)
    ensures FirstTicks(pre + FENCE + rest, |pre|) <==> Clear(pre)
    ensures (pre + FENCE + rest)[|pre| + 3..] == rest && (pre + FENCE + rest)[..|pre|] == pre
  {
    var t := pre + FENCE + rest;
    assert Ticks(t, |pre|);
    if Clear(pre) {
      forall j: nat | j < |pre|
        ensures !Ticks(t, j)
      {
        if j + 3 <= |pre| {
          assert !Ticks(pre, j);
        } else {
          assert t[|pre| - 1] == pre[|pre| - 1];
        }
      }
    } else if pre != "" && pre[|pre| - 1] == '`' {
      assert Ticks(t, |pre| - 1);
    } else {
      var j: nat :| j < |pre| && Ticks(pre, j);
      assert Ticks(t, j);
    }
  }

  lemma IndexFenceIs(s: string, i: nat)
    requires FirstTicks(s, i)
    ensures IndexFence(s) == i
  {
  }

  lemma IndexNewlineIs(tag: string, rest: string)
    requires '\n' !in tag
    ensures IndexNewline(tag + NEWLINE + rest) == |tag|
    ensures (tag + NEWLINE + rest)[|tag| + 1..] == rest
  {
    var t := tag + NEWLINE + rest;
    assert t[|tag|] == '\n';
    assert forall j | 0 <= j < |tag| :: t[j] == tag[j] && t[j] != '\n';
  }

  lemma BodyIsFound(pre: string, tag: string, body: string, post: string)
    requires Fences(pre, tag, body)
    ensures FencedBody(Wrap(pre, tag, body, post)) == Some(body)
  {
    FirstFence(body, post);
    IndexFenceIs(AfterTag(body, post), |body|);
    IndexNewlineIs(tag, AfterTag(body, post));
    FirstFence(pre, AfterFence(tag, body, post));
    IndexFenceIs(Wrap(pre, tag, body, post), |pre|);
  }

  lemma NormalizeFencedText(pre: string, tag: string, body: string, post: string)
    requires Fences(pre, tag, body)
    ensures var t := Wrap(pre, tag, body, post); NormalizeTrimmed(t) == if Blank(body) then t else Trim(body)
  {
    BodyIsFound(pre, tag, body, post);
    BlankTrims(body);
  }

  lemma WrapEnds(pre: string, tag: string, body: string, post: string)
    ensures var t := Wrap(pre, tag, body, post);
            && |t| > 0
            && t[0] == (if pre == "" then '`' else pre[0])
            && t[|t| - 1] == (if post == "" then '`' else post[|post| - 1])
  {
    var a := AfterTag(body, post);
    assert a[|a| - 1] == if post == "" then '`' else post[|post| - 1];
    var b := AfterFence(tag, body, post);
    assert b[|b| - 1] == a[|a| - 1];
  }

  lemma WrapMore(pre: string, tag: string, body: string, post: string, left: string, right: string)
    ensures Wrap(left + pre, tag, body, post + right) == left + Wrap(pre, tag, body, post) + right
  {
    assert AfterTag(body, post + right) == AfterTag(body, post) + right;
    assert AfterFence(tag, body, post + right) == AfterFence(tag, body, post) + right;
  }

  /** Trimming stops at the fence markers. */
  lemma TrimFenced(pre: string, tag: string, body: string, post: string)
    ensures Trim(Wrap(pre, tag, body, post)) == Wrap(TrimLeft(pre), tag, body, TrimRight(post))
  {
    var left := TrimLeftParts(pre);
    var right := TrimRightParts(post);
    WrapMore(TrimLeft(pre), tag, body, TrimRight(post), left, right);
    WrapEnds(TrimLeft(pre), tag, body, TrimRight(post));
    TrimOfParts(left, Wrap(TrimLeft(pre), tag, body, TrimRight(post)), right);
  }

  lemma ClearSuffix(a: string, b: string)
    requires Clear(a + b)
    ensures Clear(b)
  {
    forall j: nat | j < |b|
      ensures !Ticks(b, j)
    {
      assert !Ticks(a + b, |a| + j);
    }
  }

  /** Whatever surrounds it, a fenced body that is not blank is what remains. */
  lemma FenceExtraction(pre: string, tag: string, body: string, post: string)
    requires Fences(pre, tag, body)
    ensures var raw := Wrap(pre, tag, body, post); Normalize(raw) == if Blank(body) then Trim(raw) else Trim(body)
  {
    TrimFenced(pre, tag, body, post);
    var left := TrimLeftParts(pre);
    ClearSuffix(left, TrimLeft(pre));
    NormalizeFencedText(TrimLeft(pre), tag, body, TrimRight(post));
  }

  lemma SplitAtFence(t: string, i: nat)
    requires FirstTicks(t, i)
    ensures t == t[..i] + FENCE + t[i + 3..] && Clear(t[..i])
  {
    assert t[i..i + 3] == FENCE;
    assert t == t[..i] + t[i..i + 3] + t[i + 3..];
    FirstFence(t[..i], t[i + 3..]);
  }

  lemma SplitAtNewline(t: string, i: nat)
    requires i < |t| && t[i] == '\n'
    ensures t == t[..i] + NEWLINE + t[i + 1..]
  {
    assert t[i..i + 1] == NEWLINE;
    assert t == t[..i] + t[i..i + 1] + t[i + 1..];
  }

  lemma UpToFenceParts(inBody: string) returns (post: string)
    ensures UpToFence(inBody).Some? ==>
              inBody == AfterTag(UpToFence(inBody).value, post) && Clear(UpToFence(inBody).value)
  {
    post := "";
    var end := IndexFence(inBody);
    if end >= 0 {
      post := inBody[end + 3..];
      SplitAtFence(inBody, end);
    }
  }

  lemma AfterLineParts(inFence: string) returns (tag: string, post: string)
    ensures AfterLine(inFence).Some? ==>
              && inFence == AfterFence(tag, AfterLine(inFence).value, post)
              && '\n' !in tag && Clear(AfterLine(inFence).value)
  {
    tag, post := "", "";
    var newline := IndexNewline(inFence);
    if newline >= 0 {
      tag := inFence[..newline];
      post := UpToFenceParts(inFence[newline + 1..]);
      SplitAtNewline(inFence, newline);
    }
  }

  /** And nothing else is ever cut out of an answer. */
  lemma OnlyFencesAreCut(raw: string)
    returns (pre: string, tag: string, body: string, post: string)
    ensures Normalize(raw) != Trim(raw) ==>
              && Trim(raw) == Wrap(pre, tag, body, post) && Fences(pre, tag, body)
              && !Blank(body) && Normalize(raw) == Trim(body)
  {
    var t := Trim(raw);
    pre, tag, body, post := "", "", "", "";
    if Normalize(raw) != t {
      body := FencedBody(t).value;
      var start := IndexFence(t);
      pre := t[..start];
      SplitAtFence(t, start);
      tag, post := AfterLineParts(t[start + 3..]);
      BlankTrims(body);
    }
  }

  lemma TrimIsFenceFree(body: string)
    requires FenceFree(body)
    ensures FenceFree(Trim(body))
  {
    var left, right := TrimParts(body);
    forall j: nat | j < |Trim(body)|
      ensures !Ticks(Trim(body), j)
    {
      assert !Ticks(body, |left| + j);
    }
  }

  /** Reading twice is reading once, on every string. */
  lemma NormalizeIsIdempotent(raw: string)
    ensures Normalize(Normalize(raw)) == Normalize(raw)
  {
    if Normalize(raw) == Trim(raw) {
      TrimIsIdempotent(raw);
    } else {
      var pre, tag, body, post := OnlyFencesAreCut(raw);
      TrimIsIdempotent(body);
      TrimIsFenceFree(body);
    }
  }

  /** An answer wrapped in a fence on lines of its own is read as the answer. */
  lemma FencedLines(tag: string, body: string)
    requires '\n' !in tag && FenceFree(body) && !Blank(body)
    ensures Normalize(Wrap("", tag, body + NEWLINE, "")) == Trim(body)
  {
    var lines := body + NEWLINE;
    forall j: nat | j < |lines|
      ensures !Ticks(lines, j)
    {
      assert j < |body| ==> !Ticks(body, j);
    }
    FenceExtraction("", tag, lines, "");
    var left, right := TrimParts(body);
    assert lines == left + Trim(body) + (right + NEWLINE);
    TrimOfParts(left, Trim(body), right + NEWLINE);
    BlankTrims(body);
    BlankTrims(lines);
  }

  // ---------------------------------------------------------------- parseSuggestionJSON

  datatype Suggestion =
    Suggestion(commands: seq<string>, reason: string, expectedOutcome: string, generatedAt: string)

  datatype ParseError = NotOneObject | NoCommands | NoReason | NoOutcome | EmptyCommand(index: nat)

  /** The strict JSON decoder: one object with known keys and nothing after it, or an error. */
  type Decoder = string -> Option<Suggestion>

  function TrimAll(commands: seq<string>): (r: seq<string>)
    ensures |r| == |commands| && forall i | 0 <= i < |r| :: r[i] == Trim(commands[i])
  {
    seq(|commands|, i requires 0 <= i < |commands| => Trim(commands[i]))
  }

  /** What Latest may hand out. */
  predicate ValidSuggestion(s: Suggestion) {
    && s.commands != []
    && (forall i | 0 <= i < |s.commands| :: s.commands[i] != "" && Tight(s.commands[i]))
    && !Blank(s.reason) && !Blank(s.expectedOutcome)
  }

  /** An answer that the service accepts. */
  predicate Acceptable(s: Suggestion) {
    && s.commands != [] && !Blank(s.reason) && !Blank(s.expectedOutcome)
    && forall i | 0 <= i < |s.commands| :: !Blank(s.commands[i])
  }

  function FirstBlank(commands: seq<string>): (r: Option<nat>)
    ensures r.Some? ==> r.value < |commands| && Blank(commands[r.value])
                        && forall j | 0 <= j < r.value :: !Blank(commands[j])
    ensures r.None? ==> forall j | 0 <= j < |commands| :: !Blank(commands[j])
  {
    if commands == [] then None
    else if Blank(commands[0]) then Some(0)
    else
      var rest := FirstBlank(commands[1..]);
      if rest.None? then None else Some(rest.value + 1)
  }

  /** The outcome of the checks: the first complaint in the source's order, or the trimmed suggestion. */
  function Checked(parsed: Suggestion): Result<Suggestion, ParseError> {
    if parsed.commands == [] then Failure(NoCommands)
    else if Blank(parsed.reason) then Failure(NoReason)
    else if Blank(parsed.expectedOutcome) then Failure(NoOutcome)
    else
      var blank := FirstBlank(parsed.commands);
      if blank.Some? then Failure(EmptyCommand(blank.value))
      else Success(parsed.(commands := TrimAll(parsed.commands)))
  }

  function Parsed(raw: string, decode: Decoder): Result<Suggestion, ParseError> {
    var parsed := decode(Normalize(raw));
    if parsed.None? then Failure(NotOneObject) else Checked(parsed.value)
  }

  /** What passes is valid, is what was decoded up to the trimming of commands, and nothing acceptable is refused. */
  lemma CheckedIsValid(parsed: Suggestion)
    ensures Checked(parsed).Success? <==> Acceptable(parsed)
    ensures Checked(parsed).Success? ==>
              var s := Checked(parsed).value;
              && ValidSuggestion(s)
              && s.reason == parsed.reason && s.expectedOutcome == parsed.expectedOutcome
              && s.generatedAt == parsed.generatedAt
              && |s.commands| == |parsed.commands|
              && forall i | 0 <= i < |s.commands| :: s.commands[i] == Trim(parsed.commands[i])
  {
    if Checked(parsed).Success? {
      var s := Checked(parsed).value;
      forall i | 0 <= i < |s.commands|
        ensures s.commands[i] != "" && Tight(s.commands[i])
      {
        BlankTrims(parsed.commands[i]);
        var left, right := TrimParts(parsed.commands[i]);
      }
    }
  }

  /** Which complaint comes out: the first one in this order, and of the blank commands the first. */
  lemma ComplaintsInOrder(parsed: Suggestion)
    ensures Checked(parsed) == Failure(NoCommands) <==> parsed.commands == []
    ensures Checked(parsed) == Failure(NoReason) <==> parsed.commands != [] && Blank(parsed.reason)
    ensures Checked(parsed) == Failure(NoOutcome) <==>
            parsed.commands != [] && !Blank(parsed.reason) && Blank(parsed.expectedOutcome)
    ensures forall i: nat :: Checked(parsed) == Failure(EmptyCommand(i)) <==>
              && !Blank(parsed.reason) && !Blank(parsed.expectedOutcome)
              && i < |parsed.commands| && Blank(parsed.commands[i])
              && forall j | 0 <= j < i :: !Blank(parsed.commands[j])
    ensures Checked(parsed) != Failure(NotOneObject)
  {
  }

  lemma ParsedIsValid(raw: string, decode: Decoder)
    ensures Parsed(raw, decode).Success? ==> ValidSuggestion(Parsed(raw, decode).value)
  {
    var parsed := decode(Normalize(raw));
    if parsed.Some? {
      CheckedIsValid(parsed.value);
    }
  }

  /** Checking again what passed changes nothing. */
  lemma CheckedIsStable(s: Suggestion)
    requires ValidSuggestion(s)
    ensures Checked(s) == Success(s)
  {
    forall i | 0 <= i < |s.commands|
      ensures Trim(s.commands[i]) == s.commands[i] && !Blank(s.commands[i])
    {
      TightTrims(s.commands[i]);
      BlankTrims(s.commands[i]);
    }
    assert TrimAll(s.commands) == s.commands;
  }

  lemma TightTrims(s: string)
    requires Tight(s)
    ensures Trim(s) == s
  {
    assert "" + s + "" == s;
    TrimOfParts("", s, "");
  }

  /** The loop over the commands: trims them in place and stops at the first one that is blank. */
  method TrimInPlace(commands: array<string>) returns (blank: Option<nat>)
    modifies commands
    ensures blank == FirstBlank(old(commands[..]))
    ensures blank.None? ==> commands[..] == TrimAll(old(commands[..]))
  {
    ghost var given := commands[..];
    for i := 0 to commands.Length
      invariant forall j | 0 <= j < i :: commands[j] == Trim(given[j]) && !Blank(given[j])
      invariant forall j | i <= j < commands.Length :: commands[j] == given[j]
    {
      BlankTrims(given[i]);
      commands[i] := Trim(commands[i]);
      if commands[i] == "" {
        return Some(i);
      }
    }
    return None;
  }

  method ParseSuggestionJson(raw: string, decode: Decoder) returns (r: Result<Suggestion, ParseError>)
    ensures r == Parsed(raw, decode)
  {
    var decoded := decode(Normalize(raw));
    if decoded.None? {
      return Failure(NotOneObject);
    }
    var parsed := decoded.value;
    BlankTrims(parsed.reason);
    BlankTrims(parsed.expectedOutcome);
    if |parsed.commands| == 0 {
      return Failure(NoCommands);
    }
    if Trim(parsed.reason) == "" {
      return Failure(NoReason);
    }
    if Trim(parsed.expectedOutcome) == "" {
      return Failure(NoOutcome);
    }
    var commands := new string[|parsed.commands|](i requires 0 <= i < |parsed.commands| => parsed.commands[i]);
    assert commands[..] == parsed.commands;
    var blank := TrimInPlace(commands);
    if blank.Some? {
      return Failure(EmptyCommand(blank.value));
    }
    return Success(parsed.(commands := commands[..]));
  }
}
