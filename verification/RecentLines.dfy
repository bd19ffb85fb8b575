/** The recent terminal lines that a suggestion prompt quotes (suggestions/service.go). */
module RecentLines {
  import opened Text

  // ---------------------------------------------------------------- appendLogLines

  const LF: string := ['\n']
  const CR: string := ['\r']
  const CRLF: string := ['\r', '\n']

  predicate IsTerminator(c: char) { c == '\n' || c == '\r' }

  /** The line terminators brought to one form. */
  function Folded(text: string): string { ReplaceAll(ReplaceAll(text, CRLF, LF), CR, LF) }

  /** strings.Split at newlines, for a part that already began with cur. */
  function SplitFrom(cur: string, text: string): seq<string>
    decreases |text|
  {
    if text == "" then [cur]
    else if text[0] == '\n' then [cur] + SplitFrom("", text[1..])
    else SplitFrom(cur + [text[0]], text[1..])
  }

  function Split(text: string): seq<string> { SplitFrom("", text) }

  /** What one part adds to the log: its trimmed text, unless that is empty. */
  function Flush(part: string): seq<string> {
    if Trim(part) == "" then [] else [Trim(part)]
  }

  /** The lines of one text. */
  function Lines(text: string): seq<string> { FlatMap(Flush, Split(Folded(text))) }

  /** A part gives no line exactly if it is blank; otherwise one, which is the part without the blanks at its ends. */
  lemma FlushLaw(part: string) returns (left: string, right: string)
    ensures Blank(left) && Blank(right)
    ensures if Blank(part) then Flush(part) == []
            else |Flush(part)| == 1 && Flush(part)[0] != "" && Tight(Flush(part)[0])
                 && part == left + Flush(part)[0] + right
  {
    left, right := TrimParts(part);
    BlankTrims(part);
    BlankTrims("");
  }

  method AppendLogLines(existing: seq<string>, text: string) returns (lines: seq<string>)
    ensures lines == existing + Lines(text)
  {
    var folded := ReplaceAll(text, CRLF, LF);
    folded := ReplaceAll(folded, CR, LF);
    var parts := Split(folded);
    lines := existing;
    for i := 0 to |parts|
      invariant lines == existing + FlatMap(Flush, parts[..i])
    {
      assert parts[..i + 1][..i] == parts[..i];
      var line := Trim(parts[i]);
      if line == "" {
        continue;
      }
      lines := lines + [line];
    }
    assert parts[..|parts|] == parts;
  }

  // ---------------------------------------------------------------- one pass over the runes

  /**
    * The lines of a text whose first line already began with cur, in one pass in which every
    * terminator ends a line: the empty line between CR and LF is dropped like any blank line.
    */
  function LinesFrom(cur: string, text: string): seq<string>
    decreases |text|
  {
    if text == "" then Flush(cur)
    else if IsTerminator(text[0]) then Flush(cur) + LinesFrom("", text[1..])
    else LinesFrom(cur + [text[0]], text[1..])
  }

  lemma FlushFirst(part: string, parts: seq<string>)
    ensures FlatMap(Flush, [part] + parts) == Flush(part) + FlatMap(Flush, parts)
  {
    FlatMapOne(Flush, part);
    FlatMapConcat(Flush, [part], parts);
  }

  lemma FlushEmpty()
    ensures Flush("") == []
  {
    BlankTrims("");
  }

  /** Folding, one terminator at a time. */
  lemma {:induction false} FoldedStep(text: string)
    requires text != ""
    ensures HasPrefix(text, CRLF) ==> Folded(text) == ['\n'] + Folded(text[2..])
    ensures !HasPrefix(text, CRLF) && IsTerminator(text[0]) ==> Folded(text) == ['\n'] + Folded(text[1..])
    ensures !IsTerminator(text[0]) ==> Folded(text) == [text[0]] + Folded(text[1..])
  {
    if HasPrefix(text, CRLF) {
      FoldedHead('\n', ReplaceAll(text[2..], CRLF, LF));
    } else {
      FoldedHead(text[0], ReplaceAll(text[1..], CRLF, LF));
    }
  }

  lemma FoldedHead(c: char, rest: string)
    ensures ReplaceAll([c] + rest, CR, LF) == [if c == '\r' then '\n' else c] + ReplaceAll(rest, CR, LF)
  {
    assert ([c] + rest)[1..] == rest;
    assert ([c] + rest)[..1] == [c];
  }

  /** The passes of the source and the one pass find the same lines. */
  lemma {:induction false} LinesInOnePass(cur: string, text: string)
    ensures FlatMap(Flush, SplitFrom(cur, Folded(text))) == LinesFrom(cur, text)
    decreases |text|
  {
    if text == "" {
      FlushFirst(cur, []);
      assert [cur] + [] == [cur];
    } else if HasPrefix(text, CRLF) {
      FoldedStep(text);
      LineEnds(cur, Folded(text[2..]));
      LinesInOnePass("", text[2..]);
      CrLfEndsOnce(cur, text);
    } else if IsTerminator(text[0]) {
      FoldedStep(text);
      LineEnds(cur, Folded(text[1..]));
      LinesInOnePass("", text[1..]);
    } else {
      FoldedStep(text);
      assert ([text[0]] + Folded(text[1..]))[1..] == Folded(text[1..]);
      LinesInOnePass(cur + [text[0]], text[1..]);
    }
  }

  lemma LineEnds(cur: string, rest: string)
    ensures FlatMap(Flush, SplitFrom(cur, ['\n'] + rest)) == Flush(cur) + FlatMap(Flush, SplitFrom("", rest))
  {
    assert (['\n'] + rest)[1..] == rest;
    FlushFirst(cur, SplitFrom("", rest));
  }

  lemma CrLfEndsOnce(cur: string, text: string)
    requires HasPrefix(text, CRLF)
    ensures LinesFrom(cur, text) == Flush(cur) + LinesFrom("", text[2..])
  {
    assert text[0] == text[..2][0] && text[1] == text[..2][1];
    assert text[1..][1..] == text[2..];
    FlushEmpty();
  }

  /** Runes without a line end among them are one line. */
  lemma LinesOfOneLine(text: string)
    requires '\n' !in text && '\r' !in text
    ensures Lines(text) == Flush(text)
  {
    LinesInOnePass("", text);
    OneLine("", text);
    assert "" + text == text;
  }

  lemma {:induction false} OneLine(cur: string, text: string)
    requires '\n' !in text && '\r' !in text
    ensures LinesFrom(cur, text) == Flush(cur + text)
    decreases |text|
  {
    if text == "" {
      assert cur + text == cur;
    } else {
      OneLine(cur + [text[0]], text[1..]);
      assert cur + [text[0]] + text[1..] == cur + text;
    }
  }

  // ---------------------------------------------------------------- cutting a text

  /** The unfinished line that a text ends with. */
  function Tail(cur: string, text: string): string
    decreases |text|
  {
    if text == "" then cur
    else if IsTerminator(text[0]) then Tail("", text[1..])
    else Tail(cur + [text[0]], text[1..])
  }

  /** The lines that the text finished. */
  function Done(cur: string, text: string): seq<string>
    decreases |text|
  {
    if text == "" then []
    else if IsTerminator(text[0]) then Flush(cur) + Done("", text[1..])
    else Done(cur + [text[0]], text[1..])
  }

  /** The text up to its first terminator. */
  function Head(text: string): string {
    if text == "" || IsTerminator(text[0]) then "" else [text[0]] + Head(text[1..])
  }

  /** The lines after the first terminator. */
  function Rest(text: string): seq<string> {
    if text == "" then []
    else if IsTerminator(text[0]) then LinesFrom("", text[1..])
    else Rest(text[1..])
  }

  lemma {:induction false} ContinueLine(cur: string, x: string, y: string)
    ensures LinesFrom(cur, x + y) == Done(cur, x) + LinesFrom(Tail(cur, x), y)
    decreases |x|
  {
    if x == "" {
      assert x + y == y;
    } else {
      assert (x + y)[1..] == x[1..] + y;
      if IsTerminator(x[0]) {
        ContinueLine("", x[1..], y);
      } else {
        ContinueLine(cur + [x[0]], x[1..], y);
      }
    }
  }

  lemma {:induction false} FirstLine(cur: string, y: string)
    ensures LinesFrom(cur, y) == Flush(cur + Head(y)) + Rest(y)
    decreases |y|
  {
    if y == "" || IsTerminator(y[0]) {
      assert cur + "" == cur;
    } else {
      FirstLine(cur + [y[0]], y[1..]);
      assert cur + [y[0]] + Head(y[1..]) == cur + Head(y);
    }
  }

  /** Two parts of one line flush separately as they do together only when one is blank. */
  lemma FlushParts(a: string, b: string)
    ensures Flush(a + b) == Flush(a) + Flush(b) <==> Blank(a) || Blank(b)
  {
    BlankTrims(a);
    BlankTrims(b);
    if Blank(a) {
      TrimLeftBlank(a, b);
    } else if Blank(b) {
      var left, right := TrimParts(a);
      assert a + b == left + Trim(a) + (right + b);
      TrimOfParts(left, Trim(a), right + b);
    }
  }

  /** Sequences with a common start and a common end agree exactly when their middles do. */
  lemma SameMiddle<T>(a: seq<T>, m: seq<T>, n: seq<T>, b: seq<T>)
    ensures a + m + b == a + n + b <==> m == n
  {
    var x, y := a + m + b, a + n + b;
    assert x[|a|..|a| + |m|] == m && y[|a|..|a| + |n|] == n;
    if x == y {
      assert |m| == |n|;
    }
  }

  lemma LinesOfPieces(x: string, y: string)
    ensures Lines(x + y) == Done("", x) + Flush(Tail("", x) + Head(y)) + Rest(y)
    ensures Lines(x) + Lines(y) == Done("", x) + (Flush(Tail("", x)) + Flush(Head(y))) + Rest(y)
  {
    var tail, head := Tail("", x), Head(y);
    LinesInOnePass("", x);
    LinesInOnePass("", y);
    LinesInOnePass("", x + y);
    ContinueLine("", x, y);
    ContinueLine("", x, "");
    assert x + "" == x;
    FirstLine(tail, y);
    FirstLine("", y);
    assert "" + head == head;
    Associates(Done("", x), Flush(tail + head), Rest(y));
    Associates(Done("", x) + Flush(tail), Flush(head), Rest(y));
    Associates(Done("", x), Flush(tail), Flush(head));
  }

  /** The lines of a text and of its two pieces agree exactly when the cut leaves one side of its line blank. */
  lemma CutLaw(x: string, y: string)
    ensures Lines(x + y) == Lines(x) + Lines(y) <==> Blank(Tail("", x)) || Blank(Head(y))
  {
    var tail, head := Tail("", x), Head(y);
    LinesOfPieces(x, y);
    FlushParts(tail, head);
    SameMiddle(Done("", x), Flush(tail + head), Flush(tail) + Flush(head), Rest(y));
  }

  /** A cut beside a terminator, even inside CR LF, changes nothing. */
  lemma CutAtTerminator(x: string, y: string)
    requires (x != "" && IsTerminator(x[|x| - 1])) || (y != "" && IsTerminator(y[0]))
    ensures Lines(x + y) == Lines(x) + Lines(y)
  {
    CutLaw(x, y);
    if x != "" && IsTerminator(x[|x| - 1]) {
      TailOfTerminated("", x);
    }
  }

  lemma {:induction false} TailOfTerminated(cur: string, x: string)
    requires x != "" && IsTerminator(x[|x| - 1])
    ensures Tail(cur, x) == ""
    decreases |x|
  {
    if |x| > 1 {
      TailOfTerminated(if IsTerminator(x[0]) then "" else cur + [x[0]], x[1..]);
    }
  }

  lemma {:induction false} BlankHasNoLines(cur: string, text: string)
    requires Blank(cur) && Blank(text)
    ensures LinesFrom(cur, text) == []
    decreases |text|
  {
    BlankTrims(cur);
    if text != "" {
      BlankHasNoLines(if IsTerminator(text[0]) then "" else cur + [text[0]], text[1..]);
    }
  }

  lemma NoTextNoLines(text: string)
    requires Trim(text) == ""
    ensures Lines(text) == []
  {
    BlankTrims(text);
    LinesInOnePass("", text);
    BlankHasNoLines("", text);
  }

  // ---------------------------------------------------------------- trimRecent

  function TrimRecent(lines: seq<string>, max: int): seq<string> {
    if max <= 0 || |lines| <= max then lines else lines[|lines| - max..]
  }

  /** What is kept are the last lines: as many as max, if it is positive and there are more. */
  predicate KeepsLast(kept: seq<string>, lines: seq<string>, max: int) {
    && |kept| == (if 0 < max < |lines| then max else |lines|)
    && forall i | 0 <= i < |kept| :: kept[i] == lines[|lines| - |kept| + i]
  }

  lemma TrimRecentKeepsLast(lines: seq<string>, max: int)
    ensures KeepsLast(TrimRecent(lines, max), lines, max)
  {
  }

  /** Trimming early loses nothing that a later trim would keep. */
  lemma TrimRecentAbsorbs(old_: seq<string>, more: seq<string>, max: int)
    requires max > 0
    ensures TrimRecent(TrimRecent(old_, max) + more, max) == TrimRecent(old_ + more, max)
  {
    if |old_| > max {
      var cut := |old_| - max;
      assert old_[cut..] + more == (old_ + more)[cut..];
    }
  }

  /** All lines of a sequence of texts. */
  function AllLines(texts: seq<string>): seq<string> { FlatMap(Lines, texts) }

  /** What is stored after the texts came in one by one: each call appends, then trims; a blank text returns early. */
  function Stored(texts: seq<string>, max: int): seq<string> {
    if texts == [] then []
    else
      var before, text := Stored(texts[..|texts| - 1], max), texts[|texts| - 1];
      if Trim(text) == "" then before else TrimRecent(before + Lines(text), max)
  }

  lemma {:induction false} StoredIsTrimmed(texts: seq<string>, max: int)
    requires max > 0
    ensures Stored(texts, max) == TrimRecent(AllLines(texts), max)
  {
    if texts != [] {
      var before, text := texts[..|texts| - 1], texts[|texts| - 1];
      StoredIsTrimmed(before, max);
      assert AllLines(texts) == AllLines(before) + Lines(text);
      if Trim(text) == "" {
        NoTextNoLines(text);
      } else {
        TrimRecentAbsorbs(AllLines(before), Lines(text), max);
      }
    }
  }

  /** The window law: the stored lines are the last max of all lines that ever came in, or all of them if there are
      not that many. */
  lemma {:induction false} WindowLaw(texts: seq<string>, max: int)
    requires max > 0
    ensures KeepsLast(Stored(texts, max), AllLines(texts), max)
  {
    StoredIsTrimmed(texts, max);
    TrimRecentKeepsLast(AllLines(texts), max);
  }

  /** Where the terminal output is cut into texts beside a terminator does not show in the window. */
  lemma WindowIgnoresCuts(before: seq<string>, x: string, y: string, after: seq<string>, max: int)
    requires max > 0
    requires (x != "" && IsTerminator(x[|x| - 1])) || (y != "" && IsTerminator(y[0]))
    ensures Stored(before + [x, y] + after, max) == Stored(before + [x + y] + after, max)
  {
    StoredIsTrimmed(before + [x, y] + after, max);
    StoredIsTrimmed(before + [x + y] + after, max);
    CutAtTerminator(x, y);
    FlatMapConcat(Lines, before + [x, y], after);
    FlatMapConcat(Lines, before + [x + y], after);
    FlatMapConcat(Lines, before, [x, y]);
    FlatMapConcat(Lines, before, [x + y]);
    FlatMapConcat(Lines, [x], [y]);
    FlatMapOne(Lines, x);
    FlatMapOne(Lines, y);
    FlatMapOne(Lines, x + y);
    assert [x] + [y] == [x, y];
  }
}
