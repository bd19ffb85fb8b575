/** Go's string helpers, on sequences of runes. */
module Text {

  predicate HasPrefix(s: string, prefix: string) {
    |prefix| <= |s| && s[..|prefix|] == prefix
  }

  /** strings.ReplaceAll: from left to right, without overlaps. */
  function ReplaceAll(s: string, old_: string, new_: string): string
    requires old_ != ""
    decreases |s|
  {
    if s == "" then ""
    else if HasPrefix(s, old_) then new_ + ReplaceAll(s[|old_|..], old_, new_)
    else [s[0]] + ReplaceAll(s[1..], old_, new_)
  }

  function Flatten<T>(chunks: seq<seq<T>>): seq<T> {
    if chunks == [] then [] else Flatten(chunks[..|chunks| - 1]) + chunks[|chunks| - 1]
  }

  lemma FlattenSnoc<T>(chunks: seq<seq<T>>, chunk: seq<T>)
    ensures Flatten(chunks + [chunk]) == Flatten(chunks) + chunk
  {
    assert (chunks + [chunk])[..|chunks|] == chunks;
  }

  lemma Associates<T>(a: seq<T>, b: seq<T>, c: seq<T>)
    ensures a + b + c == a + (b + c)
  {
  }

  /** What f gives for the elements of xs, one after the other. */
  function FlatMap<A, B>(f: A -> seq<B>, xs: seq<A>): seq<B> {
    if xs == [] then [] else FlatMap(f, xs[..|xs| - 1]) + f(xs[|xs| - 1])
  }

  lemma FlatMapOne<A, B>(f: A -> seq<B>, x: A)
    ensures FlatMap(f, [x]) == f(x)
  {
    assert [x][..0] == [];
  }

  lemma {:induction false} FlatMapConcat<A, B>(f: A -> seq<B>, a: seq<A>, b: seq<A>)
    ensures FlatMap(f, a + b) == FlatMap(f, a) + FlatMap(f, b)
    decreases |b|
  {
    var all, n := a + b, |b| - 1;
    if b == [] {
      assert all == a;
    } else {
      FlatMapConcat(f, a, b[..n]);
      assert all[..|all| - 1] == a + b[..n];
      assert all[|all| - 1] == b[n];
      Associates(FlatMap(f, a), FlatMap(f, b[..n]), f(b[n]));
    }
  }

  // ---------------------------------------------------------------- strings.TrimSpace

  /** unicode.IsSpace. */
  predicate IsSpace(c: char) {
    || '\t' <= c <= '\r' || c == ' ' || c == '\U{0085}' || c == '\U{00A0}' || c == '\U{1680}'
    || '\U{2000}' <= c <= '\U{200A}' || c == '\U{2028}' || c == '\U{2029}' || c == '\U{202F}'
    || c == '\U{205F}' || c == '\U{3000}'
  }

  /** The runes with the Unicode property White_Space. */
  const WHITE_SPACE: string :=
    "\t\n\U{000B}\U{000C}\r \U{0085}\U{00A0}\U{1680}\U{2000}\U{2001}\U{2002}\U{2003}\U{2004}\U{2005}\U{2006}\U{2007}"
    + "\U{2008}\U{2009}\U{200A}\U{2028}\U{2029}\U{202F}\U{205F}\U{3000}"

  lemma IsSpaceListed(c: char)
    ensures IsSpace(c) <==> c in WHITE_SPACE
  {
  }

  predicate Blank(s: string) { forall i | 0 <= i < |s| :: IsSpace(s[i]) }

  function TrimLeft(s: string): string {
    if s != "" && IsSpace(s[0]) then TrimLeft(s[1..]) else s
  }

  function TrimRight(s: string): string {
    if s != "" && IsSpace(s[|s| - 1]) then TrimRight(s[..|s| - 1]) else s
  }

  function Trim(s: string): string { TrimRight(TrimLeft(s)) }

  lemma {:induction false} TrimLeftParts(s: string) returns (cut: string)
    ensures s == cut + TrimLeft(s) && Blank(cut)
    ensures TrimLeft(s) != "" ==> !IsSpace(TrimLeft(s)[0])
  {
    cut := "";
    if s != "" && IsSpace(s[0]) {
      var rest := TrimLeftParts(s[1..]);
      cut := [s[0]] + rest;
      assert s == [s[0]] + s[1..];
    }
  }

  lemma {:induction false} TrimRightParts(s: string) returns (cut: string)
    ensures s == TrimRight(s) + cut && Blank(cut)
    ensures TrimRight(s) != "" ==> !IsSpace(TrimRight(s)[|TrimRight(s)| - 1])
  {
    cut := "";
    if s != "" && IsSpace(s[|s| - 1]) {
      var rest := TrimRightParts(s[..|s| - 1]);
      cut := rest + [s[|s| - 1]];
      assert s == s[..|s| - 1] + [s[|s| - 1]];
    }
  }

  lemma {:induction false} TrimLeftBlank(cut: string, s: string)
    requires Blank(cut)
    ensures TrimLeft(cut + s) == TrimLeft(s)
  {
    if cut == "" {
      assert cut + s == s;
    } else {
      assert (cut + s)[1..] == cut[1..] + s;
      TrimLeftBlank(cut[1..], s);
    }
  }

  lemma {:induction false} TrimRightBlank(s: string, cut: string)
    requires Blank(cut)
    ensures TrimRight(s + cut) == TrimRight(s)
  {
    if cut == "" {
      assert s + cut == s;
    } else {
      var n := |cut| - 1;
      assert (s + cut)[..|s + cut| - 1] == s + cut[..n];
      TrimRightBlank(s, cut[..n]);
    }
  }

  /** A trimmed string: nothing to trim at either end. */
  predicate Tight(s: string) { s == "" || (!IsSpace(s[0]) && !IsSpace(s[|s| - 1])) }

  /** Trim cuts blank ends off, and is told by that: what is left is tight. */
  lemma TrimParts(s: string) returns (left: string, right: string)
    ensures s == left + Trim(s) + right && Blank(left) && Blank(right) && Tight(Trim(s))
  {
    left := TrimLeftParts(s);
    right := TrimRightParts(TrimLeft(s));
    assert left + (Trim(s) + right) == left + Trim(s) + right;
    if Trim(s) != "" {
      assert TrimLeft(s)[0] == Trim(s)[0];
    }
  }

  lemma TrimOfParts(left: string, s: string, right: string)
    requires Blank(left) && Blank(right) && Tight(s)
    ensures Trim(left + s + right) == s
  {
    assert left + s + right == left + (s + right);
    TrimLeftBlank(left, s + right);
    if s == "" {
      assert s + right == right + "";
      TrimLeftBlank(right, "");
    } else {
      assert TrimLeft(s + right) == s + right;
      TrimRightBlank(s, right);
    }
  }

  lemma TrimIsIdempotent(s: string)
    ensures Trim(Trim(s)) == Trim(s)
  {
    var left, right := TrimParts(s);
    assert Trim(s) == "" + Trim(s) + "";
    TrimOfParts("", Trim(s), "");
  }

  lemma BlankTrims(s: string)
    ensures Trim(s) == "" <==> Blank(s)
  {
    var left, right := TrimParts(s);
    if Blank(s) {
      assert s == s + "" + "";
      TrimOfParts(s, "", "");
    }
  }

  // ---------------------------------------------------------------- strings.Index

  predicate OccursAt(s: string, sub: string, i: nat) {
    i + |sub| <= |s| && s[i..i + |sub|] == sub
  }

  lemma OccursAtHead(s: string, sub: string)
    ensures OccursAt(s, sub, 0) <==> HasPrefix(s, sub)
  {
    assert |sub| <= |s| ==> s[0..|sub|] == s[..|sub|];
  }

  lemma OccursInTail(s: string, sub: string, i: nat)
    requires s != ""
    ensures OccursAt(s, sub, i + 1) <==> OccursAt(s[1..], sub, i)
  {
    assert i + 1 + |sub| <= |s| ==> s[i + 1..i + 1 + |sub|] == s[1..][i..i + |sub|];
  }

  function Index(s: string, sub: string): (r: int)
    ensures -1 <= r
    ensures r >= 0 ==> OccursAt(s, sub, r) && forall i: nat | i < r :: !OccursAt(s, sub, i)
    ensures r < 0 ==> forall i: nat :: !OccursAt(s, sub, i)
  {
    OccursAtHead(s, sub);
    if HasPrefix(s, sub) then 0
    else if s == "" then -1
    else
      var rest := Index(s[1..], sub);
      assert forall i: nat | i > 0 :: OccursAt(s, sub, i) <==> OccursAt(s[1..], sub, i - 1) by {
        forall i: nat | i > 0
          ensures OccursAt(s, sub, i) <==> OccursAt(s[1..], sub, i - 1)
        {
          OccursInTail(s, sub, i - 1);
        }
      }
      if rest < 0 then -1 else rest + 1
  }
}
