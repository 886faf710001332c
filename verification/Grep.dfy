/**
  The matcher of user/grep.c against a semantics of its patterns as sets of words.
  Pattern and text are their characters before the NUL.
 */
module Grep {
  datatype Re = Empty | End | Lit(c: char, rest: Re) | Any(rest: Re) | Star(c: char, rest: Re)

  /** What a pattern means; `$` is special only as its last character. */
  function Parse(re: string): Re {
    if re == [] then Empty
    else if |re| >= 2 && re[1] == '*' then Star(re[0], Parse(re[2..]))
    else if re == "$" then End
    else if re[0] == '.' then Any(Parse(re[1..]))
    else Lit(re[0], Parse(re[1..]))
  }

  /** All characters of w are c, or anything when c is a dot. */
  predicate Repeats(c: char, w: string) {
    forall i :: 0 <= i < |w| ==> c == '.' || w[i] == c
  }

  /** The words of a pattern. */
  ghost predicate InLang(r: Re, w: string)
    decreases r
  {
    match r
    case Empty => w == []
    case End => w == []
    case Lit(c, rest) => w != [] && w[0] == c && InLang(rest, w[1..])
    case Any(rest) => w != [] && InLang(rest, w[1..])
    case Star(c, rest) => exists i :: 0 <= i <= |w| && Repeats(c, w[..i]) && InLang(rest, w[i..])
  }

  predicate Anchored(r: Re) {
    match r
    case Empty => false
    case End => true
    case Lit(_, rest) => Anchored(rest)
    case Any(rest) => Anchored(rest)
    case Star(_, rest) => Anchored(rest)
  }

  /** A word of the pattern is at the start of the text, and is all of it under `$`. */
  ghost predicate Accepts(r: Re, text: string) {
    exists k :: 0 <= k <= |text| && InLang(r, text[..k]) && (Anchored(r) ==> k == |text|)
  }

  /** The pattern is found in the text. */
  ghost predicate Found(re: string, text: string) {
    if re != [] && re[0] == '^' then Accepts(Parse(re[1..]), text)
    else exists s :: 0 <= s <= |text| && Accepts(Parse(re), text[s..])
  }

  lemma EmptyAccepts(r: Re, text: string)
    requires r.Empty? || r.End?
    ensures Accepts(r, text) <==> r.Empty? || text == []
  {
    if r.Empty? || text == [] { assert InLang(r, text[..0]); }
  }

  lemma OneAccepts(r: Re, text: string)
    requires r.Lit? || r.Any?
    ensures Accepts(r, text) <==> text != [] && (r.Any? || text[0] == r.c) && Accepts(r.rest, text[1..])
  {
    if Accepts(r, text) {
      var k :| 0 <= k <= |text| && InLang(r, text[..k]) && (Anchored(r) ==> k == |text|);
      assert text[..k][1..] == text[1..][..k - 1];
    }
    if text != [] && (r.Any? || text[0] == r.c) && Accepts(r.rest, text[1..]) {
      var k :| 0 <= k <= |text[1..]| && InLang(r.rest, text[1..][..k]) && (Anchored(r.rest) ==> k == |text[1..]|);
      assert text[..k + 1][1..] == text[1..][..k];
      assert InLang(r, text[..k + 1]);
    }
  }

  /** The rest of the pattern is found behind i repetitions. */
  ghost predicate Splits(r: Re, text: string, i: nat)
    requires r.Star? && i <= |text|
  {
    Repeats(r.c, text[..i]) && Accepts(r.rest, text[i..])
  }

  lemma StarAccepts(r: Re, text: string)
    requires r.Star?
    ensures Accepts(r, text) <==> exists i :: 0 <= i <= |text| && Splits(r, text, i)
  {
    if Accepts(r, text) {
      var k :| 0 <= k <= |text| && InLang(r, text[..k]) && (Anchored(r) ==> k == |text|);
      var w := text[..k];
      var i :| 0 <= i <= |w| && Repeats(r.c, w[..i]) && InLang(r.rest, w[i..]);
      assert w[..i] == text[..i] && w[i..] == text[i..][..k - i];
      assert Splits(r, text, i);
    }
    if i :| 0 <= i <= |text| && Splits(r, text, i) {
      var k :| 0 <= k <= |text[i..]| && InLang(r.rest, text[i..][..k]) && (Anchored(r.rest) ==> k == |text[i..]|);
      var w := text[..i + k];
      assert w[..i] == text[..i] && w[i..] == text[i..][..k];
      assert InLang(r, w);
    }
  }

  method MatchHere(re: string, text: string) returns (b: bool)
    ensures b <==> Accepts(Parse(re), text)
    decreases |re|, 0
  {
    if re == [] {
      EmptyAccepts(Parse(re), text);
      return true;
    }
    if |re| > 1 && re[1] == '*' {
      b := MatchStar(re[0], re[2..], text);
      return;
    }
    if re[0] == '$' && |re| == 1 {
      EmptyAccepts(Parse(re), text);
      return text == [];
    }
    OneAccepts(Parse(re), text);
    if text != [] && (re[0] == '.' || re[0] == text[0]) {
      b := MatchHere(re[1..], text[1..]);
      return;
    }
    return false;
  }

  method MatchStar(c: char, re: string, text: string) returns (b: bool)
    ensures b <==> Accepts(Star(c, Parse(re)), text)
    decreases |re|, 1
  {
    ghost var r := Star(c, Parse(re));
    StarAccepts(r, text);
    var i := 0;
    while true
      invariant i <= |text| && Repeats(c, text[..i])
      invariant forall j :: 0 <= j < i ==> !Splits(r, text, j)
      decreases |text| - i
    {
      var here := MatchHere(re, text[i..]);
      if here {
        assert Splits(r, text, i);
        return true;
      }
      if i == |text| || !(text[i] == c || c == '.') {
        break;
      }
      i := i + 1;
    }
    forall j | i < j <= |text| ensures !Splits(r, text, j) {
      assert i < |text| ==> text[..j][i] == text[i];
    }
    return false;
  }

  method Match(re: string, text: string) returns (b: bool)
    ensures b <==> Found(re, text)
  {
    if re != [] && re[0] == '^' {
      b := MatchHere(re[1..], text);
      return;
    }
    var s := 0;
    while true
      invariant s <= |text| && forall j :: 0 <= j < s ==> !Accepts(Parse(re), text[j..])
      decreases |text| - s
    {
      var here := MatchHere(re, text[s..]);
      if here {
        return true;
      }
      if s == |text| {
        break;
      }
      s := s + 1;
    }
    return false;
  }
}
