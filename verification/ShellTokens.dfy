/**
  The words and symbols of a command line, as gettoken() and peek() of user/sh.c see them.

  A command line is its characters before the NUL.  A word is known by where it starts
  and ends in the line.
 */
module ShellTokens {
  const NUL: char := '\0'

  predicate Ws(c: char) {
    c == ' ' || c == '\t' || c == '\r' || c == '\n' || c == '\U{0B}'
  }

  predicate Symbol(c: char) {
    c == '<' || c == '|' || c == '>' || c == '&' || c == ';' || c == '(' || c == ')'
  }

  predicate WordChar(c: char) {
    !Ws(c) && !Symbol(c)
  }

  datatype List<T> = Nil | Cons(head: T, tail: List<T>)

  /** '+' stands for the symbol ">>". */
  datatype Token = Word(q: nat, eq: nat) | Sym(c: char)

  ghost predicate NulFree(text: seq<char>) {
    forall i :: 0 <= i < |text| ==> text[i] != NUL
  }

  function Skip(text: seq<char>, s: nat): (r: nat)
    requires s <= |text|
    ensures s <= r <= |text| && (r < |text| ==> !Ws(text[r]))
    ensures forall i :: s <= i < r ==> Ws(text[i])
    decreases |text| - s
  {
    if s < |text| && Ws(text[s]) then Skip(text, s + 1) else s
  }

  function WordEnd(text: seq<char>, s: nat): (r: nat)
    requires s <= |text|
    ensures s <= r <= |text| && (r < |text| ==> !WordChar(text[r]))
    ensures forall i :: s <= i < r ==> WordChar(text[i])
    decreases |text| - s
  {
    if s < |text| && WordChar(text[s]) then WordEnd(text, s + 1) else s
  }

  /** The token that starts at s, and where it ends. */
  function TokenAt(text: seq<char>, s: nat): (r: (Token, nat))
    requires s < |text| && !Ws(text[s])
    ensures s < r.1 <= |text|
  {
    var c := text[s];
    if c == '>' then if s + 1 < |text| && text[s + 1] == '>' then (Sym('+'), s + 2) else (Sym('>'), s + 1)
    else if Symbol(c) then (Sym(c), s + 1)
    else (Word(s, WordEnd(text, s)), WordEnd(text, s))
  }

  function Tokens(text: seq<char>, s: nat): List<Token>
    requires s <= |text|
    decreases |text| - s
  {
    var p := Skip(text, s);
    if p == |text| then Nil else var t := TokenAt(text, p); Cons(t.0, Tokens(text, t.1))
  }

  // --- The same, said without a scanner ---

  /** The characters of a token are text[g..e], and the token is as long as it can be. */
  ghost predicate Spelled(text: seq<char>, t: Token, g: nat, e: nat) {
    && g < e <= |text|
    && match t
       case Word(q, eq) =>
         && q == g && eq == e && (forall i :: g <= i < e ==> WordChar(text[i]))
         && (e < |text| ==> !WordChar(text[e]))
       case Sym(c) =>
         if c == '+' then e == g + 2 && text[g] == '>' && text[g + 1] == '>'
         else e == g + 1 && text[g] == c && Symbol(c) && (c == '>' && e < |text| ==> text[e] != '>')
  }

  ghost predicate Gap(text: seq<char>, s: nat, g: nat) {
    s <= g <= |text| && forall i :: s <= i < g ==> Ws(text[i])
  }

  /** From s on the text is the tokens ts, with white space before, between and behind them. */
  ghost predicate Spells(text: seq<char>, s: nat, ts: List<Token>)
    decreases ts
  {
    match ts
    case Nil => Gap(text, s, |text|)
    case Cons(t, rest) => exists g, e :: Gap(text, s, g) && Spelled(text, t, g, e) && Spells(text, e, rest)
  }

  lemma SpelledOne(text: seq<char>, t: Token, g: nat, e: nat)
    requires Spelled(text, t, g, e)
    ensures !Ws(text[g]) && TokenAt(text, g) == (t, e)
  {
  }

  /** Every way to write the tokens down is read back as these tokens. */
  lemma {:induction false} SpellsTokens(text: seq<char>, s: nat, ts: List<Token>)
    requires s <= |text| && Spells(text, s, ts)
    ensures Tokens(text, s) == ts
    decreases ts
  {
    match ts
    case Nil =>
      assert Skip(text, s) == |text|;
    case Cons(t, rest) =>
      var g, e :| Gap(text, s, g) && Spelled(text, t, g, e) && Spells(text, e, rest);
      SpelledOne(text, t, g, e);
      assert Skip(text, s) == g;
      SpellsTokens(text, e, rest);
  }

  /** And the tokens that are read are in the text. */
  lemma {:induction false} TokensSpell(text: seq<char>, s: nat)
    requires s <= |text|
    ensures Spells(text, s, Tokens(text, s))
    decreases |text| - s
  {
    var p := Skip(text, s);
    if p < |text| {
      var t := TokenAt(text, p);
      assert Gap(text, s, p) && Spelled(text, t.0, p, t.1);
      TokensSpell(text, t.1);
    }
  }
}
