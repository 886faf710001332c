/**
  The grammar that parseline() and the other parsers of user/sh.c accept, as syntax trees,
  and a reference parser over tokens that is shown to accept exactly its sentences.
 */
module ShellGrammar {
  import opened ShellTokens

  const MAXARGS: nat := 10

  /** One of <, > and >> with a file name. */
  datatype Redir = Redir(op: char, q: nat, eq: nat)

  datatype Arg = Arg(q: nat, eq: nat, redirs: List<Redir>)

  datatype Exec = Simple(first: List<Redir>, args: List<Arg>) | Block(line: Line, redirs: List<Redir>)

  datatype Pipeline = One(exec: Exec) | Piped(exec: Exec, next: Pipeline)

  datatype Line = Last(pipes: Pipeline, amps: nat) | Then(pipes: Pipeline, amps: nat, next: Line)

  datatype Res<T> = Fail | Ok(value: T, rest: List<Token>)

  predicate IsRedir(c: char) {
    c == '<' || c == '>' || c == '+'
  }

  predicate At(ts: List<Token>, c: char) {
    ts.Cons? && ts.head == Sym(c)
  }

  // --- The tokens of a tree, followed by more tokens ---

  function RedirTokens(rs: List<Redir>, more: List<Token>): List<Token> {
    match rs
    case Nil => more
    case Cons(r, rest) => Cons(Sym(r.op), Cons(Word(r.q, r.eq), RedirTokens(rest, more)))
  }

  function ArgTokens(args: List<Arg>, more: List<Token>): List<Token> {
    match args
    case Nil => more
    case Cons(a, rest) => Cons(Word(a.q, a.eq), RedirTokens(a.redirs, ArgTokens(rest, more)))
  }

  function ExecTokens(e: Exec, more: List<Token>): List<Token> {
    match e
    case Simple(first, args) => RedirTokens(first, ArgTokens(args, more))
    case Block(line, redirs) => Cons(Sym('('), LineTokens(line, Cons(Sym(')'), RedirTokens(redirs, more))))
  }

  function PipeTokens(p: Pipeline, more: List<Token>): List<Token> {
    match p
    case One(e) => ExecTokens(e, more)
    case Piped(e, next) => ExecTokens(e, Cons(Sym('|'), PipeTokens(next, more)))
  }

  function AmpTokens(n: nat, more: List<Token>): List<Token> {
    if n == 0 then more else Cons(Sym('&'), AmpTokens(n - 1, more))
  }

  function LineTokens(l: Line, more: List<Token>): List<Token> {
    match l
    case Last(p, n) => PipeTokens(p, AmpTokens(n, more))
    case Then(p, n, next) => PipeTokens(p, AmpTokens(n, Cons(Sym(';'), LineTokens(next, more))))
  }

  // --- Trees of the grammar ---

  predicate GoodRedirs(rs: List<Redir>) {
    rs.Cons? ==> IsRedir(rs.head.op) && GoodRedirs(rs.tail)
  }

  /** Fewer than MAXARGS words when n have been counted. */
  predicate GoodArgs(args: List<Arg>, n: nat) {
    args.Cons? ==> n + 1 < MAXARGS && GoodRedirs(args.head.redirs) && GoodArgs(args.tail, n + 1)
  }

  predicate GoodExec(e: Exec) {
    match e
    case Simple(first, args) => GoodRedirs(first) && GoodArgs(args, 0)
    case Block(line, redirs) => GoodLine(line) && GoodRedirs(redirs)
  }

  predicate GoodPipe(p: Pipeline) {
    GoodExec(p.exec) && (p.Piped? ==> GoodPipe(p.next))
  }

  predicate GoodLine(l: Line) {
    GoodPipe(l.pipes) && (l.Then? ==> GoodLine(l.next))
  }

  // --- The reference parser ---

  function Length(ts: List<Token>): nat {
    match ts
    case Nil => 0
    case Cons(_, rest) => 1 + Length(rest)
  }

  function Redirs(ts: List<Token>): (r: Res<List<Redir>>)
    ensures r.Ok? ==> Length(r.rest) <= Length(ts)
  {
    if ts.Nil? || ts.head.Word? || !IsRedir(ts.head.c) then Ok(Nil, ts)
    else if ts.tail.Nil? || ts.tail.head.Sym? then Fail
    else
      match Redirs(ts.tail.tail)
      case Fail => Fail
      case Ok(rs, rest) => Ok(Cons(Redir(ts.head.c, ts.tail.head.q, ts.tail.head.eq), rs), rest)
  }

  /** The words of a command, n of which have been read. */
  function Args(ts: List<Token>, n: nat): (r: Res<List<Arg>>)
    ensures r.Ok? ==> Length(r.rest) <= Length(ts)
    decreases Length(ts)
  {
    if ts.Nil? || At(ts, '|') || At(ts, ')') || At(ts, '&') || At(ts, ';') then Ok(Nil, ts)
    else if ts.head.Sym? || n + 1 >= MAXARGS then Fail
    else
      match Redirs(ts.tail)
      case Fail => Fail
      case Ok(rs, rest) =>
        match Args(rest, n + 1)
        case Fail => Fail
        case Ok(args, rest') => Ok(Cons(Arg(ts.head.q, ts.head.eq, rs), args), rest')
  }

  function ParseExec(ts: List<Token>): (r: Res<Exec>)
    ensures r.Ok? ==> Length(r.rest) <= Length(ts)
    decreases Length(ts), 0
  {
    if At(ts, '(') then
      match ParseLine(ts.tail)
      case Fail => Fail
      case Ok(line, rest) =>
        if !At(rest, ')') then Fail
        else
          match Redirs(rest.tail)
          case Fail => Fail
          case Ok(rs, rest') => Ok(Block(line, rs), rest')
    else
      match Redirs(ts)
      case Fail => Fail
      case Ok(first, rest) =>
        match Args(rest, 0)
        case Fail => Fail
        case Ok(args, rest') => Ok(Simple(first, args), rest')
  }

  function ParsePipe(ts: List<Token>): (r: Res<Pipeline>)
    ensures r.Ok? ==> Length(r.rest) <= Length(ts)
    decreases Length(ts), 1
  {
    match ParseExec(ts)
    case Fail => Fail
    case Ok(e, rest) =>
      if !At(rest, '|') then Ok(One(e), rest)
      else
        match ParsePipe(rest.tail)
        case Fail => Fail
        case Ok(next, rest') => Ok(Piped(e, next), rest')
  }

  function Amps(ts: List<Token>): (r: (nat, List<Token>))
    ensures Length(r.1) <= Length(ts) && AmpTokens(r.0, r.1) == ts && !At(r.1, '&')
  {
    if At(ts, '&') then var r := Amps(ts.tail); (r.0 + 1, r.1) else (0, ts)
  }

  function ParseLine(ts: List<Token>): (r: Res<Line>)
    ensures r.Ok? ==> Length(r.rest) <= Length(ts)
    decreases Length(ts), 2
  {
    match ParsePipe(ts)
    case Fail => Fail
    case Ok(p, rest) =>
      var a := Amps(rest);
      if !At(a.1, ';') then Ok(Last(p, a.0), a.1)
      else
        match ParseLine(a.1.tail)
        case Fail => Fail
        case Ok(next, rest') => Ok(Then(p, a.0, next), rest')
  }

  // --- What the parser accepts is a sentence ---

  lemma {:induction false} RedirsSound(ts: List<Token>)
    requires Redirs(ts).Ok?
    ensures var r := Redirs(ts); RedirTokens(r.value, r.rest) == ts && GoodRedirs(r.value)
  {
    if ts.Cons? && ts.head.Sym? && IsRedir(ts.head.c) { RedirsSound(ts.tail.tail); }
  }

  lemma {:induction false} ArgsSound(ts: List<Token>, n: nat)
    requires Args(ts, n).Ok?
    ensures var r := Args(ts, n); ArgTokens(r.value, r.rest) == ts && GoodArgs(r.value, n)
    decreases Length(ts)
  {
    if ts.Cons? && ts.head.Word? {
      RedirsSound(ts.tail);
      ArgsSound(Redirs(ts.tail).rest, n + 1);
    }
  }

  lemma {:induction false} ExecSound(ts: List<Token>)
    requires ParseExec(ts).Ok?
    ensures var r := ParseExec(ts); ExecTokens(r.value, r.rest) == ts && GoodExec(r.value)
    decreases Length(ts), 0
  {
    if At(ts, '(') {
      LineSound(ts.tail);
      RedirsSound(ParseLine(ts.tail).rest.tail);
    } else {
      RedirsSound(ts);
      ArgsSound(Redirs(ts).rest, 0);
    }
  }

  lemma {:induction false} PipeSound(ts: List<Token>)
    requires ParsePipe(ts).Ok?
    ensures var r := ParsePipe(ts); PipeTokens(r.value, r.rest) == ts && GoodPipe(r.value)
    decreases Length(ts), 1
  {
    ExecSound(ts);
    var e := ParseExec(ts);
    if At(e.rest, '|') { PipeSound(e.rest.tail); }
  }

  lemma {:induction false} LineSound(ts: List<Token>)
    requires ParseLine(ts).Ok?
    ensures var r := ParseLine(ts); LineTokens(r.value, r.rest) == ts && GoodLine(r.value)
    decreases Length(ts), 2
  {
    PipeSound(ts);
    var a := Amps(ParsePipe(ts).rest);
    if At(a.1, ';') { LineSound(a.1.tail); }
  }

  // --- Every sentence is accepted, and read as the tree it was written from ---

  /** No redirection follows. */
  predicate AfterRedirs(ts: List<Token>) {
    ts.Cons? && ts.head.Sym? ==> !IsRedir(ts.head.c)
  }

  predicate AfterLine(ts: List<Token>) {
    ts.Nil? || At(ts, ')')
  }

  predicate AfterPipe(ts: List<Token>) {
    AfterLine(ts) || At(ts, '&') || At(ts, ';')
  }

  predicate AfterExec(ts: List<Token>) {
    AfterPipe(ts) || At(ts, '|')
  }

  lemma {:induction false} RedirsComplete(rs: List<Redir>, more: List<Token>)
    requires GoodRedirs(rs) && AfterRedirs(more)
    ensures Redirs(RedirTokens(rs, more)) == Ok(rs, more)
  {
    if rs.Cons? { RedirsComplete(rs.tail, more); }
  }

  lemma {:induction false} ArgsComplete(args: List<Arg>, n: nat, more: List<Token>)
    requires GoodArgs(args, n) && AfterExec(more)
    ensures Args(ArgTokens(args, more), n) == Ok(args, more) && AfterRedirs(ArgTokens(args, more))
  {
    if args.Cons? {
      ArgsComplete(args.tail, n + 1, more);
      RedirsComplete(args.head.redirs, ArgTokens(args.tail, more));
    }
  }

  lemma {:induction false} ExecComplete(e: Exec, more: List<Token>)
    requires GoodExec(e) && AfterExec(more)
    ensures ParseExec(ExecTokens(e, more)) == Ok(e, more)
  {
    match e
    case Simple(first, args) =>
      ArgsComplete(args, 0, more);
      RedirsComplete(first, ArgTokens(args, more));
      assert !At(ExecTokens(e, more), '(');
    case Block(line, redirs) =>
      RedirsComplete(redirs, more);
      LineComplete(line, Cons(Sym(')'), RedirTokens(redirs, more)));
  }

  lemma {:induction false} PipeComplete(p: Pipeline, more: List<Token>)
    requires GoodPipe(p) && AfterPipe(more)
    ensures ParsePipe(PipeTokens(p, more)) == Ok(p, more)
  {
    match p
    case One(e) => ExecComplete(e, more);
    case Piped(e, next) =>
      PipeComplete(next, more);
      ExecComplete(e, Cons(Sym('|'), PipeTokens(next, more)));
  }

  lemma {:induction false} AmpsComplete(n: nat, more: List<Token>)
    requires !At(more, '&')
    ensures Amps(AmpTokens(n, more)) == (n, more)
  {
    if n > 0 { AmpsComplete(n - 1, more); }
  }

  lemma {:induction false} LineComplete(l: Line, more: List<Token>)
    requires GoodLine(l) && AfterLine(more)
    ensures ParseLine(LineTokens(l, more)) == Ok(l, more)
  {
    match l
    case Last(p, n) =>
      AmpsComplete(n, more);
      PipeComplete(p, AmpTokens(n, more));
    case Then(p, n, next) =>
      LineComplete(next, more);
      var rest := Cons(Sym(';'), LineTokens(next, more));
      AmpsComplete(n, rest);
      PipeComplete(p, AmpTokens(n, rest));
  }
}
