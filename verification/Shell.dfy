/**
  The parser of user/sh.c: gettoken() and peek() on the text, the recursive parsers that
  move a cursor over it, and nulterminate(), which ends each word with a NUL in place.

  A panic of the source is the result Panic.
 */
module Shell {
  import opened ShellTokens
  import opened ShellGrammar

  const O_RDONLY: nat := 0x000
  const O_WRONLY: nat := 0x001
  const O_CREATE: nat := 0x200
  const O_TRUNC: nat := 0x400

  datatype Span = Span(q: nat, eq: nat)

  datatype Cmd =
    | ExecCmd(argv: seq<Span>)
    | RedirCmd(cmd: Cmd, file: Span, mode: nat, fd: nat)
    | PipeCmd(left: Cmd, right: Cmd)
    | ListCmd(left: Cmd, right: Cmd)
    | BackCmd(cmd: Cmd)

  datatype Out = Panic | Parsed(cmd: Cmd, s: nat)

  // --- The command that a tree of the grammar stands for ---

  function Mode(op: char): nat {
    if op == '<' then O_RDONLY else if op == '>' then O_WRONLY + O_CREATE + O_TRUNC else O_WRONLY + O_CREATE
  }

  function WithRedir(c: Cmd, r: Redir): Cmd {
    RedirCmd(c, Span(r.q, r.eq), Mode(r.op), if r.op == '<' then 0 else 1)
  }

  /** The first redirection is the innermost. */
  function WithRedirs(c: Cmd, rs: List<Redir>): Cmd
    decreases rs
  {
    match rs
    case Nil => c
    case Cons(r, rest) => WithRedirs(WithRedir(c, r), rest)
  }

  function Append<T>(a: List<T>, b: List<T>): List<T> {
    match a
    case Nil => b
    case Cons(x, rest) => Cons(x, Append(rest, b))
  }

  function Words(args: List<Arg>): seq<Span> {
    match args
    case Nil => []
    case Cons(a, rest) => [Span(a.q, a.eq)] + Words(rest)
  }

  function ArgRedirs(args: List<Arg>): List<Redir> {
    match args
    case Nil => Nil
    case Cons(a, rest) => Append(a.redirs, ArgRedirs(rest))
  }

  /** All words of a simple command, wrapped in all its redirections in the order of the text. */
  function ExecOf(e: Exec): Cmd {
    match e
    case Simple(first, args) => WithRedirs(ExecCmd(Words(args)), Append(first, ArgRedirs(args)))
    case Block(line, redirs) => WithRedirs(LineOf(line), redirs)
  }

  function PipeOf(p: Pipeline): Cmd {
    match p
    case One(e) => ExecOf(e)
    case Piped(e, next) => PipeCmd(ExecOf(e), PipeOf(next))
  }

  function Backs(c: Cmd, n: nat): Cmd
    decreases n
  {
    if n == 0 then c else Backs(BackCmd(c), n - 1)
  }

  function LineOf(l: Line): Cmd {
    match l
    case Last(p, n) => Backs(PipeOf(p), n)
    case Then(p, n, next) => ListCmd(Backs(PipeOf(p), n), LineOf(next))
  }

  // --- The scanner ---

  function CharAt(text: seq<char>, s: nat): char {
    if s < |text| then text[s] else NUL
  }

  /** What gettoken() returns for a token. */
  function Code(t: Token): char {
    match t
    case Word(_, _) => 'a'
    case Sym(c) => c
  }

  lemma SkipTokens(text: seq<char>, s: nat)
    requires s <= |text|
    ensures Skip(text, Skip(text, s)) == Skip(text, s) && Tokens(text, Skip(text, s)) == Tokens(text, s)
  {
  }

  /** The loop over white space. */
  method SkipSpace(text: seq<char>, s0: nat) returns (s: nat)
    requires s0 <= |text|
    ensures s == Skip(text, s0)
  {
    s := s0;
    while s < |text| && Ws(text[s])
      invariant s0 <= s <= |text| && Skip(text, s) == Skip(text, s0)
    {
      s := s + 1;
    }
  }

  /** The first token has this code, and this span if it is a word; the others follow. */
  predicate Scans(ts: List<Token>, ret: char, q: nat, eq: nat, rest: List<Token>) {
    if ts.Nil? then ret == NUL && rest == Nil
    else
      var t := ts.head;
      ret == Code(t) != NUL && (t.Word? <==> ret == 'a') && (t.Word? ==> t == Word(q, eq)) && rest == ts.tail
  }

  method Gettoken(text: seq<char>, s0: nat) returns (ret: char, q: nat, eq: nat, s: nat)
    requires s0 <= |text| && NulFree(text)
    ensures s <= |text|
    ensures Scans(Tokens(text, s0), ret, q, eq, Tokens(text, s))
  {
    s := SkipSpace(text, s0);
    q := s;
    ret := CharAt(text, s);
    if ret == NUL {
    } else if ret == '|' || ret == '(' || ret == ')' || ret == ';' || ret == '&' || ret == '<' {
      s := s + 1;
    } else if ret == '>' {
      s := s + 1;
      if CharAt(text, s) == '>' {
        ret := '+';
        s := s + 1;
      }
    } else {
      ret := 'a';
      while s < |text| && !Ws(text[s]) && !Symbol(text[s])
        invariant q <= s <= |text| && WordEnd(text, s) == WordEnd(text, q)
      {
        s := s + 1;
      }
    }
    eq := s;
    SkipTokens(text, s);
    s := SkipSpace(text, s);
  }

  /** Some symbol of `toks` comes next. */
  predicate Next(ts: List<Token>, toks: seq<char>) {
    ts.Cons? && ts.head.Sym? && (if ts.head.c == '+' then '>' else ts.head.c) in toks
  }

  method Peek(text: seq<char>, s0: nat, toks: seq<char>) returns (b: bool, s: nat)
    requires s0 <= |text| && NulFree(text) && forall i :: 0 <= i < |toks| ==> Symbol(toks[i])
    ensures s == Skip(text, s0) && Tokens(text, s) == Tokens(text, s0)
    ensures b <==> Next(Tokens(text, s0), toks)
  {
    SkipTokens(text, s0);
    s := SkipSpace(text, s0);
    b := CharAt(text, s) != NUL && CharAt(text, s) in toks;
  }

  // --- The parsers ---

  /** With the redirections of r still to come, c is as far as c0 with those of r0. */
  ghost predicate SameRedirs(r: Res<List<Redir>>, c: Cmd, r0: Res<List<Redir>>, c0: Cmd) {
    match r
    case Fail => r0.Fail?
    case Ok(rs, rest) => r0.Ok? && rest == r0.rest && WithRedirs(c, rs) == WithRedirs(c0, r0.value)
  }

  lemma RedirStep(ts: List<Token>, c: Cmd, r0: Res<List<Redir>>, c0: Cmd)
    requires SameRedirs(Redirs(ts), c, r0, c0) && Next(ts, "<>")
    ensures ts.tail.Nil? || ts.tail.head.Sym? ==> r0.Fail?
    ensures ts.tail.Cons? && ts.tail.head.Word? ==>
      SameRedirs(Redirs(ts.tail.tail), WithRedir(c, Redir(ts.head.c, ts.tail.head.q, ts.tail.head.eq)), r0, c0)
  {
  }

  lemma RedirEnd(ts: List<Token>, c: Cmd, r0: Res<List<Redir>>, c0: Cmd)
    requires SameRedirs(Redirs(ts), c, r0, c0) && !Next(ts, "<>")
    ensures r0.Ok? && r0.rest == ts && WithRedirs(c0, r0.value) == c
  {
  }

  /** The parser has built cmd and stands before the tokens `rest`. */
  predicate Leaves(text: seq<char>, out: Out, cmd: Cmd, rest: List<Token>) {
    out.Parsed? && out.cmd == cmd && out.s <= |text| && Tokens(text, out.s) == rest
  }

  predicate RedirsOut(text: seq<char>, c0: Cmd, r: Res<List<Redir>>, out: Out) {
    if r.Fail? then out == Panic else Leaves(text, out, WithRedirs(c0, r.value), r.rest)
  }

  method ParseRedirs(c0: Cmd, text: seq<char>, s0: nat) returns (out: Out)
    requires s0 <= |text| && NulFree(text)
    ensures RedirsOut(text, c0, Redirs(Tokens(text, s0)), out)
  {
    var c, s: nat := c0, s0;
    ghost var ts := Tokens(text, s0);
    ghost var r0 := Redirs(ts);
    while true
      invariant s <= |text| && ts == Tokens(text, s) && SameRedirs(Redirs(ts), c, r0, c0)
      decreases ts
    {
      var more, tok, kind, q: nat, eq: nat;
      more, s := Peek(text, s, "<>");
      if !more {
        RedirEnd(ts, c, r0, c0);
        break;
      }
      RedirStep(ts, c, r0, c0);
      tok, q, eq, s := Gettoken(text, s);
      kind, q, eq, s := Gettoken(text, s);
      if kind != 'a' {
        return Panic;
      }
      if tok == '<' {
        c := RedirCmd(c, Span(q, eq), O_RDONLY, 0);
      } else if tok == '>' {
        c := RedirCmd(c, Span(q, eq), O_WRONLY + O_CREATE + O_TRUNC, 1);
      } else if tok == '+' {
        c := RedirCmd(c, Span(q, eq), O_WRONLY + O_CREATE, 1);
      }
      ts := ts.tail.tail;
    }
    return Parsed(c, s);
  }

  /** The words are filled in below the redirections that were read before them. */
  function SetArgv(c: Cmd, argv: seq<Span>): Cmd {
    match c
    case ExecCmd(_) => ExecCmd(argv)
    case RedirCmd(d, file, mode, fd) => RedirCmd(SetArgv(d, argv), file, mode, fd)
    case _ => c
  }

  /** What the loop of parseexec() makes of the words still to come. */
  function AddArgs(c: Cmd, argv: seq<Span>, args: List<Arg>): Cmd
    decreases args
  {
    match args
    case Nil => c
    case Cons(a, rest) =>
      var v := argv + [Span(a.q, a.eq)];
      AddArgs(WithRedirs(SetArgv(c, v), a.redirs), v, rest)
  }

  ghost predicate SameArgs(r: Res<List<Arg>>, c: Cmd, argv: seq<Span>, r0: Res<List<Arg>>, c0: Cmd) {
    match r
    case Fail => r0.Fail?
    case Ok(args, rest) => r0.Ok? && rest == r0.rest && AddArgs(c, argv, args) == AddArgs(c0, [], r0.value)
  }

  lemma ArgStep(ts: List<Token>, c: Cmd, argv: seq<Span>, r0: Res<List<Arg>>, c0: Cmd)
    requires SameArgs(Args(ts, |argv|), c, argv, r0, c0) && ts.Cons? && !Next(ts, "|)&;")
    ensures ts.head.Sym? || |argv| + 1 >= MAXARGS || Redirs(ts.tail).Fail? ==> r0.Fail?
    ensures ts.head.Word? && |argv| + 1 < MAXARGS && Redirs(ts.tail).Ok? ==>
      var v, r := argv + [Span(ts.head.q, ts.head.eq)], Redirs(ts.tail);
      SameArgs(Args(r.rest, |v|), WithRedirs(SetArgv(c, v), r.value), v, r0, c0)
  {
  }

  lemma ArgEnd(ts: List<Token>, c: Cmd, argv: seq<Span>, r0: Res<List<Arg>>, c0: Cmd)
    requires SameArgs(Args(ts, |argv|), c, argv, r0, c0) && (ts.Nil? || Next(ts, "|)&;"))
    ensures r0.Ok? && r0.rest == ts && AddArgs(c0, [], r0.value) == c
  {
  }

  predicate ArgsOut(text: seq<char>, c0: Cmd, r: Res<List<Arg>>, out: Out) {
    if r.Fail? then out == Panic else Leaves(text, out, AddArgs(c0, [], r.value), r.rest)
  }

  /** The loop of parseexec(). */
  method ParseArgs(c0: Cmd, text: seq<char>, s0: nat) returns (out: Out)
    requires s0 <= |text| && NulFree(text)
    ensures ArgsOut(text, c0, Args(Tokens(text, s0), 0), out)
  {
    var ret, argv, s: nat := c0, [], s0;
    ghost var ts := Tokens(text, s0);
    ghost var r0 := Args(ts, 0);
    while true
      invariant s <= |text| && |argv| < MAXARGS && ts == Tokens(text, s)
      invariant SameArgs(Args(ts, |argv|), ret, argv, r0, c0)
      decreases Length(ts)
    {
      var stop, tok, q: nat, eq: nat;
      stop, s := Peek(text, s, "|)&;");
      if stop {
        ArgEnd(ts, ret, argv, r0, c0);
        break;
      }
      tok, q, eq, s := Gettoken(text, s);
      if tok == NUL {
        ArgEnd(ts, ret, argv, r0, c0);
        break;
      }
      ArgStep(ts, ret, argv, r0, c0);
      if tok != 'a' {
        return Panic;
      }
      argv := argv + [Span(q, eq)];
      ret := SetArgv(ret, argv);
      if |argv| >= MAXARGS {
        return Panic;
      }
      var o := ParseRedirs(ret, text, s);
      if o.Panic? {
        return Panic;
      }
      ts := Redirs(ts.tail).rest;
      ret, s := o.cmd, o.s;
    }
    return Parsed(ret, s);
  }

  // --- The words below, the redirections above ---

  lemma {:induction false} WithRedirsAppend(c: Cmd, a: List<Redir>, b: List<Redir>)
    ensures WithRedirs(c, Append(a, b)) == WithRedirs(WithRedirs(c, a), b)
    decreases a
  {
    if a.Cons? { WithRedirsAppend(WithRedir(c, a.head), a.tail, b); }
  }

  lemma {:induction false} SetArgvRedirs(c: Cmd, rs: List<Redir>, v: seq<Span>)
    ensures SetArgv(WithRedirs(c, rs), v) == WithRedirs(SetArgv(c, v), rs)
    decreases rs
  {
    if rs.Cons? { SetArgvRedirs(WithRedir(c, rs.head), rs.tail, v); }
  }

  lemma {:induction false} SetArgvTwice(c: Cmd, u: seq<Span>, v: seq<Span>)
    ensures SetArgv(SetArgv(c, u), v) == SetArgv(c, v)
  {
    if c.RedirCmd? { SetArgvTwice(c.cmd, u, v); }
  }

  /** Reading words and redirections mixed gives all words, in all redirections. */
  lemma {:induction false} AddArgsIs(c: Cmd, argv: seq<Span>, args: List<Arg>)
    requires SetArgv(c, argv) == c
    ensures AddArgs(c, argv, args) == WithRedirs(SetArgv(c, argv + Words(args)), ArgRedirs(args))
    decreases args
  {
    match args
    case Nil =>
      assert argv + [] == argv;
    case Cons(a, rest) =>
      var v := argv + [Span(a.q, a.eq)];
      var d := WithRedirs(SetArgv(c, v), a.redirs);
      SetArgvTwice(c, v, v);
      SetArgvRedirs(SetArgv(c, v), a.redirs, v);
      AddArgsIs(d, v, rest);
      var w := v + Words(rest);
      assert argv + Words(args) == w;
      SetArgvRedirs(SetArgv(c, v), a.redirs, w);
      SetArgvTwice(c, v, w);
      WithRedirsAppend(SetArgv(c, w), a.redirs, ArgRedirs(rest));
  }

  lemma SimpleIs(first: List<Redir>, args: List<Arg>)
    ensures AddArgs(WithRedirs(ExecCmd([]), first), [], args) == ExecOf(Simple(first, args))
  {
    var c := WithRedirs(ExecCmd([]), first);
    SetArgvRedirs(ExecCmd([]), first, []);
    AddArgsIs(c, [], args);
    assert [] + Words(args) == Words(args);
    SetArgvRedirs(ExecCmd([]), first, Words(args));
    WithRedirsAppend(ExecCmd(Words(args)), first, ArgRedirs(args));
  }

  // --- The recursive parsers ---

  predicate ExecOut(text: seq<char>, r: Res<Exec>, out: Out) {
    if r.Fail? then out == Panic else Leaves(text, out, ExecOf(r.value), r.rest)
  }

  predicate PipeOut(text: seq<char>, r: Res<Pipeline>, out: Out) {
    if r.Fail? then out == Panic else Leaves(text, out, PipeOf(r.value), r.rest)
  }

  predicate LineOut(text: seq<char>, r: Res<Line>, out: Out) {
    if r.Fail? then out == Panic else Leaves(text, out, LineOf(r.value), r.rest)
  }

  method ParseBlock(text: seq<char>, s0: nat) returns (out: Out)
    requires s0 <= |text| && NulFree(text)
    ensures !At(Tokens(text, s0), '(') ==> out == Panic
    ensures At(Tokens(text, s0), '(') ==> ExecOut(text, ParseExec(Tokens(text, s0)), out)
    decreases Length(Tokens(text, s0)), 0
  {
    var b, s: nat := Peek(text, s0, "(");
    if !b {
      return Panic;
    }
    var tok, q, eq;
    tok, q, eq, s := Gettoken(text, s);
    var l := ParseLineAt(text, s);
    if l.Panic? {
      return Panic;
    }
    b, s := Peek(text, l.s, ")");
    if !b {
      return Panic;
    }
    tok, q, eq, s := Gettoken(text, s);
    out := ParseRedirs(l.cmd, text, s);
  }

  method ParseExecAt(text: seq<char>, s0: nat) returns (out: Out)
    requires s0 <= |text| && NulFree(text)
    ensures ExecOut(text, ParseExec(Tokens(text, s0)), out)
    decreases Length(Tokens(text, s0)), 1
  {
    var b, s := Peek(text, s0, "(");
    if b {
      out := ParseBlock(text, s);
      return;
    }
    out := ParseRedirs(ExecCmd([]), text, s);
    if out.Panic? {
      return;
    }
    ghost var r := Redirs(Tokens(text, s));
    out := ParseArgs(out.cmd, text, out.s);
    if out.Parsed? {
      SimpleIs(r.value, Args(r.rest, 0).value);
    }
  }

  method ParsePipeAt(text: seq<char>, s0: nat) returns (out: Out)
    requires s0 <= |text| && NulFree(text)
    ensures PipeOut(text, ParsePipe(Tokens(text, s0)), out)
    decreases Length(Tokens(text, s0)), 2
  {
    out := ParseExecAt(text, s0);
    if out.Panic? {
      return;
    }
    var b, s: nat := Peek(text, out.s, "|");
    if b {
      var tok, q, eq;
      tok, q, eq, s := Gettoken(text, s);
      var right := ParsePipeAt(text, s);
      if right.Panic? {
        return Panic;
      }
      return Parsed(PipeCmd(out.cmd, right.cmd), right.s);
    }
    return Parsed(out.cmd, s);
  }

  /** The loop of parseline(). */
  method ParseAmps(c0: Cmd, text: seq<char>, s0: nat) returns (c: Cmd, s: nat)
    requires s0 <= |text| && NulFree(text)
    ensures s <= |text| && Tokens(text, s) == Amps(Tokens(text, s0)).1 && c == Backs(c0, Amps(Tokens(text, s0)).0)
  {
    c, s := c0, s0;
    ghost var ts := Tokens(text, s);
    ghost var a := Amps(ts);
    while true
      invariant s <= |text| && ts == Tokens(text, s) && Amps(ts).1 == a.1 && Backs(c, Amps(ts).0) == Backs(c0, a.0)
      decreases ts
    {
      var b;
      b, s := Peek(text, s, "&");
      if !b {
        break;
      }
      var tok, q, eq;
      tok, q, eq, s := Gettoken(text, s);
      c := BackCmd(c);
      ts := ts.tail;
    }
  }

  method ParseLineAt(text: seq<char>, s0: nat) returns (out: Out)
    requires s0 <= |text| && NulFree(text)
    ensures LineOut(text, ParseLine(Tokens(text, s0)), out)
    decreases Length(Tokens(text, s0)), 3
  {
    out := ParsePipeAt(text, s0);
    if out.Panic? {
      return;
    }
    var c, s: nat := ParseAmps(out.cmd, text, out.s);
    var b;
    b, s := Peek(text, s, ";");
    if b {
      var tok, q, eq;
      tok, q, eq, s := Gettoken(text, s);
      var right := ParseLineAt(text, s);
      if right.Panic? {
        return Panic;
      }
      return Parsed(ListCmd(c, right.cmd), right.s);
    }
    return Parsed(c, s);
  }

  // --- Words in the buffer ---

  /** A word of the text, no longer and no shorter. */
  ghost predicate GoodSpan(text: seq<char>, q: nat, eq: nat) {
    && q < eq <= |text| && (forall i :: q <= i < eq ==> WordChar(text[i]))
    && (eq < |text| ==> !WordChar(text[eq]))
  }

  ghost predicate GoodWords(text: seq<char>, ts: List<Token>) {
    ts.Cons? ==> (ts.head.Word? ==> GoodSpan(text, ts.head.q, ts.head.eq)) && GoodWords(text, ts.tail)
  }

  ghost predicate GoodCmd(text: seq<char>, c: Cmd) {
    match c
    case ExecCmd(argv) => forall i :: 0 <= i < |argv| ==> GoodSpan(text, argv[i].q, argv[i].eq)
    case RedirCmd(d, file, _, _) => GoodCmd(text, d) && GoodSpan(text, file.q, file.eq)
    case PipeCmd(l, r) => GoodCmd(text, l) && GoodCmd(text, r)
    case ListCmd(l, r) => GoodCmd(text, l) && GoodCmd(text, r)
    case BackCmd(d) => GoodCmd(text, d)
  }

  lemma {:induction false} TokensGood(text: seq<char>, s: nat)
    requires s <= |text|
    ensures GoodWords(text, Tokens(text, s))
    decreases |text| - s
  {
    var p := Skip(text, s);
    if p < |text| { TokensGood(text, TokenAt(text, p).1); }
  }

  ghost predicate GoodRedirSpans(text: seq<char>, rs: List<Redir>) {
    rs.Cons? ==> GoodSpan(text, rs.head.q, rs.head.eq) && GoodRedirSpans(text, rs.tail)
  }

  lemma {:induction false} RedirsGood(text: seq<char>, rs: List<Redir>, more: List<Token>)
    requires GoodWords(text, RedirTokens(rs, more))
    ensures GoodRedirSpans(text, rs) && GoodWords(text, more)
  {
    if rs.Cons? {
      var ts := RedirTokens(rs, more);
      assert GoodWords(text, ts.tail);
      RedirsGood(text, rs.tail, more);
    }
  }

  lemma {:induction false} WithRedirsGood(text: seq<char>, c: Cmd, rs: List<Redir>)
    requires GoodCmd(text, c) && GoodRedirSpans(text, rs)
    ensures GoodCmd(text, WithRedirs(c, rs))
    decreases rs
  {
    if rs.Cons? { WithRedirsGood(text, WithRedir(c, rs.head), rs.tail); }
  }

  lemma {:induction false} AppendGood(text: seq<char>, a: List<Redir>, b: List<Redir>)
    requires GoodRedirSpans(text, a) && GoodRedirSpans(text, b)
    ensures GoodRedirSpans(text, Append(a, b))
  {
    if a.Cons? { AppendGood(text, a.tail, b); }
  }

  lemma {:induction false} ArgsGood(text: seq<char>, args: List<Arg>, more: List<Token>)
    requires GoodWords(text, ArgTokens(args, more))
    ensures GoodCmd(text, ExecCmd(Words(args))) && GoodRedirSpans(text, ArgRedirs(args)) && GoodWords(text, more)
  {
    if args.Cons? {
      RedirsGood(text, args.head.redirs, ArgTokens(args.tail, more));
      ArgsGood(text, args.tail, more);
      AppendGood(text, args.head.redirs, ArgRedirs(args.tail));
    }
  }

  lemma {:induction false} ExecGood(text: seq<char>, e: Exec, more: List<Token>)
    requires GoodWords(text, ExecTokens(e, more))
    ensures GoodCmd(text, ExecOf(e)) && GoodWords(text, more)
  {
    match e
    case Simple(first, args) =>
      RedirsGood(text, first, ArgTokens(args, more));
      ArgsGood(text, args, more);
      AppendGood(text, first, ArgRedirs(args));
      WithRedirsGood(text, ExecCmd(Words(args)), Append(first, ArgRedirs(args)));
    case Block(line, redirs) =>
      LineGood(text, line, Cons(Sym(')'), RedirTokens(redirs, more)));
      RedirsGood(text, redirs, more);
      WithRedirsGood(text, LineOf(line), redirs);
  }

  lemma {:induction false} PipeGood(text: seq<char>, p: Pipeline, more: List<Token>)
    requires GoodWords(text, PipeTokens(p, more))
    ensures GoodCmd(text, PipeOf(p)) && GoodWords(text, more)
  {
    match p
    case One(e) => ExecGood(text, e, more);
    case Piped(e, next) =>
      ExecGood(text, e, Cons(Sym('|'), PipeTokens(next, more)));
      PipeGood(text, next, more);
  }

  lemma {:induction false} AmpsGood(text: seq<char>, c: Cmd, n: nat, more: List<Token>)
    requires GoodWords(text, AmpTokens(n, more)) && GoodCmd(text, c)
    ensures GoodWords(text, more) && GoodCmd(text, Backs(c, n))
    decreases n
  {
    if n > 0 { AmpsGood(text, BackCmd(c), n - 1, more); }
  }

  lemma {:induction false} LineGood(text: seq<char>, l: Line, more: List<Token>)
    requires GoodWords(text, LineTokens(l, more))
    ensures GoodCmd(text, LineOf(l)) && GoodWords(text, more)
  {
    match l
    case Last(p, n) =>
      PipeGood(text, p, AmpTokens(n, more));
      AmpsGood(text, PipeOf(p), n, more);
    case Then(p, n, next) =>
      var rest := Cons(Sym(';'), LineTokens(next, more));
      PipeGood(text, p, AmpTokens(n, rest));
      AmpsGood(text, PipeOf(p), n, rest);
      LineGood(text, next, more);
  }

  // --- nulterminate() ---

  function WordEnds(argv: seq<Span>): (r: set<nat>)
    ensures forall i :: 0 <= i < |argv| ==> argv[i].eq in r
  {
    if argv == [] then {} else WordEnds(argv[..|argv| - 1]) + {argv[|argv| - 1].eq}
  }

  function Ends(c: Cmd): set<nat> {
    match c
    case ExecCmd(argv) => WordEnds(argv)
    case RedirCmd(d, file, _, _) => Ends(d) + {file.eq}
    case PipeCmd(l, r) => Ends(l) + Ends(r)
    case ListCmd(l, r) => Ends(l) + Ends(r)
    case BackCmd(d) => Ends(d)
  }

  method Nulterminate(buf: array<char>, c: Cmd)
    requires forall e :: e in Ends(c) ==> e < buf.Length
    modifies buf
    ensures forall i :: 0 <= i < buf.Length ==> buf[i] == if i in Ends(c) then NUL else old(buf[i])
    decreases c
  {
    match c
    case ExecCmd(argv) =>
      var i := 0;
      while i < |argv|
        invariant i <= |argv|
        invariant forall j :: 0 <= j < buf.Length ==> buf[j] == if j in WordEnds(argv[..i]) then NUL else old(buf[j])
      {
        assert argv[..i + 1][..i] == argv[..i] && argv[i].eq in Ends(c);
        buf[argv[i].eq] := NUL;
        i := i + 1;
      }
      assert argv[..|argv|] == argv;
    case RedirCmd(d, file, _, _) =>
      assert Ends(d) + {file.eq} == Ends(c);
      Nulterminate(buf, d);
      buf[file.eq] := NUL;
    case PipeCmd(l, r) =>
      assert Ends(l) + Ends(r) == Ends(c);
      Nulterminate(buf, l);
      Nulterminate(buf, r);
    case ListCmd(l, r) =>
      assert Ends(l) + Ends(r) == Ends(c);
      Nulterminate(buf, l);
      Nulterminate(buf, r);
    case BackCmd(d) =>
      assert Ends(d) == Ends(c);
      Nulterminate(buf, d);
  }

  /** The string at q, as C reads it. */
  function CString(b: seq<char>, q: nat): seq<char>
    decreases |b| - q
  {
    if q < |b| && b[q] != NUL then [b[q]] + CString(b, q + 1) else []
  }

  lemma {:induction false} CStringIs(b: seq<char>, q: nat, eq: nat)
    requires q <= eq < |b| && b[eq] == NUL && forall i :: q <= i < eq ==> b[i] != NUL
    ensures CString(b, q) == b[q..eq]
    decreases eq - q
  {
    if q < eq {
      CStringIs(b, q + 1, eq);
      assert b[q..eq] == [b[q]] + b[q + 1..eq];
    }
  }

  /** Every word and file name of the command reads in b as in the text. */
  ghost predicate ReadsAs(b: seq<char>, text: seq<char>, c: Cmd)
    requires GoodCmd(text, c)
  {
    match c
    case ExecCmd(argv) => forall i :: 0 <= i < |argv| ==> CString(b, argv[i].q) == text[argv[i].q..argv[i].eq]
    case RedirCmd(d, file, _, _) => ReadsAs(b, text, d) && CString(b, file.q) == text[file.q..file.eq]
    case PipeCmd(l, r) => ReadsAs(b, text, l) && ReadsAs(b, text, r)
    case ListCmd(l, r) => ReadsAs(b, text, l) && ReadsAs(b, text, r)
    case BackCmd(d) => ReadsAs(b, text, d)
  }

  /** b is the text with a NUL at the places of `ends`, and these are not in words. */
  ghost predicate Cut(b: seq<char>, text: seq<char>, ends: set<nat>) {
    && |b| > |text| && NulFree(text)
    && (forall i :: 0 <= i < |text| ==> b[i] == if i in ends then NUL else text[i])
    && (forall e :: e in ends ==> e <= |text| && b[e] == NUL && (e < |text| ==> !WordChar(text[e])))
  }

  lemma CutSpan(b: seq<char>, text: seq<char>, ends: set<nat>, q: nat, eq: nat)
    requires Cut(b, text, ends) && GoodSpan(text, q, eq) && eq in ends
    ensures CString(b, q) == text[q..eq]
  {
    CStringIs(b, q, eq);
    assert b[q..eq] == text[q..eq];
  }

  lemma {:induction false} CutReads(b: seq<char>, text: seq<char>, ends: set<nat>, c: Cmd)
    requires GoodCmd(text, c) && Cut(b, text, ends) && Ends(c) <= ends
    ensures ReadsAs(b, text, c)
    decreases c
  {
    match c
    case ExecCmd(argv) =>
      forall i | 0 <= i < |argv| ensures CString(b, argv[i].q) == text[argv[i].q..argv[i].eq] {
        CutSpan(b, text, ends, argv[i].q, argv[i].eq);
      }
    case RedirCmd(d, file, _, _) =>
      CutReads(b, text, ends, d);
      CutSpan(b, text, ends, file.q, file.eq);
    case PipeCmd(l, r) =>
      CutReads(b, text, ends, l);
      CutReads(b, text, ends, r);
    case ListCmd(l, r) =>
      CutReads(b, text, ends, l);
      CutReads(b, text, ends, r);
    case BackCmd(d) => CutReads(b, text, ends, d);
  }

  lemma {:induction false} WordEndsGood(text: seq<char>, argv: seq<Span>)
    requires GoodCmd(text, ExecCmd(argv))
    ensures forall e :: e in WordEnds(argv) ==> e <= |text| && (e < |text| ==> !WordChar(text[e]))
  {
    if argv != [] { WordEndsGood(text, argv[..|argv| - 1]); }
  }

  lemma {:induction false} EndsGood(text: seq<char>, c: Cmd)
    requires GoodCmd(text, c)
    ensures forall e :: e in Ends(c) ==> e <= |text| && (e < |text| ==> !WordChar(text[e]))
  {
    match c
    case ExecCmd(argv) => WordEndsGood(text, argv);
    case RedirCmd(d, _, _, _) => EndsGood(text, d);
    case PipeCmd(l, r) => EndsGood(text, l); EndsGood(text, r);
    case ListCmd(l, r) => EndsGood(text, l); EndsGood(text, r);
    case BackCmd(d) => EndsGood(text, d);
  }

  // --- parsecmd() ---

  method Strlen(buf: array<char>) returns (n: nat)
    requires NUL in buf[..]
    ensures n < buf.Length && buf[n] == NUL && NulFree(buf[..n])
  {
    n := 0;
    while buf[n] != NUL
      invariant n < buf.Length && NUL in buf[n..] && NulFree(buf[..n])
      decreases buf.Length - n
    {
      n := n + 1;
    }
  }

  /** The text is a sentence of the grammar, written with any white space. */
  ghost predicate Writes(text: seq<char>, l: Line) {
    GoodLine(l) && Spells(text, 0, LineTokens(l, Nil))
  }

  /** What parseline() and the test for leftovers say about the text. */
  lemma LineIff(text: seq<char>)
    ensures forall l :: Writes(text, l) ==> ParseLine(Tokens(text, 0)) == Ok(l, Nil)
    ensures var r := ParseLine(Tokens(text, 0)); r.Ok? && r.rest == Nil ==> Writes(text, r.value)
  {
    forall l | Writes(text, l) ensures ParseLine(Tokens(text, 0)) == Ok(l, Nil) {
      SpellsTokens(text, 0, LineTokens(l, Nil));
      LineComplete(l, Nil);
    }
    var r := ParseLine(Tokens(text, 0));
    if r.Ok? && r.rest == Nil {
      LineSound(Tokens(text, 0));
      TokensSpell(text, 0);
    }
  }

  method ParseCmd(buf: array<char>) returns (out: Out, ghost text: seq<char>)
    requires NUL in buf[..]
    modifies buf
    ensures NulFree(text) && |text| < buf.Length && old(buf[..|text|]) == text && old(buf[|text|]) == NUL
    ensures forall l :: Writes(text, l) ==> out.Parsed? && out.cmd == LineOf(l)
    ensures out.Parsed? ==> exists l :: Writes(text, l)
    ensures out.Panic? ==> buf[..] == old(buf[..])
    ensures out.Parsed? ==> GoodCmd(text, out.cmd) && ReadsAs(buf[..], text, out.cmd)
  {
    var n := Strlen(buf);
    var line := buf[..n];
    text := line;
    LineIff(line);
    out := ParseLineAt(line, 0);
    if out.Panic? {
      return;
    }
    var b, s := Peek(line, out.s, "");
    if s != n {
      return Panic, line;
    }
    ghost var r := ParseLine(Tokens(line, 0));
    TokensGood(line, 0);
    LineSound(Tokens(line, 0));
    LineGood(line, r.value, Nil);
    EndsGood(line, out.cmd);
    Nulterminate(buf, out.cmd);
    CutReads(buf[..], line, Ends(out.cmd), out.cmd);
  }
}
