/** The command parser of user/sh.c: gettoken, peek, the recursive-descent functions and nulterminate.
    A line is its characters up to the terminating NUL; positions index into it. */
module ShellParser {

  const MAXARGS: nat := 10
  const NUL: char := 0 as char

  predicate IsSpace(c: char) { c == ' ' || c == '\t' || c == '\r' || c == '\n' || c == 11 as char }

  predicate IsSymbol(c: char) { c == '<' || c == '|' || c == '>' || c == '&' || c == ';' || c == '(' || c == ')' }

  predicate IsWord(c: char) { !IsSpace(c) && !IsSymbol(c) && c != NUL }

  /** The character at a position; the line ends with a NUL. */
  function At(s: string, i: nat): char { if i < |s| then s[i] else NUL }

  /** A C string holds no NUL before its end. */
  predicate IsLine(s: string) { forall i :: 0 <= i < |s| ==> s[i] != NUL }

  /** A token in the line: from q up to, not including, eq. */
  datatype Span = Span(q: nat, eq: nat)

  datatype Redirect = Redirect(file: Span, kind: char)

  datatype Cmd =
    | Exec(args: seq<Span>)
    | Redir(cmd: Cmd, redirect: Redirect)
    | Pipe(left: Cmd, right: Cmd)
    | List(left: Cmd, right: Cmd)
    | Back(cmd: Cmd)

  datatype Message = MissingFile | MissingParen | Syntax | TooManyArgs | Leftovers

  /** A parsed value and the position after it, or the panic. */
  datatype Result<T> = Ok(value: T, pos: nat) | Panic(message: Message)

  datatype Token = Token(kind: char, q: nat, eq: nat, next: nat)

  // ---- Tokens ----

  function Skip(s: string, i: nat): (r: nat)
    requires i <= |s|
    ensures i <= r <= |s|
    decreases |s| - i
  {
    if i < |s| && IsSpace(s[i]) then Skip(s, i + 1) else i
  }

  function WordEnd(s: string, i: nat): (r: nat)
    requires i <= |s|
    ensures i <= r <= |s|
    decreases |s| - i
  {
    if i < |s| && IsWord(s[i]) then WordEnd(s, i + 1) else i
  }

  /** The token at or after i; kind is the symbol, '+' for >>, 'a' for a word, NUL at the end. */
  function TokenAt(s: string, i: nat): (t: Token)
    requires i <= |s|
    ensures i <= t.q <= t.eq <= t.next <= |s|
    ensures t.kind != NUL && IsLine(s) ==> t.q < t.eq
  {
    var q := Skip(s, i);
    var c := At(s, q);
    SkipStops(s, i);
    if c == NUL then Token(NUL, q, q, Skip(s, q))
    else if c == '>' then
      if At(s, q + 1) == '>' then Token('+', q, q + 2, Skip(s, q + 2)) else Token('>', q, q + 1, Skip(s, q + 1))
    else if IsSymbol(c) then Token(c, q, q + 1, Skip(s, q + 1))
    else
      var eq := WordEnd(s, q);
      Token('a', q, eq, Skip(s, eq))
  }

  lemma {:induction false} SkipStops(s: string, i: nat)
    requires i <= |s|
    ensures Skip(s, i) < |s| ==> !IsSpace(s[Skip(s, i)])
    decreases |s| - i
  {
    if i < |s| && IsSpace(s[i]) { SkipStops(s, i + 1); }
  }

  lemma {:induction false} WordStops(s: string, i: nat)
    requires i <= |s|
    ensures WordEnd(s, i) < |s| ==> !IsWord(s[WordEnd(s, i)])
    ensures forall j :: i <= j < WordEnd(s, i) ==> IsWord(s[j])
    decreases |s| - i
  {
    if i < |s| && IsWord(s[i]) { WordStops(s, i + 1); }
  }

  // ---- Grammar ----

  /** parseredirs: the redirections at i, in order. */
  function Redirs(s: string, i: nat): (r: Result<seq<Redirect>>)
    requires i <= |s| && IsLine(s)
    ensures r.Ok? ==> i <= r.pos <= |s|
    decreases |s| - i
  {
    var p := Skip(s, i);
    if At(s, p) != '<' && At(s, p) != '>' then Ok([], p)
    else
      var t := TokenAt(s, p);
      var u := TokenAt(s, t.next);
      if u.kind != 'a' then Panic(MissingFile)
      else
        match Redirs(s, u.next)
        case Panic(m) => Panic(m)
        case Ok(rs, q) => Ok([Redirect(Span(u.q, u.eq), t.kind)] + rs, q)
  }

  /** The argument loop of parseexec, with argc arguments so far: the further arguments and redirections. */
  function Args(s: string, i: nat, argc: nat): (r: Result<(seq<Span>, seq<Redirect>)>)
    requires i <= |s| && IsLine(s)
    ensures r.Ok? ==> i <= r.pos <= |s|
    decreases |s| - i
  {
    var p := Skip(s, i);
    var c := At(s, p);
    if c == '|' || c == ')' || c == '&' || c == ';' then Ok(([], []), p)
    else
      var t := TokenAt(s, p);
      if t.kind == NUL then Ok(([], []), t.next)
      else if t.kind != 'a' then Panic(Syntax)
      else if argc + 1 >= MAXARGS then Panic(TooManyArgs)
      else
        match Redirs(s, t.next)
        case Panic(m) => Panic(m)
        case Ok(rs, q) =>
          match Args(s, q, argc + 1)
          case Panic(m) => Panic(m)
          case Ok(more, e) => Ok(([Span(t.q, t.eq)] + more.0, rs + more.1), e)
  }

  /** Redirections wrap the command from the first, innermost, to the last. */
  function Wrap(c: Cmd, rs: seq<Redirect>): Cmd
    decreases |rs|
  {
    if rs == [] then c else Wrap(Redir(c, rs[0]), rs[1..])
  }

  function ParseLine(s: string, i: nat): (r: Result<Cmd>)
    requires i <= |s| && IsLine(s)
    ensures r.Ok? ==> i <= r.pos <= |s|
    decreases |s| - i, 3
  {
    match ParsePipe(s, i)
    case Panic(m) => Panic(m)
    case Ok(c, p) =>
      var b := Backs(s, c, p);
      if At(s, b.1) == ';' then
        match ParseLine(s, TokenAt(s, b.1).next)
        case Panic(m) => Panic(m)
        case Ok(d, q) => Ok(List(b.0, d), q)
      else Ok(b.0, b.1)
  }

  /** parseline's loop over &. */
  function Backs(s: string, c: Cmd, i: nat): (r: (Cmd, nat))
    requires i <= |s| && IsLine(s)
    ensures i <= r.1 <= |s|
    decreases |s| - i
  {
    var p := Skip(s, i);
    if At(s, p) == '&' then Backs(s, Back(c), TokenAt(s, p).next) else (c, p)
  }

  function ParsePipe(s: string, i: nat): (r: Result<Cmd>)
    requires i <= |s| && IsLine(s)
    ensures r.Ok? ==> i <= r.pos <= |s|
    decreases |s| - i, 2
  {
    match ParseExec(s, i)
    case Panic(m) => Panic(m)
    case Ok(c, p) =>
      var p' := Skip(s, p);
      if At(s, p') == '|' then
        match ParsePipe(s, TokenAt(s, p').next)
        case Panic(m) => Panic(m)
        case Ok(d, q) => Ok(Pipe(c, d), q)
      else Ok(c, p')
  }

  function ParseBlock(s: string, i: nat): (r: Result<Cmd>)
    requires i < |s| && IsLine(s) && s[i] == '('
    ensures r.Ok? ==> i <= r.pos <= |s|
    decreases |s| - i, 0
  {
    match ParseLine(s, TokenAt(s, i).next)
    case Panic(m) => Panic(m)
    case Ok(c, p) =>
      var p' := Skip(s, p);
      if At(s, p') != ')' then Panic(MissingParen)
      else
        match Redirs(s, TokenAt(s, p').next)
        case Panic(m) => Panic(m)
        case Ok(rs, q) => Ok(Wrap(c, rs), q)
  }

  function ParseExec(s: string, i: nat): (r: Result<Cmd>)
    requires i <= |s| && IsLine(s)
    ensures r.Ok? ==> i <= r.pos <= |s|
    decreases |s| - i, 1
  {
    var p := Skip(s, i);
    if At(s, p) == '(' then ParseBlock(s, p)
    else
      match Redirs(s, p)
      case Panic(m) => Panic(m)
      case Ok(rs, q) =>
        match Args(s, q, 0)
        case Panic(m) => Panic(m)
        case Ok(more, e) => Ok(Wrap(Exec(more.0), rs + more.1), e)
  }

  /** parsecmd: the whole line, or a panic on what is left over. */
  function ParseCmd(s: string): (r: Result<Cmd>)
    requires IsLine(s)
  {
    match ParseLine(s, 0)
    case Panic(m) => Panic(m)
    case Ok(c, p) => if Skip(s, p) != |s| then Panic(Leftovers) else Ok(c, |s|)
  }

  // ---- The parser as it runs ----

  method GetToken(s: string, ps: nat) returns (kind: char, q: nat, eq: nat, next: nat)
    requires ps <= |s| && IsLine(s)
    ensures Token(kind, q, eq, next) == TokenAt(s, ps)
  {
    q := SkipSpace(s, ps);
    SkipStops(s, ps);
    kind, eq := At(s, q), q;
    if kind == NUL {
    } else if kind == '>' {
      eq := eq + 1;
      if At(s, eq) == '>' { kind, eq := '+', eq + 1; }
    } else if IsSymbol(kind) {
      eq := eq + 1;
    } else {
      kind := 'a';
      while eq < |s| && !IsSpace(s[eq]) && !IsSymbol(s[eq])
        invariant q <= eq <= |s| && WordEnd(s, q) == WordEnd(s, eq)
      {
        eq := eq + 1;
      }
    }
    next := SkipSpace(s, eq);
  }

  method SkipSpace(s: string, ps: nat) returns (i: nat)
    requires ps <= |s|
    ensures i == Skip(s, ps)
  {
    i := ps;
    while i < |s| && IsSpace(s[i])
      invariant ps <= i <= |s| && Skip(s, ps) == Skip(s, i)
    {
      i := i + 1;
    }
  }

  method Peek(s: string, ps: nat, toks: string) returns (found: bool, next: nat)
    requires ps <= |s| && IsLine(s)
    ensures next == Skip(s, ps) && found == (next < |s| && s[next] in toks)
  {
    next := SkipSpace(s, ps);
    found := next < |s| && s[next] in toks;
  }

  method Parseredirs(s: string, ps: nat) returns (r: Result<seq<Redirect>>)
    requires ps <= |s| && IsLine(s)
    ensures r == Redirs(s, ps)
  {
    hide Skip, TokenAt, Redirs, IsLine;
    var rs, i := [], ps;
    Unchanged(Redirs(s, ps));
    var more, p := Peek(s, i, "<>");
    while more
      invariant i <= |s| && p == Skip(s, i) && more == (p < |s| && s[p] in "<>")
      invariant Redirs(s, ps) == Behind(rs, Redirs(s, i))
      decreases |s| - i
    {
      RedirsStep(s, i);
      var tok, q0, eq0, n := GetToken(s, p);
      var kind, q, eq, n' := GetToken(s, n);
      if kind != 'a' { return Panic(MissingFile); }
      BehindMore(rs, Redirect(Span(q, eq), tok), Redirs(s, n'));
      rs, i := rs + [Redirect(Span(q, eq), tok)], n';
      more, p := Peek(s, i, "<>");
    }
    RedirsStep(s, i);
    assert rs + [] == rs;
    return Ok(rs, p);
  }

  function Behind(rs: seq<Redirect>, r: Result<seq<Redirect>>): Result<seq<Redirect>> {
    match r
    case Panic(m) => Panic(m)
    case Ok(more, q) => Ok(rs + more, q)
  }

  lemma Unchanged(r: Result<seq<Redirect>>)
    ensures Behind([], r) == r
  {
    if r.Ok? { assert [] + r.value == r.value; }
  }

  lemma BehindMore(rs: seq<Redirect>, d: Redirect, r: Result<seq<Redirect>>)
    ensures Behind(rs, Behind([d], r)) == Behind(rs + [d], r)
  {
    if r.Ok? { assert rs + ([d] + r.value) == (rs + [d]) + r.value; }
  }

  /** One turn of parseredirs. */
  lemma RedirsStep(s: string, i: nat)
    requires i <= |s| && IsLine(s)
    ensures var p := Skip(s, i); var t := TokenAt(s, p); var u := TokenAt(s, t.next);
            if p < |s| && s[p] in "<>"
            then i < u.next <= |s|
                 && Redirs(s, i) == if u.kind != 'a' then Panic(MissingFile)
                                    else Behind([Redirect(Span(u.q, u.eq), t.kind)], Redirs(s, u.next))
            else Redirs(s, i) == Ok([], p)
  {
  }

  method Parseexec(s: string, ps: nat) returns (r: Result<Cmd>)
    requires ps <= |s| && IsLine(s)
    ensures r == ParseExec(s, ps)
    decreases |s| - ps, 1
  {
    var open, p := Peek(s, ps, "(");
    if open {
      SkipTwice(s, ps);
      r := Parseblock(s, p);
      return;
    }
    var first := Parseredirs(s, p);
    if first.Panic? { return Panic(first.message); }
    var more := Arguments(s, first.pos);
    if more.Panic? { return Panic(more.message); }
    return Ok(Wrap(Exec(more.value.0), first.value + more.value.1), more.pos);
  }

  /** parseexec's loop: args plays argv and eargv, its length argc. */
  method Arguments(s: string, ps: nat) returns (r: Result<(seq<Span>, seq<Redirect>)>)
    requires ps <= |s| && IsLine(s)
    ensures r == Args(s, ps, 0)
  {
    hide Skip, TokenAt, Redirs, Args, IsLine;
    var args, rs, i := [], [], ps;
    AfterNone(Args(s, ps, 0));
    var stop, p := Peek(s, i, "|)&;");
    while !stop
      invariant i <= |s| && p == Skip(s, i) && stop == (p < |s| && s[p] in "|)&;")
      invariant Args(s, ps, 0) == After(args, rs, Args(s, i, |args|))
      decreases |s| - i
    {
      ArgsStep(s, i, |args|);
      var tok, q, eq, n := GetToken(s, p);
      if tok == NUL {
        AfterNothing(args, rs, n);
        return Ok((args, rs), n);
      }
      if tok != 'a' { return Panic(Syntax); }
      if |args| + 1 >= MAXARGS { return Panic(TooManyArgs); }
      var d := Parseredirs(s, n);
      if d.Panic? { return Panic(d.message); }
      AfterMore(args, rs, Span(q, eq), d.value, Args(s, d.pos, |args| + 1));
      args, rs, i := args + [Span(q, eq)], rs + d.value, d.pos;
      stop, p := Peek(s, i, "|)&;");
    }
    ArgsStep(s, i, |args|);
    AfterNothing(args, rs, p);
    return Ok((args, rs), p);
  }

  /** One turn of parseexec's loop. */
  lemma ArgsStep(s: string, i: nat, argc: nat)
    requires i <= |s| && IsLine(s)
    ensures var p := Skip(s, i); var t := TokenAt(s, p);
            if p < |s| && s[p] in "|)&;" then Args(s, i, argc) == Ok(([], []), p)
            else if t.kind == NUL then Args(s, i, argc) == Ok(([], []), t.next)
            else if t.kind != 'a' then Args(s, i, argc) == Panic(Syntax)
            else if argc + 1 >= MAXARGS then Args(s, i, argc) == Panic(TooManyArgs)
            else i < t.next && match Redirs(s, t.next)
              case Panic(m) => Args(s, i, argc) == Panic(m)
              case Ok(rs, q) => i < q <= |s| && Args(s, i, argc) == After([Span(t.q, t.eq)], rs, Args(s, q, argc + 1))
  {
  }

  lemma AfterNone(r: Result<(seq<Span>, seq<Redirect>)>)
    ensures After([], [], r) == r
  {
    if r.Ok? { assert [] + r.value.0 == r.value.0 && [] + r.value.1 == r.value.1; }
  }

  /** What was collected so far, in front of what follows. */
  function After(args: seq<Span>, rs: seq<Redirect>, r: Result<(seq<Span>, seq<Redirect>)>)
    : Result<(seq<Span>, seq<Redirect>)>
  {
    match r
    case Panic(m) => Panic(m)
    case Ok(more, q) => Ok((args + more.0, rs + more.1), q)
  }

  lemma AfterNothing(args: seq<Span>, rs: seq<Redirect>, p: nat)
    ensures After(args, rs, Ok(([], []), p)) == Ok((args, rs), p)
  {
    assert args + [] == args && rs + [] == rs;
  }

  lemma AfterMore(args: seq<Span>, rs: seq<Redirect>, a: Span, ds: seq<Redirect>, r: Result<(seq<Span>, seq<Redirect>)>)
    ensures After(args, rs, After([a], ds, r)) == After(args + [a], rs + ds, r)
  {
    if r.Ok? {
      assert args + ([a] + r.value.0) == (args + [a]) + r.value.0;
      assert rs + (ds + r.value.1) == (rs + ds) + r.value.1;
    }
  }

  lemma {:induction false} SkipTwice(s: string, i: nat)
    requires i <= |s|
    ensures Skip(s, Skip(s, i)) == Skip(s, i)
    decreases |s| - i
  {
    if i < |s| && IsSpace(s[i]) { SkipTwice(s, i + 1); }
  }

  method Parseblock(s: string, ps: nat) returns (r: Result<Cmd>)
    requires ps < |s| && IsLine(s) && s[ps] == '('
    ensures r == ParseBlock(s, ps)
    decreases |s| - ps, 0
  {
    var tok, q, eq, n := GetToken(s, ps);
    r := Parseline(s, n);
    if r.Panic? { return; }
    var close, p := Peek(s, r.pos, ")");
    if !close { return Panic(MissingParen); }
    tok, q, eq, n := GetToken(s, p);
    var rs := Parseredirs(s, n);
    if rs.Panic? { return Panic(rs.message); }
    return Ok(Wrap(r.value, rs.value), rs.pos);
  }

  method Parsepipe(s: string, ps: nat) returns (r: Result<Cmd>)
    requires ps <= |s| && IsLine(s)
    ensures r == ParsePipe(s, ps)
    decreases |s| - ps, 2
  {
    r := Parseexec(s, ps);
    if r.Panic? { return; }
    var bar, p := Peek(s, r.pos, "|");
    if !bar { return Ok(r.value, p); }
    var tok, q, eq, n := GetToken(s, p);
    var right := Parsepipe(s, n);
    if right.Panic? { return right; }
    return Ok(Pipe(r.value, right.value), right.pos);
  }

  method Parseline(s: string, ps: nat) returns (r: Result<Cmd>)
    requires ps <= |s| && IsLine(s)
    ensures r == ParseLine(s, ps)
    decreases |s| - ps, 3
  {
    r := Parsepipe(s, ps);
    if r.Panic? { return; }
    ghost var first := r;
    var cmd, i := r.value, r.pos;
    var amp, p := Peek(s, i, "&");
    while amp
      invariant ps <= i <= |s| && p == Skip(s, i) && amp == (p < |s| && s[p] in "&")
      invariant Backs(s, first.value, first.pos) == Backs(s, cmd, i)
      decreases |s| - i
    {
      var tok, q, eq, n := GetToken(s, p);
      cmd, i := Back(cmd), n;
      amp, p := Peek(s, i, "&");
    }
    var semi, p' := Peek(s, p, ";");
    SkipTwice(s, i);
    if !semi { return Ok(cmd, p); }
    var tok, q, eq, n := GetToken(s, p);
    var rest := Parseline(s, n);
    if rest.Panic? { return rest; }
    return Ok(List(cmd, rest.value), rest.pos);
  }

  method Parsecmd(s: string) returns (r: Result<Cmd>)
    requires IsLine(s)
    ensures r == ParseCmd(s)
  {
    r := Parseline(s, 0);
    if r.Panic? { return; }
    var any, p := Peek(s, r.pos, "");
    if p != |s| { return Panic(Leftovers); }
    return Ok(r.value, |s|);
  }
}
