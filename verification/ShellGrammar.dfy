/** The language of user/sh.c: what command lines are, by their parts, and that the parser accepts exactly
    these lines, however they are spaced, and yields the command each denotes. */
module ShellGrammar {
  import opened ShellParser

  // ---- Commands ----

  /** Commands over their words themselves. */
  datatype Tree =
    | TExec(words: seq<string>)
    | TRedir(inner: Tree, file: string, kind: char)
    | TPipe(left: Tree, right: Tree)
    | TList(left: Tree, right: Tree)
    | TBack(inner: Tree)

  function Slice(s: string, a: Span): string {
    if a.q <= a.eq <= |s| then s[a.q..a.eq] else ""
  }

  function Slices(s: string, args: seq<Span>): seq<string> {
    seq(|args|, i requires 0 <= i < |args| => Slice(s, args[i]))
  }

  /** The tree that a parsed command stands for. */
  function Read(s: string, c: Cmd): Tree {
    match c
    case Exec(args) => TExec(Slices(s, args))
    case Redir(d, r) => TRedir(Read(s, d), Slice(s, r.file), r.kind)
    case Pipe(l, r) => TPipe(Read(s, l), Read(s, r))
    case List(l, r) => TList(Read(s, l), Read(s, r))
    case Back(d) => TBack(Read(s, d))
  }

  // ---- Command lines by their parts ----

  /** A redirection: <, > or + for >>, and a file. */
  datatype Rd = Rd(kind: char, file: string)

  /** An argument and the redirections after it. */
  datatype Item = Item(word: string, rds: seq<Rd>)

  datatype Part = Simple(pre: seq<Rd>, items: seq<Item>) | Block(line: Line, rds: seq<Rd>)

  datatype Pipeline = Last(part: Part) | Bar(part: Part, rest: Pipeline)

  /** A pipeline with some &, alone or before a ; and another line. */
  datatype Line = End(pl: Pipeline, amps: nat) | Semi(pl: Pipeline, amps: nat, rest: Line)

  predicate WordOk(w: string) { w != "" && forall i :: 0 <= i < |w| ==> IsWord(w[i]) }

  predicate IsSign(k: char) { k == '<' || k == '>' || k == '+' }

  predicate RdsOk(rs: seq<Rd>) { forall i :: 0 <= i < |rs| ==> WordOk(rs[i].file) && IsSign(rs[i].kind) }

  predicate ItemsOk(items: seq<Item>) {
    forall i :: 0 <= i < |items| ==> WordOk(items[i].word) && RdsOk(items[i].rds)
  }

  /** Real words, at most MAXARGS - 1 arguments, one of the three redirections. */
  predicate PartOk(p: Part) {
    match p
    case Simple(pre, items) => RdsOk(pre) && |items| < MAXARGS && ItemsOk(items)
    case Block(l, rs) => LineOk(l) && RdsOk(rs)
  }

  predicate PipelineOk(pl: Pipeline) {
    match pl
    case Last(p) => PartOk(p)
    case Bar(p, rest) => PartOk(p) && PipelineOk(rest)
  }

  predicate LineOk(l: Line) {
    match l
    case End(pl, n) => PipelineOk(pl)
    case Semi(pl, n, rest) => PipelineOk(pl) && LineOk(rest)
  }

  // ---- What they denote ----

  /** Redirections apply in the order written, the last outermost. */
  function Nest(t: Tree, rs: seq<Rd>): Tree
    decreases |rs|
  {
    if rs == [] then t else Nest(TRedir(t, rs[0].file, rs[0].kind), rs[1..])
  }

  function ItemWords(items: seq<Item>): seq<string> {
    if items == [] then [] else [items[0].word] + ItemWords(items[1..])
  }

  function ItemRds(items: seq<Item>): seq<Rd> {
    if items == [] then [] else items[0].rds + ItemRds(items[1..])
  }

  function PartTree(p: Part): Tree {
    match p
    case Simple(pre, items) => Nest(TExec(ItemWords(items)), pre + ItemRds(items))
    case Block(l, rs) => Nest(LineTree(l), rs)
  }

  /** A bar binds to the right. */
  function PipelineTree(pl: Pipeline): Tree {
    match pl
    case Last(p) => PartTree(p)
    case Bar(p, rest) => TPipe(PartTree(p), PipelineTree(rest))
  }

  function Backed(t: Tree, n: nat): Tree
    decreases n
  {
    if n == 0 then t else Backed(TBack(t), n - 1)
  }

  /** An & takes the whole pipeline before it; a semicolon binds last and to the right. */
  function LineTree(l: Line): Tree {
    match l
    case End(pl, n) => Backed(PipelineTree(pl), n)
    case Semi(pl, n, rest) => TList(Backed(PipelineTree(pl), n), LineTree(rest))
  }

  // ---- Their lexemes ----

  datatype Lexeme = Sym(kind: char) | Word(text: string)

  function RdsLex(rs: seq<Rd>): seq<Lexeme> {
    if rs == [] then [] else [Sym(rs[0].kind)] + ([Word(rs[0].file)] + RdsLex(rs[1..]))
  }

  function ItemsLex(items: seq<Item>): seq<Lexeme> {
    if items == [] then [] else [Word(items[0].word)] + (RdsLex(items[0].rds) + ItemsLex(items[1..]))
  }

  function PartLex(p: Part): seq<Lexeme> {
    match p
    case Simple(pre, items) => RdsLex(pre) + ItemsLex(items)
    case Block(l, rs) => [Sym('(')] + (LineLex(l) + ([Sym(')')] + RdsLex(rs)))
  }

  function PipelineLex(pl: Pipeline): seq<Lexeme> {
    match pl
    case Last(p) => PartLex(p)
    case Bar(p, rest) => PartLex(p) + ([Sym('|')] + PipelineLex(rest))
  }

  function AmpsLex(n: nat): seq<Lexeme> { if n == 0 then [] else [Sym('&')] + AmpsLex(n - 1) }

  function LineLex(l: Line): seq<Lexeme> {
    match l
    case End(pl, n) => PipelineLex(pl) + AmpsLex(n)
    case Semi(pl, n, rest) => PipelineLex(pl) + (AmpsLex(n) + ([Sym(';')] + LineLex(rest)))
  }

  // ---- The lexemes of a line of text ----

  function LexemeOf(s: string, t: Token): Lexeme {
    if t.kind == 'a' then Word(Slice(s, Span(t.q, t.eq))) else Sym(t.kind)
  }

  /** What is left of the line from i, token by token. */
  function Lex(s: string, i: nat): seq<Lexeme>
    requires i <= |s| && IsLine(s)
    decreases |s| - i
  {
    var t := TokenAt(s, i);
    if t.kind == NUL then [] else [LexemeOf(s, t)] + Lex(s, t.next)
  }

  function Kind(ls: seq<Lexeme>): char {
    if ls == [] then NUL else if ls[0].Word? then 'a' else ls[0].kind
  }

  /** What peek sees decides the kind of the token. */
  predicate SameSign(c: char, k: char) {
    (c == NUL <==> k == NUL) && (c == '|' <==> k == '|') && (c == '&' <==> k == '&') && (c == ';' <==> k == ';')
    && (c == '(' <==> k == '(') && (c == ')' <==> k == ')') && (c == '<' <==> k == '<')
    && (c == '>' <==> k == '>' || k == '+')
  }

  lemma Kinds(s: string, i: nat)
    requires i <= |s| && IsLine(s)
    ensures SameSign(At(s, Skip(s, i)), TokenAt(s, i).kind) && TokenAt(s, Skip(s, i)) == TokenAt(s, i)
    ensures At(s, Skip(s, i)) == NUL <==> Skip(s, i) == |s|
  {
    hide Skip, WordEnd;
    SkipTwice(s, i);
    SkipStops(s, i);
  }

  /** Peeking moves over spaces only. */
  lemma Peeked(s: string, i: nat)
    requires i <= |s| && IsLine(s)
    ensures var p := Skip(s, i); p <= |s| && Skip(s, p) == p && TokenAt(s, p) == TokenAt(s, i) && Lex(s, p) == Lex(s, i)
    ensures Kind(Lex(s, i)) == TokenAt(s, i).kind && SameSign(At(s, Skip(s, i)), Kind(Lex(s, i)))
    ensures Lex(s, i) == [] <==> Skip(s, i) == |s|
  {
    hide Skip, TokenAt, IsLine, Slice;
    SkipTwice(s, i);
    Kinds(s, i);
  }

  /** A token taken. */
  lemma Popped(s: string, i: nat)
    requires i <= |s| && IsLine(s) && Lex(s, i) != []
    ensures var t := TokenAt(s, i); i < t.next <= |s| && Lex(s, i) == [LexemeOf(s, t)] + Lex(s, t.next)
    ensures var x := Lex(s, i)[0]; x.Word? ==> WordOk(x.text)
  {
    hide Skip, TokenAt, IsLine, WordOk;
    WordsOk(s, i);
  }

  lemma WordsOk(s: string, i: nat)
    requires i <= |s| && IsLine(s)
    ensures var t := TokenAt(s, i); t.kind == 'a' ==> WordOk(Slice(s, Span(t.q, t.eq)))
  {
    hide Skip, WordEnd;
    SkipStops(s, i);
    WordStops(s, Skip(s, i));
  }

  /** The next lexeme is x. */
  lemma Pop(s: string, i: nat, x: Lexeme, tail: seq<Lexeme>)
    requires i <= |s| && IsLine(s) && Lex(s, i) == [x] + tail
    ensures var t := TokenAt(s, i);
            LexemeOf(s, t) == x && Lex(s, t.next) == tail && i < t.next <= |s| && t.kind == Kind([x])
  {
    hide Skip, TokenAt, IsLine, Lex;
    Popped(s, i);
    Peeked(s, i);
    var t := TokenAt(s, i);
    Cons(LexemeOf(s, t), Lex(s, t.next), x, tail);
  }

  lemma Cons(x: Lexeme, a: seq<Lexeme>, y: Lexeme, b: seq<Lexeme>)
    requires [x] + a == [y] + b
    ensures x == y && a == b
  {
    assert ([x] + a)[0] == x && ([x] + a)[1..] == a && ([y] + b)[1..] == b;
  }

  lemma Assoc(a: seq<Lexeme>, b: seq<Lexeme>, c: seq<Lexeme>)
    ensures (a + b) + c == a + (b + c)
  {
  }

  // ---- Redirections ----

  function ReadRds(s: string, v: seq<Redirect>): seq<Rd> {
    seq(|v|, k requires 0 <= k < |v| => Rd(v[k].kind, Slice(s, v[k].file)))
  }

  lemma RdsJoin(s: string, a: seq<Redirect>, b: seq<Redirect>)
    ensures ReadRds(s, a + b) == ReadRds(s, a) + ReadRds(s, b)
  {
  }

  lemma RdsNone(s: string)
    ensures ReadRds(s, []) == [] && Slices(s, []) == []
  {
  }

  /** parseredirs on what peek and gettoken see. */
  lemma RedirsSee(s: string, i: nat)
    requires i <= |s| && IsLine(s)
    ensures var r := Redirs(s, i);
            if !IsSign(Kind(Lex(s, i))) then r.Ok? && r.value == [] && Lex(s, r.pos) == Lex(s, i)
            else
              var t := TokenAt(s, i);
              var u := TokenAt(s, t.next);
              Lex(s, i) == [Sym(t.kind)] + Lex(s, t.next) && IsSign(t.kind) && i < t.next <= |s|
              && r == if u.kind != 'a' then Panic(MissingFile)
                      else Behind([Redirect(Span(u.q, u.eq), t.kind)], Redirs(s, u.next))
  {
    hide Skip, TokenAt, Redirs, IsLine, Lex, Slice;
    Peeked(s, i);
    RedirsStep(s, i);
    if IsSign(Kind(Lex(s, i))) { Popped(s, i); }
  }

  lemma {:induction false} RdsRead(s: string, i: nat, rs: seq<Rd>, rest: seq<Lexeme>)
    requires i <= |s| && IsLine(s) && RdsOk(rs) && Lex(s, i) == RdsLex(rs) + rest && !IsSign(Kind(rest))
    ensures var r := Redirs(s, i); r.Ok? && ReadRds(s, r.value) == rs && Lex(s, r.pos) == rest
    decreases |rs|
  {
    hide Skip, TokenAt, Redirs, IsLine, Lex, Slice, ReadRds, WordOk;
    RedirsSee(s, i);
    RdsNone(s);
    if rs == [] {
      assert RdsLex(rs) + rest == rest;
    } else {
      var t := TokenAt(s, i);
      var u := TokenAt(s, t.next);
      assert RdsLex(rs) + rest == [Sym(rs[0].kind)] + ([Word(rs[0].file)] + (RdsLex(rs[1..]) + rest));
      Pop(s, i, Sym(rs[0].kind), [Word(rs[0].file)] + (RdsLex(rs[1..]) + rest));
      Pop(s, t.next, Word(rs[0].file), RdsLex(rs[1..]) + rest);
      RdsRead(s, u.next, rs[1..], rest);
      RdsFirst(s, Redirect(Span(u.q, u.eq), t.kind), Redirs(s, u.next).value);
      assert rs == [rs[0]] + rs[1..];
    }
  }

  lemma RdsFirst(s: string, d: Redirect, v: seq<Redirect>)
    ensures ReadRds(s, [d] + v) == [Rd(d.kind, Slice(s, d.file))] + ReadRds(s, v)
  {
    hide Slice;
  }

  lemma {:induction false} RdsBack(s: string, i: nat)
    requires i <= |s| && IsLine(s) && Redirs(s, i).Ok?
    ensures var r := Redirs(s, i);
            RdsOk(ReadRds(s, r.value)) && Lex(s, i) == RdsLex(ReadRds(s, r.value)) + Lex(s, r.pos)
    decreases |s| - i
  {
    hide Skip, TokenAt, Redirs, IsLine, Lex, Slice, ReadRds, WordOk;
    RedirsSee(s, i);
    RdsNone(s);
    if IsSign(Kind(Lex(s, i))) {
      var t := TokenAt(s, i);
      var u := TokenAt(s, t.next);
      Peeked(s, t.next);
      Popped(s, t.next);
      RdsBack(s, u.next);
      var more := ReadRds(s, Redirs(s, u.next).value);
      var d := Redirect(Span(u.q, u.eq), t.kind);
      RdsFirst(s, d, Redirs(s, u.next).value);
      var rs := ReadRds(s, Redirs(s, i).value);
      assert rs[1..] == more;
      Assoc([Sym(t.kind)], [Word(rs[0].file)] + RdsLex(more), Lex(s, Redirs(s, i).pos));
      Assoc([Word(rs[0].file)], RdsLex(more), Lex(s, Redirs(s, i).pos));
    }
  }

  // ---- Arguments ----

  /** What can follow a command: a bar, an ampersand, a semicolon, a closing parenthesis or the end. */
  predicate PartEnd(c: char) { c == '|' || PipeEnd(c) }

  predicate PipeEnd(c: char) { c == '&' || c == ';' || LineEnd(c) }

  predicate LineEnd(c: char) { c == ')' || c == NUL }

  /** One turn of parseexec's loop, by its lexemes. */
  lemma ArgsSee(s: string, i: nat, argc: nat)
    requires i <= |s| && IsLine(s)
    ensures var r, k, t := Args(s, i, argc), Kind(Lex(s, i)), TokenAt(s, i);
            if PartEnd(k) then r.Ok? && r.value == ([], []) && Lex(s, r.pos) == Lex(s, i)
            else if k != 'a' then r == Panic(Syntax)
            else if argc + 1 >= MAXARGS then r == Panic(TooManyArgs)
            else i < t.next <= |s| && Lex(s, i) == [Word(Slice(s, Span(t.q, t.eq)))] + Lex(s, t.next)
                 && WordOk(Slice(s, Span(t.q, t.eq))) && match Redirs(s, t.next)
              case Panic(m) => r == Panic(m)
              case Ok(rs, q) => i < q <= |s| && r == After([Span(t.q, t.eq)], rs, Args(s, q, argc + 1))
  {
    hide Skip, TokenAt, Redirs, Args, IsLine, Lex, Slice, WordOk;
    Peeked(s, i);
    ArgsStep(s, i, argc);
    if Kind(Lex(s, i)) == NUL { EndNext(s, i); } else { Popped(s, i); }
  }

  lemma EndNext(s: string, i: nat)
    requires i <= |s| && IsLine(s) && Kind(Lex(s, i)) == NUL
    ensures Lex(s, i) == [] == Lex(s, TokenAt(s, i).next)
  {
    hide WordEnd, Slice;
    SkipTwice(s, i);
    Peeked(s, i);
    Peeked(s, Skip(s, i));
  }

  lemma SlicesFirst(s: string, a: Span, v: seq<Span>)
    ensures Slices(s, [a] + v) == [Slice(s, a)] + Slices(s, v)
  {
    hide Slice;
  }

  lemma ItemsKind(items: seq<Item>, rest: seq<Lexeme>)
    ensures Kind(ItemsLex(items) + rest) == if items == [] then Kind(rest) else 'a'
  {
    if items == [] { assert ItemsLex(items) + rest == rest; }
  }

  lemma {:induction false} ItemsRead(s: string, i: nat, items: seq<Item>, argc: nat, rest: seq<Lexeme>)
    requires i <= |s| && IsLine(s) && ItemsOk(items) && (argc + |items| < MAXARGS || items == [])
    requires Lex(s, i) == ItemsLex(items) + rest && PartEnd(Kind(rest))
    ensures var r := Args(s, i, argc);
            r.Ok? && Slices(s, r.value.0) == ItemWords(items) && ReadRds(s, r.value.1) == ItemRds(items)
            && Lex(s, r.pos) == rest
    decreases |items|
  {
    hide Skip, TokenAt, Redirs, Args, IsLine, Lex, Slice, Slices, ReadRds, WordOk, RdsOk, RdsLex;
    ArgsSee(s, i, argc);
    RdsNone(s);
    if items == [] {
      assert ItemsLex(items) + rest == rest;
    } else {
      var t := TokenAt(s, i);
      var tail := ItemsLex(items[1..]) + rest;
      assert ItemsLex(items) + rest == [Word(items[0].word)] + (RdsLex(items[0].rds) + tail);
      Pop(s, i, Word(items[0].word), RdsLex(items[0].rds) + tail);
      ItemsKind(items[1..], rest);
      RdsRead(s, t.next, items[0].rds, tail);
      var rs := Redirs(s, t.next);
      ItemsRead(s, rs.pos, items[1..], argc + 1, rest);
      var more := Args(s, rs.pos, argc + 1).value;
      SlicesFirst(s, Span(t.q, t.eq), more.0);
      RdsJoin(s, rs.value, more.1);
    }
  }

  lemma {:induction false} ItemsBack(s: string, i: nat, argc: nat) returns (items: seq<Item>)
    requires i <= |s| && IsLine(s) && Args(s, i, argc).Ok?
    ensures ItemsOk(items) && (argc + |items| < MAXARGS || items == [])
    ensures var r := Args(s, i, argc);
            Slices(s, r.value.0) == ItemWords(items) && ReadRds(s, r.value.1) == ItemRds(items)
            && Lex(s, i) == ItemsLex(items) + Lex(s, r.pos)
    decreases |s| - i
  {
    hide Skip, TokenAt, Redirs, Args, IsLine, Lex, Slice, Slices, ReadRds, WordOk, RdsOk, RdsLex;
    ArgsSee(s, i, argc);
    RdsNone(s);
    items := [];
    if Kind(Lex(s, i)) == 'a' {
      var t := TokenAt(s, i);
      var rs := Redirs(s, t.next);
      RdsBack(s, t.next);
      var others := ItemsBack(s, rs.pos, argc + 1);
      var more := Args(s, rs.pos, argc + 1);
      SlicesFirst(s, Span(t.q, t.eq), more.value.0);
      RdsJoin(s, rs.value, more.value.1);
      var it := Item(Slice(s, Span(t.q, t.eq)), ReadRds(s, rs.value));
      items := [it] + others;
      assert items[1..] == others;
      Assoc([Word(it.word)], RdsLex(it.rds) + ItemsLex(others), Lex(s, more.pos));
      Assoc(RdsLex(it.rds), ItemsLex(others), Lex(s, more.pos));
    }
  }

  // ---- Commands and blocks ----

  /** The result is the tree t, with rest still to come. */
  ghost predicate Reads(s: string, r: Result<Cmd>, t: Tree, rest: seq<Lexeme>)
    requires IsLine(s)
  {
    r.Ok? && r.pos <= |s| && Read(s, r.value) == t && Lex(s, r.pos) == rest
  }

  lemma {:induction false} WrapReads(s: string, c: Cmd, rs: seq<Redirect>)
    ensures Read(s, Wrap(c, rs)) == Nest(Read(s, c), ReadRds(s, rs))
    decreases |rs|
  {
    RdsNone(s);
    if rs != [] {
      RdsFirst(s, rs[0], rs[1..]);
      assert rs == [rs[0]] + rs[1..];
      assert ReadRds(s, rs)[1..] == ReadRds(s, rs[1..]);
      WrapReads(s, Redir(c, rs[0]), rs[1..]);
    }
  }

  /** parseexec outside parentheses. */
  lemma ExecSee(s: string, i: nat)
    requires i <= |s| && IsLine(s) && Kind(Lex(s, i)) != '('
    ensures var r, p := ParseExec(s, i), Skip(s, i);
            p <= |s| && Lex(s, p) == Lex(s, i) && match Redirs(s, p)
              case Panic(m) => r == Panic(m)
              case Ok(rs, q) => match Args(s, q, 0)
                case Panic(m) => r == Panic(m)
                case Ok(more, e) => r == Ok(Wrap(Exec(more.0), rs + more.1), e)
  {
    hide Skip, TokenAt, Redirs, Args, IsLine, Lex;
    Peeked(s, i);
  }

  /** parseblock. */
  lemma BlockSee(s: string, i: nat)
    requires i <= |s| && IsLine(s) && Kind(Lex(s, i)) == '('
    ensures var r, n := ParseExec(s, i), TokenAt(s, i).next;
            i < n <= |s| && Lex(s, i) == [Sym('(')] + Lex(s, n) && match ParseLine(s, n)
              case Panic(m) => r == Panic(m)
              case Ok(c, q) =>
                if Kind(Lex(s, q)) != ')' then r == Panic(MissingParen)
                else
                  var m := TokenAt(s, q).next;
                  i < m <= |s| && Lex(s, q) == [Sym(')')] + Lex(s, m) && match Redirs(s, m)
                    case Panic(m) => r == Panic(m)
                    case Ok(rs, e) => r == Ok(Wrap(c, rs), e)
  {
    hide Skip, TokenAt, Redirs, Args, IsLine, Lex, ParseLine, Slice;
    Peeked(s, i);
    Popped(s, i);
    var r := ParseLine(s, TokenAt(s, i).next);
    if r.Ok? {
      Peeked(s, r.pos);
      if Kind(Lex(s, r.pos)) == ')' { Popped(s, r.pos); }
    }
  }

  lemma SimpleReads(s: string, i: nat, pre: seq<Rd>, items: seq<Item>, rest: seq<Lexeme>)
    requires i <= |s| && IsLine(s) && PartOk(Simple(pre, items))
    requires Lex(s, i) == PartLex(Simple(pre, items)) + rest && PartEnd(Kind(rest))
    ensures Reads(s, ParseExec(s, i), PartTree(Simple(pre, items)), rest)
  {
    hide Skip, TokenAt, Redirs, Args, IsLine, Lex, RdsLex, ItemsLex, ReadRds, Slices, RdsOk, ItemsOk, ParseExec;
    var tail := ItemsLex(items) + rest;
    Assoc(RdsLex(pre), ItemsLex(items), rest);
    ItemsKind(items, rest);
    RdsKind(pre, tail);
    ExecSee(s, i);
    var p := Skip(s, i);
    RdsRead(s, p, pre, tail);
    var rs := Redirs(s, p);
    ItemsRead(s, rs.pos, items, 0, rest);
    var more := Args(s, rs.pos, 0).value;
    RdsJoin(s, rs.value, more.1);
    WrapReads(s, Exec(more.0), rs.value + more.1);
  }

  lemma RdsKind(rs: seq<Rd>, rest: seq<Lexeme>)
    ensures Kind(RdsLex(rs) + rest) == if rs == [] then Kind(rest) else rs[0].kind
    ensures RdsOk(rs) && rs != [] ==> IsSign(rs[0].kind)
  {
    if rs == [] { assert RdsLex(rs) + rest == rest; }
  }

  lemma {:induction false} PartReads(s: string, i: nat, p: Part, rest: seq<Lexeme>)
    requires i <= |s| && IsLine(s) && PartOk(p) && Lex(s, i) == PartLex(p) + rest && PartEnd(Kind(rest))
    ensures Reads(s, ParseExec(s, i), PartTree(p), rest)
    decreases p
  {
    hide Skip, TokenAt, Redirs, Args, IsLine, Lex, RdsLex, ReadRds, RdsOk, ParseExec, ParseLine, Slice, LineOk,
         LineTree, LineLex;
    match p
    case Simple(pre, items) => SimpleReads(s, i, pre, items, rest);
    case Block(l, rs) =>
      var last := RdsLex(rs) + rest;
      var close := [Sym(')')] + last;
      assert PartLex(p) + rest == [Sym('(')] + (LineLex(l) + close);
      Pop(s, i, Sym('('), LineLex(l) + close);
      BlockSee(s, i);
      var n := TokenAt(s, i).next;
      LineReads(s, n, l, close);
      var r := ParseLine(s, n);
      Pop(s, r.pos, Sym(')'), last);
      RdsKind(rs, rest);
      RdsRead(s, TokenAt(s, r.pos).next, rs, rest);
      WrapReads(s, r.value, Redirs(s, TokenAt(s, r.pos).next).value);
  }

  // ---- Pipelines ----

  lemma PipeSee(s: string, i: nat)
    requires i <= |s| && IsLine(s)
    ensures var r := ParsePipe(s, i);
            match ParseExec(s, i)
            case Panic(m) => r == Panic(m)
            case Ok(c, q) =>
              if Kind(Lex(s, q)) != '|' then r.Ok? && r.value == c && Lex(s, r.pos) == Lex(s, q)
              else
                var n := TokenAt(s, q).next;
                i < n <= |s| && Lex(s, q) == [Sym('|')] + Lex(s, n) && match ParsePipe(s, n)
                  case Panic(m) => r == Panic(m)
                  case Ok(d, e) => r == Ok(Pipe(c, d), e)
  {
    hide Skip, TokenAt, IsLine, Lex, ParseExec, Slice;
    var r := ParseExec(s, i);
    if r.Ok? {
      Peeked(s, r.pos);
      if Kind(Lex(s, r.pos)) == '|' { Popped(s, r.pos); }
    }
  }

  lemma {:induction false} PipelineReads(s: string, i: nat, pl: Pipeline, rest: seq<Lexeme>)
    requires i <= |s| && IsLine(s) && PipelineOk(pl) && Lex(s, i) == PipelineLex(pl) + rest && PipeEnd(Kind(rest))
    ensures Reads(s, ParsePipe(s, i), PipelineTree(pl), rest)
    decreases pl
  {
    hide Skip, TokenAt, IsLine, Lex, ParseExec, ParsePipe, Slice, PartOk, PartTree, PartLex;
    PipeSee(s, i);
    match pl
    case Last(p) => PartReads(s, i, p, rest);
    case Bar(p, more) =>
      var bar := [Sym('|')] + (PipelineLex(more) + rest);
      assert PipelineLex(pl) + rest == PartLex(p) + bar;
      PartReads(s, i, p, bar);
      var q := ParseExec(s, i).pos;
      Pop(s, q, Sym('|'), PipelineLex(more) + rest);
      PipelineReads(s, TokenAt(s, q).next, more, rest);
  }

  // ---- Lines ----

  lemma BacksSee(s: string, c: Cmd, i: nat)
    requires i <= |s| && IsLine(s)
    ensures var b := Backs(s, c, i);
            if Kind(Lex(s, i)) != '&' then b.0 == c && b.1 == Skip(s, i)
            else
              var n := TokenAt(s, i).next;
              i < n <= |s| && Lex(s, i) == [Sym('&')] + Lex(s, n) && b == Backs(s, Back(c), n)
  {
    hide Skip, TokenAt, IsLine, Lex, Slice;
    Peeked(s, i);
    if Kind(Lex(s, i)) == '&' { Popped(s, i); }
  }

  lemma {:induction false} AmpsRead(s: string, c: Cmd, i: nat, n: nat, rest: seq<Lexeme>)
    requires i <= |s| && IsLine(s) && Lex(s, i) == AmpsLex(n) + rest && Kind(rest) != '&'
    ensures var b := Backs(s, c, i); Read(s, b.0) == Backed(Read(s, c), n) && Lex(s, b.1) == rest
    decreases n
  {
    hide Skip, TokenAt, IsLine, Lex, Slice, Backs;
    BacksSee(s, c, i);
    Peeked(s, i);
    if n == 0 {
      assert AmpsLex(n) + rest == rest;
    } else {
      Assoc([Sym('&')], AmpsLex(n - 1), rest);
      Pop(s, i, Sym('&'), AmpsLex(n - 1) + rest);
      AmpsRead(s, Back(c), TokenAt(s, i).next, n - 1, rest);
    }
  }

  lemma {:induction false} BacksStop(s: string, c: Cmd, i: nat)
    requires i <= |s| && IsLine(s)
    ensures var p := Backs(s, c, i).1; Skip(s, p) == p && Kind(Lex(s, p)) != '&'
    decreases |s| - i
  {
    hide Skip, TokenAt, IsLine, Lex, Slice, Backs;
    BacksSee(s, c, i);
    Peeked(s, i);
    if Kind(Lex(s, i)) == '&' { BacksStop(s, Back(c), TokenAt(s, i).next); }
  }

  lemma LineSee(s: string, i: nat)
    requires i <= |s| && IsLine(s)
    ensures var r := ParseLine(s, i);
            match ParsePipe(s, i)
            case Panic(m) => r == Panic(m)
            case Ok(c, q) =>
              var b := Backs(s, c, q);
              if Kind(Lex(s, b.1)) != ';' then r == Ok(b.0, b.1)
              else
                var n := TokenAt(s, b.1).next;
                i < n <= |s| && Lex(s, b.1) == [Sym(';')] + Lex(s, n) && match ParseLine(s, n)
                  case Panic(m) => r == Panic(m)
                  case Ok(d, e) => r == Ok(List(b.0, d), e)
  {
    hide Skip, TokenAt, IsLine, Lex, ParsePipe, Slice, Backs;
    var r := ParsePipe(s, i);
    if r.Ok? {
      var p := Backs(s, r.value, r.pos).1;
      BacksStop(s, r.value, r.pos);
      Peeked(s, p);
      if Kind(Lex(s, p)) == ';' { Popped(s, p); }
    }
  }

  lemma AmpsKind(n: nat, rest: seq<Lexeme>)
    ensures Kind(AmpsLex(n) + rest) == if n == 0 then Kind(rest) else '&'
  {
    if n == 0 { assert AmpsLex(n) + rest == rest; }
  }

  /** A line of the grammar, wherever it stands, parses to the command it denotes. */
  lemma {:induction false} LineReads(s: string, i: nat, l: Line, rest: seq<Lexeme>)
    requires i <= |s| && IsLine(s) && LineOk(l) && Lex(s, i) == LineLex(l) + rest && LineEnd(Kind(rest))
    ensures Reads(s, ParseLine(s, i), LineTree(l), rest)
    decreases l
  {
    hide Skip, TokenAt, IsLine, Lex, ParsePipe, ParseLine, Slice, Backs, PipelineOk, PipelineTree, PipelineLex,
         AmpsLex, Backed;
    var pl, n := l.pl, l.amps;
    var tail := if l.End? then rest else [Sym(';')] + (LineLex(l.rest) + rest);
    assert LineLex(l) + rest == PipelineLex(pl) + (AmpsLex(n) + tail);
    AmpsKind(n, tail);
    PipelineReads(s, i, pl, AmpsLex(n) + tail);
    var r := ParsePipe(s, i);
    AmpsRead(s, r.value, r.pos, n, tail);
    LineSee(s, i);
    if l.Semi? {
      var p := Backs(s, r.value, r.pos).1;
      Pop(s, p, Sym(';'), LineLex(l.rest) + rest);
      LineReads(s, TokenAt(s, p).next, l.rest, rest);
    }
  }

  // ---- Nothing else is accepted ----

  /** The simple command that parseexec read. */
  lemma SimpleBack(s: string, i: nat) returns (p: Part)
    requires i <= |s| && IsLine(s) && ParseExec(s, i).Ok? && Kind(Lex(s, i)) != '('
    ensures PartOk(p)
    ensures var r := ParseExec(s, i); Read(s, r.value) == PartTree(p) && Lex(s, i) == PartLex(p) + Lex(s, r.pos)
  {
    hide Skip, TokenAt, Redirs, Args, IsLine, Lex, RdsLex, ItemsLex, ReadRds, Slices, RdsOk, ItemsOk, ParseExec;
    ExecSee(s, i);
    var rs := Redirs(s, Skip(s, i));
    RdsBack(s, Skip(s, i));
    var items := ItemsBack(s, rs.pos, 0);
    var more := Args(s, rs.pos, 0);
    p := Simple(ReadRds(s, rs.value), items);
    RdsJoin(s, rs.value, more.value.1);
    WrapReads(s, Exec(more.value.0), rs.value + more.value.1);
    Assoc(RdsLex(p.pre), ItemsLex(items), Lex(s, more.pos));
  }

  lemma {:induction false} PartBack(s: string, i: nat) returns (p: Part)
    requires i <= |s| && IsLine(s) && ParseExec(s, i).Ok?
    ensures PartOk(p)
    ensures var r := ParseExec(s, i); Read(s, r.value) == PartTree(p) && Lex(s, i) == PartLex(p) + Lex(s, r.pos)
    decreases |s| - i, 1
  {
    hide Skip, TokenAt, Redirs, Args, IsLine, Lex, RdsLex, ReadRds, RdsOk, ParseExec, ParseLine, Slice, LineOk,
         LineTree, LineLex;
    if Kind(Lex(s, i)) != '(' {
      p := SimpleBack(s, i);
    } else {
      BlockSee(s, i);
      var n := TokenAt(s, i).next;
      var l := LineBack(s, n);
      var r := ParseLine(s, n);
      var m := TokenAt(s, r.pos).next;
      RdsBack(s, m);
      var rs := ReadRds(s, Redirs(s, m).value);
      p := Block(l, rs);
      WrapReads(s, r.value, Redirs(s, m).value);
      var rest := Lex(s, Redirs(s, m).pos);
      assert PartLex(p) + rest == [Sym('(')] + (LineLex(l) + ([Sym(')')] + (RdsLex(rs) + rest)));
    }
  }

  lemma {:induction false} PipelineBack(s: string, i: nat) returns (pl: Pipeline)
    requires i <= |s| && IsLine(s) && ParsePipe(s, i).Ok?
    ensures PipelineOk(pl) && var r := ParsePipe(s, i);
            Read(s, r.value) == PipelineTree(pl) && Lex(s, i) == PipelineLex(pl) + Lex(s, r.pos)
    decreases |s| - i, 2
  {
    hide Skip, TokenAt, IsLine, Lex, ParseExec, ParsePipe, Slice, PartOk, PartTree, PartLex;
    PipeSee(s, i);
    var p := PartBack(s, i);
    var q := ParseExec(s, i).pos;
    pl := Last(p);
    if Kind(Lex(s, q)) == '|' {
      var n := TokenAt(s, q).next;
      var more := PipelineBack(s, n);
      pl := Bar(p, more);
      var rest := Lex(s, ParsePipe(s, i).pos);
      assert PipelineLex(pl) + rest == PartLex(p) + ([Sym('|')] + (PipelineLex(more) + rest));
    }
  }

  lemma {:induction false} BacksBack(s: string, c: Cmd, i: nat) returns (n: nat)
    requires i <= |s| && IsLine(s)
    ensures var b := Backs(s, c, i); Read(s, b.0) == Backed(Read(s, c), n) && Lex(s, i) == AmpsLex(n) + Lex(s, b.1)
    decreases |s| - i
  {
    hide Skip, TokenAt, IsLine, Lex, Slice, Backs;
    BacksSee(s, c, i);
    Peeked(s, i);
    n := 0;
    if Kind(Lex(s, i)) == '&' {
      var m := BacksBack(s, Back(c), TokenAt(s, i).next);
      n := m + 1;
      Assoc([Sym('&')], AmpsLex(m), Lex(s, Backs(s, c, i).1));
    }
  }

  lemma {:induction false} LineBack(s: string, i: nat) returns (l: Line)
    requires i <= |s| && IsLine(s) && ParseLine(s, i).Ok?
    ensures LineOk(l)
    ensures var r := ParseLine(s, i); Read(s, r.value) == LineTree(l) && Lex(s, i) == LineLex(l) + Lex(s, r.pos)
    decreases |s| - i, 3
  {
    hide Skip, TokenAt, IsLine, Lex, ParsePipe, ParseLine, Slice, Backs, PipelineOk, PipelineTree, PipelineLex,
         AmpsLex, Backed;
    LineSee(s, i);
    var pl := PipelineBack(s, i);
    var r := ParsePipe(s, i);
    var n := BacksBack(s, r.value, r.pos);
    var p := Backs(s, r.value, r.pos).1;
    var rest := Lex(s, ParseLine(s, i).pos);
    l := End(pl, n);
    if Kind(Lex(s, p)) != ';' {
      Assoc(PipelineLex(pl), AmpsLex(n), rest);
    } else {
      var more := LineBack(s, TokenAt(s, p).next);
      l := Semi(pl, n, more);
      assert LineLex(l) + rest == PipelineLex(pl) + (AmpsLex(n) + ([Sym(';')] + (LineLex(more) + rest)));
    }
  }

  // ---- The language ----

  /** The line of text s is the command line l, spaced in some way. */
  predicate Spells(s: string, l: Line)
    requires IsLine(s)
  {
    LineOk(l) && Lex(s, 0) == LineLex(l)
  }

  /** A line of the grammar, however it is spaced, parses to the command it denotes. */
  lemma Accepts(s: string, l: Line)
    requires IsLine(s) && Spells(s, l)
    ensures ParseCmd(s).Ok? && Read(s, ParseCmd(s).value) == LineTree(l)
  {
    hide ParseLine, Lex, LineLex, LineOk;
    assert LineLex(l) == LineLex(l) + [];
    LineReads(s, 0, l, []);
    Peeked(s, ParseLine(s, 0).pos);
  }

  /** The parser accepts exactly the lines of the grammar: the others all panic. */
  lemma AcceptsExactly(s: string)
    requires IsLine(s)
    ensures ParseCmd(s).Ok? <==> exists l :: Spells(s, l)
  {
    hide ParseLine, Lex, LineLex, LineOk;
    if ParseCmd(s).Ok? {
      var l := LineBack(s, 0);
      Peeked(s, ParseLine(s, 0).pos);
      assert LineLex(l) + [] == LineLex(l);
      assert Spells(s, l);
    }
    if l :| Spells(s, l) { Accepts(s, l); }
  }
}
