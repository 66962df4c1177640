/** The shell's parser inverts rendering: every command tree, written out with parentheses, parses back to
    itself. */
module ShellRender {
  import opened ShellParser
  import opened ShellGrammar

  // ---- Spelling ----

  predicate LexemeOk(x: Lexeme) {
    match x
    case Word(w) => WordOk(w)
    case Sym(k) => k == '+' || IsSymbol(k)
  }

  function Spelling(x: Lexeme): string {
    match x
    case Word(w) => w
    case Sym(k) => if k == '+' then ['>', '>'] else [k]
  }

  /** Lexemes written out, each followed by one space. */
  function Spell(ls: seq<Lexeme>): string {
    if ls == [] then "" else Spelling(ls[0]) + ([' '] + Spell(ls[1..]))
  }

  predicate AllOk(ls: seq<Lexeme>) { forall i :: 0 <= i < |ls| ==> LexemeOk(ls[i]) }

  lemma {:induction false} SpellIsLine(ls: seq<Lexeme>)
    requires AllOk(ls)
    ensures IsLine(Spell(ls)) && (Spell(ls) == "" || !IsSpace(Spell(ls)[0]))
  {
    if ls != [] {
      SpellIsLine(ls[1..]);
      assert Spell(ls)[0] == Spelling(ls[0])[0];
    }
  }

  /** The text from i is w. */
  predicate Tail(s: string, i: nat, w: string) { i <= |s| && s[i..] == w }

  lemma TailSplit(s: string, i: nat, a: string, b: string)
    requires Tail(s, i, a + b)
    ensures i + |a| <= |s| && s[i..i + |a|] == a && Tail(s, i + |a|, b)
  {
    assert s[i + |a|..] == s[i..][|a|..];
    assert s[i..i + |a|] == s[i..][..|a|];
  }

  lemma TailFirst(s: string, i: nat, w: string)
    requires i + |w| <= |s| && s[i..i + |w|] == w && w != ""
    ensures At(s, i) == s[i] == w[0] && (|w| > 1 ==> At(s, i + 1) == s[i + 1] == w[1])
  {
    assert s[i..i + |w|][0] == s[i];
    assert |w| > 1 ==> s[i..i + |w|][1] == s[i + 1];
  }

  lemma {:induction false} WordRuns(s: string, i: nat, n: nat)
    requires i + n <= |s| && (forall j :: i <= j < i + n ==> IsWord(s[j])) && !IsWord(At(s, i + n))
    ensures WordEnd(s, i) == i + n
    decreases n
  {
    if n > 0 { WordRuns(s, i + 1, n - 1); }
  }

  lemma WordThere(s: string, i: nat, w: string)
    requires i + |w| <= |s| && s[i..i + |w|] == w && WordOk(w) && At(s, i + |w|) == ' '
    ensures WordEnd(s, i) == i + |w|
  {
    forall j | i <= j < i + |w| ensures IsWord(s[j]) { assert s[j] == s[i..i + |w|][j - i]; }
    WordRuns(s, i, |w|);
  }

  lemma SkipOne(s: string, i: nat)
    requires i < |s| && At(s, i) == ' ' && !IsSpace(At(s, i + 1))
    ensures Skip(s, i) == i + 1
  {
  }

  lemma NoSkip(s: string, i: nat)
    requires i <= |s| && !IsSpace(At(s, i))
    ensures Skip(s, i) == i
  {
  }

  /** A lexeme with its space is read as one token. */
  lemma TokenReads(s: string, i: nat, x: Lexeme, b: string)
    requires LexemeOk(x) && Tail(s, i, Spelling(x) + ([' '] + b)) && (b == "" || !IsSpace(b[0])) && IsLine(s)
    ensures i <= |s| && var t := TokenAt(s, i); t.kind != NUL && LexemeOf(s, t) == x && t.next == i + |Spelling(x)| + 1
    ensures Tail(s, i + |Spelling(x)| + 1, b)
  {
    hide Skip, WordEnd, IsLine, Tail;
    var w := Spelling(x);
    var n := i + |w|;
    TailSplit(s, i, w, [' '] + b);
    TailSplit(s, n, [' '], b);
    TailFirst(s, i, w);
    TailFirst(s, n, [' ']);
    TailStart(s, n + 1, b);
    SkipOne(s, n);
    NoSkip(s, i);
    if x.Word? { WordThere(s, i, w); }
  }

  lemma TailStart(s: string, i: nat, b: string)
    requires Tail(s, i, b) && (b == "" || !IsSpace(b[0]))
    ensures i <= |s| && !IsSpace(At(s, i))
  {
  }

  /** Spelled lexemes are read back. */
  lemma {:induction false} LexSpelled(s: string, i: nat, ls: seq<Lexeme>)
    requires AllOk(ls) && Tail(s, i, Spell(ls)) && IsLine(s)
    ensures i <= |s| && Lex(s, i) == ls
    decreases |ls|
  {
    hide Skip, TokenAt, LexemeOk, Spelling, IsLine, LexemeOf, Kind;
    if ls == [] {
      assert i == |s|;
      AtEnd(s);
    } else {
      SpellIsLine(ls[1..]);
      TokenReads(s, i, ls[0], Spell(ls[1..]));
      LexSpelled(s, TokenAt(s, i).next, ls[1..]);
      assert ls == [ls[0]] + ls[1..];
    }
  }

  lemma AtEnd(s: string)
    requires IsLine(s)
    ensures Lex(s, |s|) == []
  {
  }

  // ---- The lexemes of a line are good ----

  lemma {:induction false} RdsLexOk(rs: seq<Rd>)
    requires RdsOk(rs)
    ensures AllOk(RdsLex(rs))
  {
    if rs != [] { RdsLexOk(rs[1..]); }
  }

  lemma {:induction false} ItemsLexOk(items: seq<Item>)
    requires ItemsOk(items)
    ensures AllOk(ItemsLex(items))
  {
    if items != [] { RdsLexOk(items[0].rds); ItemsLexOk(items[1..]); }
  }

  lemma {:induction false} PartLexOk(p: Part)
    requires PartOk(p)
    ensures AllOk(PartLex(p))
  {
    match p
    case Simple(pre, items) => RdsLexOk(pre); ItemsLexOk(items);
    case Block(l, rs) => LineLexOk(l); RdsLexOk(rs);
  }

  lemma {:induction false} PipelineLexOk(pl: Pipeline)
    requires PipelineOk(pl)
    ensures AllOk(PipelineLex(pl))
  {
    PartLexOk(pl.part);
    if pl.Bar? { PipelineLexOk(pl.rest); }
  }

  lemma {:induction false} AmpsLexOk(n: nat)
    ensures AllOk(AmpsLex(n))
  {
    if n > 0 { AmpsLexOk(n - 1); }
  }

  lemma {:induction false} LineLexOk(l: Line)
    requires LineOk(l)
    ensures AllOk(LineLex(l))
  {
    PipelineLexOk(l.pl);
    AmpsLexOk(l.amps);
    if l.Semi? { LineLexOk(l.rest); }
  }

  // ---- Rendering ----

  /** At most MAXARGS - 1 words per command, real words, and one of the three redirections. */
  predicate WellFormed(t: Tree) {
    match t
    case TExec(ws) => |ws| < MAXARGS && forall i :: 0 <= i < |ws| ==> WordOk(ws[i])
    case TRedir(d, f, k) => WellFormed(d) && WordOk(f) && IsSign(k)
    case TPipe(l, r) => WellFormed(l) && WellFormed(r)
    case TList(l, r) => WellFormed(l) && WellFormed(r)
    case TBack(d) => WellFormed(d)
  }

  function Items(ws: seq<string>): seq<Item> {
    if ws == [] then [] else [Item(ws[0], [])] + Items(ws[1..])
  }

  function Group(t: Tree): Part
    decreases t, 1
  {
    Block(Render(t), [])
  }

  /** A line for every tree, with parentheses around every part. */
  function Render(t: Tree): Line
    decreases t, 0
  {
    match t
    case TExec(ws) => End(Last(Simple([], Items(ws))), 0)
    case TRedir(d, f, k) => End(Last(Block(Render(d), [Rd(k, f)])), 0)
    case TPipe(l, r) => End(Bar(Group(l), Last(Group(r))), 0)
    case TList(l, r) => Semi(Last(Group(l)), 0, End(Last(Group(r)), 0))
    case TBack(d) => End(Last(Group(d)), 1)
  }

  lemma {:induction false} ItemsDenote(ws: seq<string>)
    requires forall i :: 0 <= i < |ws| ==> WordOk(ws[i])
    ensures ItemsOk(Items(ws)) && |Items(ws)| == |ws| && ItemWords(Items(ws)) == ws && ItemRds(Items(ws)) == []
  {
    if ws != [] {
      ItemsDenote(ws[1..]);
      assert Items(ws)[1..] == Items(ws[1..]);
    }
  }

  /** Rendering is a right inverse of what lines denote. */
  lemma {:induction false} RenderDenotes(t: Tree)
    requires WellFormed(t)
    ensures LineOk(Render(t)) && LineTree(Render(t)) == t
  {
    match t
    case TExec(ws) =>
      ItemsDenote(ws);
      var none: seq<Rd> := [];
      assert none + none == none;
      Alone(Simple([], Items(ws)), 0);
    case TRedir(d, f, k) =>
      RenderDenotes(d);
      NestOne(d, Rd(k, f));
      Alone(Block(Render(d), [Rd(k, f)]), 0);
    case TPipe(l, r) =>
      RenderDenotes(l);
      RenderDenotes(r);
      Alone(Group(r), 0);
      assert PartOk(Group(l)) && PartTree(Group(l)) == l;
    case TList(l, r) =>
      RenderDenotes(l);
      RenderDenotes(r);
      Alone(Group(l), 0);
      Alone(Group(r), 0);
    case TBack(d) =>
      RenderDenotes(d);
      Alone(Group(d), 1);
      assert Backed(TBack(d), 0) == TBack(d);
  }

  lemma Alone(p: Part, n: nat)
    ensures LineOk(End(Last(p), n)) == PipelineOk(Last(p)) == PartOk(p)
    ensures PipelineTree(Last(p)) == PartTree(p) && LineTree(End(Last(p), n)) == Backed(PartTree(p), n)
  {
  }

  lemma NestOne(t: Tree, r: Rd)
    ensures Nest(t, [r]) == TRedir(t, r.file, r.kind)
  {
    assert Nest(TRedir(t, r.file, r.kind), []) == TRedir(t, r.file, r.kind);
  }

  /** Every command line of the grammar, written out, parses to the command it denotes. */
  lemma LineRoundTrip(l: Line)
    requires LineOk(l)
    ensures var s := Spell(LineLex(l)); IsLine(s) && ParseCmd(s).Ok? && Read(s, ParseCmd(s).value) == LineTree(l)
  {
    hide ParseCmd, LineLex, LineOk, Lex, IsLine, AllOk;
    LineLexOk(l);
    SpellIsLine(LineLex(l));
    var s := Spell(LineLex(l));
    assert s[0..] == s;
    LexSpelled(s, 0, LineLex(l));
    Accepts(s, l);
  }

  /** Every well-formed command tree parses back from its parenthesised rendering. */
  lemma RoundTrip(t: Tree)
    requires WellFormed(t)
    ensures var s := Spell(LineLex(Render(t))); IsLine(s) && ParseCmd(s).Ok? && Read(s, ParseCmd(s).value) == t
  {
    hide ParseCmd, LineLex, IsLine;
    RenderDenotes(t);
    LineRoundTrip(Render(t));
  }
}
