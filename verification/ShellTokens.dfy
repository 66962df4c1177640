/** What user/sh.c's parser hands on: every argument and file name is a whole word of the line, and
    nulterminate turns each into a C string without touching another. */
module ShellTokens {
  import opened ShellParser

  /** A maximal run of word characters. */
  ghost predicate SpanOk(s: string, a: Span) {
    a.q < a.eq <= |s| && (forall j :: a.q <= j < a.eq ==> IsWord(s[j])) && (a.eq < |s| ==> !IsWord(s[a.eq]))
  }

  /** The words of a command: arguments and file names. */
  function Words(c: Cmd): set<Span> {
    match c
    case Exec(args) => set a | a in args
    case Redir(d, r) => Words(d) + {r.file}
    case Pipe(l, r) => Words(l) + Words(r)
    case List(l, r) => Words(l) + Words(r)
    case Back(d) => Words(d)
  }

  /** No command has more than MAXARGS - 1 arguments, so argv always has room for its null. */
  ghost predicate ArgsFit(c: Cmd) {
    match c
    case Exec(args) => |args| < MAXARGS
    case Redir(d, r) => ArgsFit(d)
    case Pipe(l, r) => ArgsFit(l) && ArgsFit(r)
    case List(l, r) => ArgsFit(l) && ArgsFit(r)
    case Back(d) => ArgsFit(d)
  }

  ghost predicate Good(s: string, c: Cmd) { ArgsFit(c) && forall a :: a in Words(c) ==> SpanOk(s, a) }

  lemma WordToken(s: string, i: nat)
    requires i <= |s| && IsLine(s)
    ensures var t := TokenAt(s, i); t.kind == 'a' ==> SpanOk(s, Span(t.q, t.eq))
  {
    SkipStops(s, i);
    WordStops(s, Skip(s, i));
  }

  lemma {:induction false} RedirsGood(s: string, i: nat)
    requires i <= |s| && IsLine(s)
    ensures Redirs(s, i).Ok? ==> forall k :: 0 <= k < |Redirs(s, i).value| ==> SpanOk(s, Redirs(s, i).value[k].file)
    decreases |s| - i
  {
    hide Skip, TokenAt, Redirs, IsLine;
    RedirsStep(s, i);
    var p := Skip(s, i);
    if p < |s| && s[p] in "<>" {
      var u := TokenAt(s, TokenAt(s, p).next);
      WordToken(s, TokenAt(s, p).next);
      if u.kind == 'a' { RedirsGood(s, u.next); }
    }
  }

  lemma {:induction false} ArgsGood(s: string, i: nat, argc: nat)
    requires i <= |s| && IsLine(s) && argc < MAXARGS
    ensures var r := Args(s, i, argc); r.Ok? ==>
              && argc + |r.value.0| < MAXARGS
              && (forall k :: 0 <= k < |r.value.0| ==> SpanOk(s, r.value.0[k]))
              && (forall k :: 0 <= k < |r.value.1| ==> SpanOk(s, r.value.1[k].file))
    decreases |s| - i
  {
    hide Skip, TokenAt, Redirs, Args, IsLine;
    ArgsStep(s, i, argc);
    var p := Skip(s, i);
    var t := TokenAt(s, p);
    WordToken(s, p);
    if !(p < |s| && s[p] in "|)&;") && t.kind == 'a' && argc + 1 < MAXARGS {
      RedirsGood(s, t.next);
      var d := Redirs(s, t.next);
      if d.Ok? { ArgsGood(s, d.pos, argc + 1); }
    }
  }

  lemma {:induction false} WrapGood(s: string, c: Cmd, rs: seq<Redirect>)
    requires Good(s, c) && forall k :: 0 <= k < |rs| ==> SpanOk(s, rs[k].file)
    ensures Good(s, Wrap(c, rs))
    decreases |rs|
  {
    if rs != [] {
      assert forall a :: a in Words(Redir(c, rs[0])) ==> a in Words(c) || a == rs[0].file;
      WrapGood(s, Redir(c, rs[0]), rs[1..]);
    }
  }

  lemma {:induction false} BacksGood(s: string, c: Cmd, i: nat)
    requires i <= |s| && IsLine(s) && Good(s, c)
    ensures Good(s, Backs(s, c, i).0)
    decreases |s| - i
  {
    var p := Skip(s, i);
    if At(s, p) == '&' { BacksGood(s, Back(c), TokenAt(s, p).next); }
  }

  ghost predicate ResultGood(s: string, r: Result<Cmd>) { r.Ok? ==> Good(s, r.value) }

  lemma {:induction false} LineGood(s: string, i: nat)
    requires i <= |s| && IsLine(s)
    ensures ResultGood(s, ParseLine(s, i))
    decreases |s| - i, 3
  {
    PipeGood(s, i);
    var r := ParsePipe(s, i);
    if r.Ok? {
      BacksGood(s, r.value, r.pos);
      var b := Backs(s, r.value, r.pos);
      if At(s, b.1) == ';' { LineGood(s, TokenAt(s, b.1).next); }
    }
  }

  lemma {:induction false} PipeGood(s: string, i: nat)
    requires i <= |s| && IsLine(s)
    ensures ResultGood(s, ParsePipe(s, i))
    decreases |s| - i, 2
  {
    ExecGood(s, i);
    var r := ParseExec(s, i);
    if r.Ok? && At(s, Skip(s, r.pos)) == '|' { PipeGood(s, TokenAt(s, Skip(s, r.pos)).next); }
  }

  lemma {:induction false} ExecGood(s: string, i: nat)
    requires i <= |s| && IsLine(s)
    ensures ResultGood(s, ParseExec(s, i))
    decreases |s| - i, 1
  {
    var p := Skip(s, i);
    if At(s, p) == '(' { BlockGood(s, p); }
    else {
      RedirsGood(s, p);
      var d := Redirs(s, p);
      if d.Ok? {
        ArgsGood(s, d.pos, 0);
        var e := Args(s, d.pos, 0);
        if e.Ok? { WrapGood(s, Exec(e.value.0), d.value + e.value.1); }
      }
    }
  }

  lemma {:induction false} BlockGood(s: string, i: nat)
    requires i < |s| && IsLine(s) && s[i] == '('
    ensures ResultGood(s, ParseBlock(s, i))
    decreases |s| - i, 0
  {
    var n := TokenAt(s, i).next;
    LineGood(s, n);
    var r := ParseLine(s, n);
    if r.Ok? && At(s, Skip(s, r.pos)) == ')' {
      var m := TokenAt(s, Skip(s, r.pos)).next;
      RedirsGood(s, m);
      if Redirs(s, m).Ok? { WrapGood(s, r.value, Redirs(s, m).value); }
    }
  }

  // ---- nulterminate ----

  function Ends(c: Cmd): set<nat> {
    set a | a in Words(c) :: a.eq
  }

  /** The buffer with NULs at the given positions. */
  function Ended(b: seq<char>, ends: set<nat>): seq<char> {
    seq(|b|, i requires 0 <= i < |b| => if i in ends then NUL else b[i])
  }

  lemma EndedTwice(b: seq<char>, x: set<nat>, y: set<nat>)
    ensures Ended(Ended(b, x), y) == Ended(b, x + y)
  {
  }

  /** Writes a NUL at the end of every word, and nowhere else. */
  method Nulterminate(c: Cmd, buf: array<char>)
    requires forall e :: e in Ends(c) ==> e < buf.Length
    modifies buf
    ensures buf[..] == Ended(old(buf[..]), Ends(c))
    decreases c
  {
    ghost var was := buf[..];
    match c
    case Exec(args) =>
      EndsOfExec(args);
      NulArgs(args, buf);
    case Redir(d, r) =>
      EndsOfRedir(d, r);
      Nulterminate(d, buf);
      buf[r.file.eq] := NUL;
      EndedTwice(was, Ends(d), {r.file.eq});
      assert buf[..] == Ended(Ended(was, Ends(d)), {r.file.eq});
    case Pipe(left, right) =>
      EndsOfTwo(left, right);
      Nulterminate(left, buf);
      Nulterminate(right, buf);
      EndedTwice(was, Ends(left), Ends(right));
    case List(left, right) =>
      EndsOfTwo(left, right);
      Nulterminate(left, buf);
      Nulterminate(right, buf);
      EndedTwice(was, Ends(left), Ends(right));
    case Back(d) =>
      assert Ends(c) == Ends(d);
      Nulterminate(d, buf);
  }

  ghost function EndSet(args: seq<Span>): set<nat> { set a | a in args :: a.eq }

  method NulArgs(args: seq<Span>, buf: array<char>)
    requires forall e :: e in EndSet(args) ==> e < buf.Length
    modifies buf
    ensures buf[..] == Ended(old(buf[..]), EndSet(args))
  {
    ghost var was := buf[..];
    assert Ended(was, EndSet(args[..0])) == was;
    for i := 0 to |args|
      invariant buf[..] == Ended(was, EndSet(args[..i]))
    {
      assert args[i] in args && args[i].eq in EndSet(args);
      buf[args[i].eq] := NUL;
      assert args[..i + 1] == args[..i] + [args[i]];
      assert EndSet(args[..i + 1]) == EndSet(args[..i]) + {args[i].eq};
      EndedTwice(was, EndSet(args[..i]), {args[i].eq});
      assert buf[..] == Ended(Ended(was, EndSet(args[..i])), {args[i].eq});
    }
    assert args[..|args|] == args;
  }

  lemma EndsOfExec(args: seq<Span>)
    ensures Ends(Exec(args)) == EndSet(args)
  {
  }

  lemma EndsOfRedir(d: Cmd, r: Redirect)
    ensures Ends(Redir(d, r)) == Ends(d) + {r.file.eq} && r.file.eq in Ends(Redir(d, r))
  {
    assert Words(Redir(d, r)) == Words(d) + {r.file};
    assert r.file in Words(Redir(d, r));
  }

  lemma EndsOfTwo(l: Cmd, r: Cmd)
    ensures Ends(Pipe(l, r)) == Ends(l) + Ends(r) && Ends(List(l, r)) == Ends(l) + Ends(r)
  {
    assert Words(Pipe(l, r)) == Words(l) + Words(r) && Words(List(l, r)) == Words(l) + Words(r);
  }

  /** The C string at q: up to the first NUL. */
  function CString(b: seq<char>, q: nat): seq<char>
    requires q <= |b|
    decreases |b| - q
  {
    if q == |b| || b[q] == NUL then [] else [b[q]] + CString(b, q + 1)
  }

  lemma {:induction false} CStringIs(b: seq<char>, q: nat, e: nat)
    requires q <= e < |b| && b[e] == NUL && forall j :: q <= j < e ==> b[j] != NUL
    ensures CString(b, q) == b[q..e]
    decreases e - q
  {
    if q < e { CStringIs(b, q + 1, e); }
  }

  /** After parsing any line and nulterminate, each argument and file name read as a C string is exactly
      its token: no terminator falls inside another token. */
  lemma TokensReadBack(s: string, a: Span)
    requires IsLine(s) && ParseCmd(s).Ok? && a in Words(ParseCmd(s).value)
    ensures a.q < a.eq <= |s| && CString(Ended(s + [NUL], Ends(ParseCmd(s).value)), a.q) == s[a.q..a.eq]
  {
    var c := ParseCmd(s).value;
    LineGood(s, 0);
    var b := Ended(s + [NUL], Ends(c));
    assert SpanOk(s, a);
    forall x | x in Words(c) ensures !(a.q <= x.eq < a.eq) { assert SpanOk(s, x); }
    forall j | a.q <= j < a.eq ensures b[j] == s[j] != NUL {}
    assert a.eq in Ends(c);
    CStringIs(b, a.q, a.eq);
    assert b[a.q..a.eq] == s[a.q..a.eq];
  }

  /** The buffer is long enough for nulterminate: every end is at or before the line's own NUL. */
  lemma EndsFit(s: string, e: nat)
    requires IsLine(s) && ParseCmd(s).Ok? && e in Ends(ParseCmd(s).value)
    ensures e <= |s|
  {
    LineGood(s, 0);
    var x :| x in Words(ParseCmd(s).value) && x.eq == e;
    assert SpanOk(s, x);
  }
}
