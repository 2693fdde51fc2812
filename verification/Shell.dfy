/** The shell's parser as it runs: a cursor moving over the line, and NULs written into it. */
module Shell {
  import opened ShellSyntax
  import opened ShellLexemes
  import opened ShellWords

  /** What was read before a result. */
  function After<T>(acc: seq<T>, r: Result<seq<T>>): Result<seq<T>> {
    if r.Err? then r else Ok(acc + r.value, r.at)
  }

  lemma AfterNone<T>(r: Result<seq<T>>)
    ensures After([], r) == r
  {
    assert r.Ok? ==> [] + r.value == r.value;
  }

  lemma AfterMore<T>(acc: seq<T>, x: T, r: Result<seq<T>>)
    ensures After(acc + [x], r) == After(acc, After([x], r))
  {
    assert r.Ok? ==> acc + [x] + r.value == acc + ([x] + r.value);
  }

  function AfterSimple(argv: seq<Span>, arrows: seq<Arrow<Span>>, r: Result<Simple>): Result<Simple> {
    if r.Err? then r else Ok(Simple(argv + r.value.argv, arrows + r.value.arrows), r.at)
  }

  lemma CmdOkOf(s: string)
    requires ParseCmd(s).Ok?
    ensures CmdOk(s, ParseCmd(s).value)
  {
    LineOk(s, 0);
  }

  lemma AfterErr<T>(acc: seq<T>, p: Panic)
    ensures After(acc, Err(p)) == Err(p)
  {
  }

  lemma AfterAll<T>(acc: seq<T>, at: nat)
    ensures After(acc, Ok([], at)) == Ok(acc, at)
  {
    assert acc + [] == acc;
  }

  lemma RedirsUnfold(s: string, i: nat)
    requires i <= |s|
    ensures
      var t := ShellSyntax.GetToken(s, i);
      var f := ShellSyntax.GetToken(s, t.next);
      ShellSyntax.ParseRedirs(s, i) ==
        if !ShellSyntax.Peek(s, i, "<>") then Ok([], Skip(s, i))
        else if f.kind != 'a' then Err(MissingFile)
        else After([Arrow(Span(f.q, f.e), t.kind != '<')], ShellSyntax.ParseRedirs(s, f.next))
  {
    hide Skip;
    hide ShellSyntax.GetToken;
  }

  /** Blanks before a token do not matter. */
  lemma SkipToken(s: string, i: nat)
    requires i <= |s|
    ensures ShellSyntax.GetToken(s, Skip(s, i)) == ShellSyntax.GetToken(s, i)
    ensures forall toks :: ShellSyntax.Peek(s, Skip(s, i), toks) == ShellSyntax.Peek(s, i, toks)
  {
    SkipTwice(s, i);
  }

  lemma SkipRedirs(s: string, i: nat)
    requires i <= |s|
    ensures ShellSyntax.ParseRedirs(s, Skip(s, i)) == ShellSyntax.ParseRedirs(s, i)
  {
    SkipTwice(s, i);
  }

  lemma SkipExec(s: string, i: nat)
    requires i <= |s|
    ensures ShellSyntax.ParseExec(s, Skip(s, i)) == ShellSyntax.ParseExec(s, i)
  {
    SkipTwice(s, i);
    SkipRedirs(s, i);
  }

  lemma BacksUnfold(s: string, i: nat, c: Cmd<Span>)
    requires i <= |s|
    ensures ShellSyntax.ParseBacks(s, i, c) ==
      if ShellSyntax.Peek(s, i, "&") then ShellSyntax.ParseBacks(s, ShellSyntax.GetToken(s, i).next, Back(c))
      else Ok(c, Skip(s, i))
  {
    hide Skip;
    hide ShellSyntax.GetToken;
  }

  lemma AfterNothing(r: Result<Simple>)
    ensures AfterSimple([], [], r) == r
  {
    assert r.Ok? ==> [] + r.value.argv == r.value.argv && [] + r.value.arrows == r.value.arrows;
  }

  /** One turn of the loop over the words. */
  lemma ArgsUnfold(s: string, i: nat, argc: nat, argv: seq<Span>, arrows: seq<Arrow<Span>>)
    requires i <= |s|
    ensures
      var r := AfterSimple(argv, arrows, ShellSyntax.ParseArgs(s, i, argc));
      var t := ShellSyntax.GetToken(s, i);
      if ShellSyntax.Peek(s, i, "|)&;") then r == Ok(Simple(argv, arrows), Skip(s, i))
      else if t.kind == NUL then r == Ok(Simple(argv, arrows), t.next)
      else if t.kind != 'a' then r == Err(Syntax)
      else if argc + 1 >= MAXARGS then r == Err(TooManyArgs)
      else
        var rs := ShellSyntax.ParseRedirs(s, t.next);
        if rs.Err? then r == Err(rs.panic)
        else r == AfterSimple(argv + [Span(t.q, t.e)], arrows + rs.value, ShellSyntax.ParseArgs(s, rs.at, argc + 1))
  {
    hide Skip;
    hide ShellSyntax.GetToken;
    hide ShellSyntax.ParseRedirs;
    hide ShellSyntax.Peek;
    assert argv + [] == argv && arrows + [] == arrows;
    var t := ShellSyntax.GetToken(s, i);
    var rs := ShellSyntax.ParseRedirs(s, t.next);
    if t.kind == 'a' && rs.Ok? {
      var r := ShellSyntax.ParseArgs(s, rs.at, argc + 1);
      if r.Ok? {
        assert argv + ([Span(t.q, t.e)] + r.value.argv) == argv + [Span(t.q, t.e)] + r.value.argv;
        assert arrows + (rs.value + r.value.arrows) == arrows + rs.value + r.value.arrows;
      }
    }
  }

  class Parser {
    const s: string
    var ps: nat

    constructor (s: string)
      ensures this.s == s && ps == 0
    {
      this.s, ps := s, 0;
    }

    method GetToken() returns (kind: char, q: nat, e: nat)
      requires ps <= |s|
      modifies this
      ensures Token(kind, q, e, ps) == ShellSyntax.GetToken(s, old(ps)) && ps <= |s|
    {
      var i := SkipBlanks(ps);
      q := i;
      var c := At(s, i);
      kind := c;
      if c == NUL {
      } else if c in "|();&<" {
        i := i + 1;
      } else if c == '>' {
        i := i + 1;
        if At(s, i) == '>' {
          kind := '+';
          i := i + 1;
        }
      } else {
        kind := 'a';
        while i < |s| && !Blank(s[i]) && !Symbol(s[i])
          invariant q <= i <= |s| && WordEnd(s, i) == WordEnd(s, q)
        {
          i := i + 1;
        }
      }
      e := i;
      ps := SkipBlanks(i);
    }

    method SkipBlanks(from: nat) returns (i: nat)
      requires from <= |s|
      ensures i == Skip(s, from)
    {
      i := from;
      while i < |s| && Blank(s[i])
        invariant from <= i <= |s| && Skip(s, i) == Skip(s, from)
      {
        i := i + 1;
      }
    }

    method Peek(toks: string) returns (b: bool)
      requires ps <= |s|
      modifies this
      ensures ps == Skip(s, old(ps)) && b == ShellSyntax.Peek(s, old(ps), toks)
    {
      ps := SkipBlanks(ps);
      b := At(s, ps) != NUL && At(s, ps) in toks;
    }

    /** The redirections that come next. */
    method ParseRedirs() returns (r: Result<seq<Arrow<Span>>>)
      requires ps <= |s|
      modifies this
      ensures r == ShellSyntax.ParseRedirs(s, old(ps)) && ps <= |s| && (r.Ok? ==> ps == r.at)
    {
      hide Skip;
      hide ShellSyntax.GetToken;
      hide ShellSyntax.ParseRedirs;
      hide After;
      var arrows := [];
      ghost var i := ps;
      AfterNone(ShellSyntax.ParseRedirs(s, i));
      var more := Peek("<>");
      while more
        invariant i <= |s| && ps == Skip(s, i) && more == ShellSyntax.Peek(s, i, "<>")
        invariant ShellSyntax.ParseRedirs(s, old(ps)) == After(arrows, ShellSyntax.ParseRedirs(s, i))
        decreases |s| - i
      {
        SkipToken(s, i);
        PeekToken(s, i, "<>");
        RedirsUnfold(s, i);
        var tok, _, _ := GetToken();
        var kind, q, e := GetToken();
        if kind != 'a' {
          AfterErr(arrows, MissingFile);
          return Err(MissingFile);
        }
        AfterMore(arrows, Arrow(Span(q, e), tok != '<'), ShellSyntax.ParseRedirs(s, ps));
        arrows := arrows + [Arrow(Span(q, e), tok != '<')];
        i := ps;
        more := Peek("<>");
      }
      RedirsUnfold(s, i);
      AfterAll(arrows, ps);
      return Ok(arrows, ps);
    }

    /** The words of a simple command, and the redirections among them. */
    method ParseArgs() returns (r: Result<Simple>)
      requires ps <= |s|
      modifies this
      ensures r == ShellSyntax.ParseArgs(s, old(ps), 0) && ps <= |s| && (r.Ok? ==> ps == r.at)
    {
      hide Skip;
      hide ShellSyntax.GetToken;
      hide ShellSyntax.ParseRedirs;
      hide ShellSyntax.ParseArgs;
      hide AfterSimple;
      var argv, arrows, argc := [], [], 0;
      ghost var i := ps;
      AfterNothing(ShellSyntax.ParseArgs(s, i, 0));
      var stop := Peek("|)&;");
      while !stop
        invariant i <= |s| && ps == Skip(s, i) && stop == ShellSyntax.Peek(s, i, "|)&;") && argc == |argv| < MAXARGS
        invariant ShellSyntax.ParseArgs(s, old(ps), 0) == AfterSimple(argv, arrows, ShellSyntax.ParseArgs(s, i, argc))
        decreases |s| - i
      {
        SkipToken(s, i);
        ArgsUnfold(s, i, argc, argv, arrows);
        var kind, q, e := GetToken();
        if kind == NUL {
          return Ok(Simple(argv, arrows), ps);
        }
        if kind != 'a' {
          return Err(Syntax);
        }
        argv, argc := argv + [Span(q, e)], argc + 1;
        if argc >= MAXARGS {
          return Err(TooManyArgs);
        }
        var rs := ParseRedirs();
        if rs.Err? {
          return Err(rs.panic);
        }
        arrows := arrows + rs.value;
        i := ps;
        stop := Peek("|)&;");
      }
      ArgsUnfold(s, i, argc, argv, arrows);
      return Ok(Simple(argv, arrows), ps);
    }

    method ParseExec() returns (r: Result<Cmd<Span>>)
      requires ps <= |s|
      modifies this
      ensures r == ShellSyntax.ParseExec(s, old(ps)) && ps <= |s| && (r.Ok? ==> ps == r.at)
      decreases |s| - ps, 1
    {
      hide Skip;
      hide ShellSyntax.GetToken;
      hide ShellSyntax.ParseRedirs;
      hide ShellSyntax.ParseArgs;
      hide ShellSyntax.ParseLine;
      hide Wrap;
      SkipToken(s, ps);
      SkipExec(s, ps);
      SkipRedirs(s, ps);
      var paren := Peek("(");
      if paren {
        r := ParseBlock();
        return;
      }
      var rs := ParseRedirs();
      if rs.Err? {
        return Err(rs.panic);
      }
      var simple := ParseArgs();
      if simple.Err? {
        return Err(simple.panic);
      }
      return Ok(Wrap(Exec(simple.value.argv), rs.value + simple.value.arrows), ps);
    }

    method ParseBlock() returns (r: Result<Cmd<Span>>)
      requires ps <= |s|
      modifies this
      ensures r == if ShellSyntax.Peek(s, old(ps), "(") then ShellSyntax.ParseExec(s, old(ps)) else Err(NotABlock)
      ensures ps <= |s| && (r.Ok? ==> ps == r.at)
      decreases |s| - ps, 0
    {
      hide Skip;
      hide ShellSyntax.GetToken;
      hide ShellSyntax.ParseRedirs;
      hide ShellSyntax.ParseLine;
      hide Wrap;
      SkipToken(s, ps);
      if ShellSyntax.Peek(s, ps, "(") {
        PeekToken(s, ps, "(");
      }
      var paren := Peek("(");
      if !paren {
        return Err(NotABlock);
      }
      var _, _, _ := GetToken();
      r := ParseLine();
      if r.Err? {
        return;
      }
      SkipToken(s, ps);
      paren := Peek(")");
      if !paren {
        return Err(MissingParen);
      }
      var _, _, _ := GetToken();
      var rs := ParseRedirs();
      if rs.Err? {
        return Err(rs.panic);
      }
      return Ok(Wrap(r.value, rs.value), ps);
    }

    method ParsePipe() returns (r: Result<Cmd<Span>>)
      requires ps <= |s|
      modifies this
      ensures r == ShellSyntax.ParsePipe(s, old(ps)) && ps <= |s| && (r.Ok? ==> ps == r.at)
      decreases |s| - ps, 2
    {
      hide Skip;
      hide ShellSyntax.GetToken;
      hide ShellSyntax.ParseExec;
      r := ParseExec();
      if r.Err? {
        return;
      }
      SkipToken(s, ps);
      if ShellSyntax.Peek(s, ps, "|") {
        PeekToken(s, ps, "|");
      }
      var bar := Peek("|");
      if bar {
        var _, _, _ := GetToken();
        var right := ParsePipe();
        if right.Err? {
          return right;
        }
        return Ok(Pipe(r.value, right.value), ps);
      }
      return Ok(r.value, ps);
    }

    method ParseLine() returns (r: Result<Cmd<Span>>)
      requires ps <= |s|
      modifies this
      ensures r == ShellSyntax.ParseLine(s, old(ps)) && ps <= |s| && (r.Ok? ==> ps == r.at)
      decreases |s| - ps, 3
    {
      hide Skip;
      hide ShellSyntax.GetToken;
      hide ShellSyntax.ParsePipe;
      hide ShellSyntax.ParseBacks;
      r := ParsePipe();
      if r.Err? {
        return;
      }
      var cmd := r.value;
      ghost var i := ps;
      var more := Peek("&");
      while more
        invariant r.at <= i <= |s| && ps == Skip(s, i) && more == ShellSyntax.Peek(s, i, "&")
        invariant ShellSyntax.ParseBacks(s, r.at, r.value) == ShellSyntax.ParseBacks(s, i, cmd)
        decreases |s| - i
      {
        SkipToken(s, i);
        PeekToken(s, i, "&");
        BacksUnfold(s, i, cmd);
        var _, _, _ := GetToken();
        cmd := Back(cmd);
        i := ps;
        more := Peek("&");
      }
      BacksUnfold(s, i, cmd);
      SkipToken(s, ps);
      if ShellSyntax.Peek(s, ps, ";") {
        PeekToken(s, ps, ";");
      }
      var semicolon := Peek(";");
      if semicolon {
        var _, _, _ := GetToken();
        var right := ParseLine();
        if right.Err? {
          return right;
        }
        return Ok(List(cmd, right.value), ps);
      }
      return Ok(cmd, ps);
    }

    method ParseCmd() returns (r: Result<Cmd<Span>>)
      requires ps == 0
      modifies this
      ensures r == ShellSyntax.ParseCmd(s)
    {
      hide Skip;
      hide ShellSyntax.ParseLine;
      r := ParseLine();
      if r.Err? {
        return;
      }
      var _ := Peek("");
      if ps != |s| {
        return Err(Leftovers);
      }
      return Ok(r.value, ps);
    }
  }

  /** Every word ends inside the buffer. */
  predicate InBuffer(n: nat, c: Cmd<Span>) {
    match c
    case Exec(argv) => forall k :: 0 <= k < |argv| ==> argv[k].e < n
    case Redir(d, file, _) => InBuffer(n, d) && file.e < n
    case Pipe(l, r) => InBuffer(n, l) && InBuffer(n, r)
    case List(l, r) => InBuffer(n, l) && InBuffer(n, r)
    case Back(d) => InBuffer(n, d)
  }

  lemma {:induction false} InBufferOk(s: string, c: Cmd<Span>)
    requires CmdOk(s, c)
    ensures InBuffer(|s| + 1, c)
  {
    match c
    case Exec(argv) =>
      forall k | 0 <= k < |argv| ensures argv[k].e < |s| + 1 {
        assert SpanOk(s, argv[k]);
      }
    case Redir(d, _, _) => InBufferOk(s, d);
    case Pipe(l, r) =>
      InBufferOk(s, l);
      InBufferOk(s, r);
    case List(l, r) =>
      InBufferOk(s, l);
      InBufferOk(s, r);
    case Back(d) => InBufferOk(s, d);
  }

  /** Writes a NUL at the end of every word of the command. */
  method NulTerminate(buf: array<char>, c: Cmd<Span>)
    requires InBuffer(buf.Length, c)
    modifies buf
    ensures buf[..] == Terminated(old(buf[..]), c)
    decreases c
  {
    match c
    case Exec(argv) =>
      var i := 0;
      while i < |argv|
        invariant 0 <= i <= |argv| && buf[..] == TerminateWords(old(buf[..]), argv[..i])
      {
        buf[argv[i].e] := NUL;
        assert argv[..i + 1][..i] == argv[..i];
        i := i + 1;
      }
      assert argv[..i] == argv;
    case Redir(d, file, _) =>
      NulTerminate(buf, d);
      buf[file.e] := NUL;
    case Pipe(l, r) =>
      NulTerminate(buf, l);
      NulTerminate(buf, r);
    case List(l, r) =>
      NulTerminate(buf, l);
      NulTerminate(buf, r);
    case Back(d) => NulTerminate(buf, d);
  }

  /** The whole of parsecmd on a line in a buffer that ends with a NUL. */
  method ParseBuffer(buf: array<char>) returns (r: Result<Cmd<Span>>)
    requires buf.Length > 0 && buf[buf.Length - 1] == NUL && NoNul(buf[..buf.Length - 1])
    modifies buf
    ensures r == ParseCmd(old(buf[..buf.Length - 1]))
    ensures r.Ok? ==> Reads(old(buf[..buf.Length - 1]), buf[..], r.value)
  {
    hide ParseCmd;
    ghost var s := buf[..buf.Length - 1];
    var parser := new Parser(buf[..buf.Length - 1]);
    r := parser.ParseCmd();
    if r.Ok? {
      assert buf[..] == s + [NUL];
      CmdOkOf(s);
      InBufferOk(s, r.value);
      NulTermination(s);
      NulTerminate(buf, r.value);
    }
  }
}
