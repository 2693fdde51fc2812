/** The shell's command trees, its tokens and its grammar. */
module ShellSyntax {
  /** W is a word: the place of a token in the line, or its text. */
  datatype Cmd<W> =
    | Exec(argv: seq<W>)
    | Redir(cmd: Cmd<W>, file: W, out: bool)
    | Pipe(left: Cmd<W>, right: Cmd<W>)
    | List(left: Cmd<W>, right: Cmd<W>)
    | Back(cmd: Cmd<W>)

  /** A token's first character, and the one after its last. */
  datatype Span = Span(q: nat, e: nat)

  datatype Panic = Syntax | MissingFile | MissingParen | TooManyArgs | NotABlock | Leftovers

  datatype Result<T> = Ok(value: T, at: nat) | Err(panic: Panic)

  const MAXARGS := 10

  const NUL := '\0'

  predicate Blank(c: char) { c in " \t\r\n\U{0B}" }

  predicate Symbol(c: char) { c in "<|>&;()" }

  predicate WordChar(c: char) { !Blank(c) && !Symbol(c) && c != NUL }

  /** The character at i; the line ends with a NUL. */
  function At(s: string, i: nat): char { if i < |s| then s[i] else NUL }

  function Skip(s: string, i: nat): (r: nat)
    requires i <= |s|
    ensures i <= r <= |s| && !Blank(At(s, r))
    decreases |s| - i
  {
    if i < |s| && Blank(s[i]) then Skip(s, i + 1) else i
  }

  function WordEnd(s: string, i: nat): (r: nat)
    requires i <= |s|
    ensures i <= r <= |s|
    decreases |s| - i
  {
    if i < |s| && !Blank(s[i]) && !Symbol(s[i]) then WordEnd(s, i + 1) else i
  }

  /** kind is the symbol itself, '+' for >>, 'a' for a word, NUL at the end. */
  datatype Token = Token(kind: char, q: nat, e: nat, next: nat)

  /** The token that begins at q. */
  function TokenAt(s: string, q: nat): (t: Token)
    requires q <= |s| && !Blank(At(s, q))
    ensures t.q == q <= t.e <= t.next <= |s| && (t.kind != NUL ==> q < t.e)
  {
    var c := At(s, q);
    if c == NUL then Token(NUL, q, q, Skip(s, q))
    else if c == '>' && At(s, q + 1) == '>' then Token('+', q, q + 2, Skip(s, q + 2))
    else if Symbol(c) then Token(c, q, q + 1, Skip(s, q + 1))
    else Token('a', q, WordEnd(s, q), Skip(s, WordEnd(s, q)))
  }

  /** Any token but the end's uses up input. */
  function GetToken(s: string, i: nat): (t: Token)
    requires i <= |s|
    ensures i <= t.q <= t.e <= t.next <= |s| && (t.kind != NUL ==> t.q < t.e)
  {
    TokenAt(s, Skip(s, i))
  }

  /** The next character that is not blank is one of toks. */
  predicate Peek(s: string, i: nat, toks: string)
    requires i <= |s|
  {
    At(s, Skip(s, i)) != NUL && At(s, Skip(s, i)) in toks
  }

  /** A redirection: the file, and whether it is for output. */
  datatype Arrow<W> = Arrow(file: W, out: bool)

  /** A command with redirections around it, the first innermost. */
  function Wrap<W>(c: Cmd<W>, arrows: seq<Arrow<W>>): Cmd<W> {
    if arrows == [] then c
    else Redir(Wrap(c, arrows[..|arrows| - 1]), arrows[|arrows| - 1].file, arrows[|arrows| - 1].out)
  }

  function ParseRedirs(s: string, i: nat): (r: Result<seq<Arrow<Span>>>)
    requires i <= |s|
    ensures r.Ok? ==> i <= r.at <= |s|
    decreases |s| - i
  {
    if Peek(s, i, "<>") then
      var t := GetToken(s, i);
      var f := GetToken(s, t.next);
      if f.kind != 'a' then Err(MissingFile)
      else
        var r := ParseRedirs(s, f.next);
        if r.Err? then r else Ok([Arrow(Span(f.q, f.e), t.kind != '<')] + r.value, r.at)
    else
      Ok([], Skip(s, i))
  }

  /** The words and the redirections of a simple command. */
  datatype Simple = Simple(argv: seq<Span>, arrows: seq<Arrow<Span>>)

  /** argc words have been read already. */
  function ParseArgs(s: string, i: nat, argc: nat): (r: Result<Simple>)
    requires i <= |s|
    ensures r.Ok? ==> i <= r.at <= |s|
    decreases |s| - i
  {
    if Peek(s, i, "|)&;") then Ok(Simple([], []), Skip(s, i))
    else
      var t := GetToken(s, i);
      if t.kind == NUL then Ok(Simple([], []), t.next)
      else if t.kind != 'a' then Err(Syntax)
      else if argc + 1 >= MAXARGS then Err(TooManyArgs)
      else
        var rs := ParseRedirs(s, t.next);
        if rs.Err? then Err(rs.panic)
        else
          var r := ParseArgs(s, rs.at, argc + 1);
          if r.Err? then r
          else Ok(Simple([Span(t.q, t.e)] + r.value.argv, rs.value + r.value.arrows), r.at)
  }

  function ParseExec(s: string, i: nat): (r: Result<Cmd<Span>>)
    requires i <= |s|
    ensures r.Ok? ==> i <= r.at <= |s|
    decreases |s| - i, 0
  {
    if Peek(s, i, "(") then
      var r := ParseLine(s, GetToken(s, i).next);
      if r.Err? then r
      else if !Peek(s, r.at, ")") then Err(MissingParen)
      else
        var rs := ParseRedirs(s, GetToken(s, r.at).next);
        if rs.Err? then Err(rs.panic) else Ok(Wrap(r.value, rs.value), rs.at)
    else
      var rs := ParseRedirs(s, i);
      if rs.Err? then Err(rs.panic)
      else
        var r := ParseArgs(s, rs.at, 0);
        if r.Err? then Err(r.panic)
        else Ok(Wrap(Exec(r.value.argv), rs.value + r.value.arrows), r.at)
  }

  function ParsePipe(s: string, i: nat): (r: Result<Cmd<Span>>)
    requires i <= |s|
    ensures r.Ok? ==> i <= r.at <= |s|
    decreases |s| - i, 1
  {
    var l := ParseExec(s, i);
    if l.Err? then l
    else if !Peek(s, l.at, "|") then Ok(l.value, Skip(s, l.at))
    else
      var r := ParsePipe(s, GetToken(s, l.at).next);
      if r.Err? then r else Ok(Pipe(l.value, r.value), r.at)
  }

  /** Wraps c once for each & that follows. */
  function ParseBacks(s: string, i: nat, c: Cmd<Span>): (r: Result<Cmd<Span>>)
    requires i <= |s|
    ensures r.Ok? && i <= r.at <= |s|
    decreases |s| - i
  {
    if Peek(s, i, "&") then ParseBacks(s, GetToken(s, i).next, Back(c)) else Ok(c, Skip(s, i))
  }

  function ParseLine(s: string, i: nat): (r: Result<Cmd<Span>>)
    requires i <= |s|
    ensures r.Ok? ==> i <= r.at <= |s|
    decreases |s| - i, 2
  {
    var p := ParsePipe(s, i);
    if p.Err? then p
    else
      var l := ParseBacks(s, p.at, p.value);
      if !Peek(s, l.at, ";") then Ok(l.value, Skip(s, l.at))
      else
        var r := ParseLine(s, GetToken(s, l.at).next);
        if r.Err? then r else Ok(List(l.value, r.value), r.at)
  }

  function ParseCmd(s: string): Result<Cmd<Span>> {
    var r := ParseLine(s, 0);
    if r.Err? then r
    else if Skip(s, r.at) != |s| then Err(Leftovers)
    else Ok(r.value, |s|)
  }

  predicate LegalWord(w: string) { w != "" && forall k :: 0 <= k < |w| ==> WordChar(w[k]) }

  predicate LegalWords(ws: seq<string>) { forall k :: 0 <= k < |ws| ==> LegalWord(ws[k]) }

  /** Every word is one token, and a command has at most 9 arguments. */
  predicate Legal(c: Cmd<string>) {
    match c
    case Exec(argv) => |argv| < MAXARGS && LegalWords(argv)
    case Redir(d, file, _) => Legal(d) && LegalWord(file)
    case Pipe(l, r) => Legal(l) && Legal(r)
    case List(l, r) => Legal(l) && Legal(r)
    case Back(d) => Legal(d)
  }

  function Word(s: string, w: Span): string { if w.q <= w.e <= |s| then s[w.q..w.e] else "" }

  function WordTexts(s: string, ws: seq<Span>): (r: seq<string>)
    ensures |r| == |ws|
  {
    if ws == [] then [] else [Word(s, ws[0])] + WordTexts(s, ws[1..])
  }

  function ArrowTexts(s: string, rs: seq<Arrow<Span>>): (r: seq<Arrow<string>>)
    ensures |r| == |rs|
  {
    if rs == [] then [] else [Arrow(Word(s, rs[0].file), rs[0].out)] + ArrowTexts(s, rs[1..])
  }

  /** The command with each token's text for its place. */
  function Text(s: string, c: Cmd<Span>): Cmd<string> {
    match c
    case Exec(argv) => Exec(WordTexts(s, argv))
    case Redir(d, file, out) => Redir(Text(s, d), Word(s, file), out)
    case Pipe(l, r) => Pipe(Text(s, l), Text(s, r))
    case List(l, r) => List(Text(s, l), Text(s, r))
    case Back(d) => Back(Text(s, d))
  }

  lemma {:induction false} ArrowTextsAt(s: string, rs: seq<Arrow<Span>>, k: nat)
    requires k < |rs|
    ensures ArrowTexts(s, rs)[k] == Arrow(Word(s, rs[k].file), rs[k].out)
  {
    if k > 0 {
      ArrowTextsAt(s, rs[1..], k - 1);
    }
  }

  lemma ArrowTextsInit(s: string, rs: seq<Arrow<Span>>)
    requires rs != []
    ensures ArrowTexts(s, rs[..|rs| - 1]) == ArrowTexts(s, rs)[..|rs| - 1]
  {
    forall k | 0 <= k < |rs| - 1 ensures ArrowTexts(s, rs[..|rs| - 1])[k] == ArrowTexts(s, rs)[k] {
      ArrowTextsAt(s, rs, k);
      ArrowTextsAt(s, rs[..|rs| - 1], k);
    }
  }

  lemma {:induction false} TextWrap(s: string, c: Cmd<Span>, rs: seq<Arrow<Span>>)
    ensures Text(s, Wrap(c, rs)) == Wrap(Text(s, c), ArrowTexts(s, rs))
    decreases |rs|
  {
    if rs != [] {
      TextWrap(s, c, rs[..|rs| - 1]);
      ArrowTextsInit(s, rs);
      ArrowTextsAt(s, rs, |rs| - 1);
    }
  }
}
