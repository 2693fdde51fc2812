/** The words of an accepted command line, and how they read once they are NUL-terminated. */
module ShellWords {
  import opened ShellSyntax
  import opened ShellLexemes
  import opened ShellRoundTrip

  /** The character is neither blank nor a symbol. */
  predicate Plain(c: char) { !Blank(c) && !Symbol(c) }

  /** A whole token: plain characters, and no plain character after the last. */
  ghost predicate SpanOk(s: string, w: Span) {
    && w.q < w.e <= |s|
    && (forall k :: w.q <= k < w.e ==> Plain(s[k]))
    && (w.e < |s| ==> !Plain(s[w.e]))
  }

  ghost predicate SpansOk(s: string, ws: seq<Span>) { forall k :: 0 <= k < |ws| ==> SpanOk(s, ws[k]) }

  ghost predicate FilesOk(s: string, rs: seq<Arrow<Span>>) { forall k :: 0 <= k < |rs| ==> SpanOk(s, rs[k].file) }

  /** Every word is a whole token, and every simple command has at most 9 arguments. */
  ghost predicate CmdOk(s: string, c: Cmd<Span>) {
    match c
    case Exec(argv) => |argv| < MAXARGS && SpansOk(s, argv)
    case Redir(d, file, _) => CmdOk(s, d) && SpanOk(s, file)
    case Pipe(l, r) => CmdOk(s, l) && CmdOk(s, r)
    case List(l, r) => CmdOk(s, l) && CmdOk(s, r)
    case Back(d) => CmdOk(s, d)
  }

  lemma TokenOk(s: string, i: nat)
    requires i <= |s| && GetToken(s, i).kind == 'a'
    ensures SpanOk(s, Span(GetToken(s, i).q, GetToken(s, i).e))
  {
    WordEndOf(s, Skip(s, i));
  }

  lemma {:induction false} RedirsOk(s: string, i: nat)
    requires i <= |s| && ParseRedirs(s, i).Ok?
    ensures FilesOk(s, ParseRedirs(s, i).value)
    decreases |s| - i
  {
    hide GetToken;
    hide Skip;
    hide SpanOk;
    if Peek(s, i, "<>") {
      var f := GetToken(s, GetToken(s, i).next);
      TokenOk(s, GetToken(s, i).next);
      RedirsOk(s, f.next);
    }
  }

  lemma {:induction false} ArgsOk(s: string, i: nat, argc: nat)
    requires i <= |s| && argc < MAXARGS && ParseArgs(s, i, argc).Ok?
    ensures
      var r := ParseArgs(s, i, argc).value;
      SpansOk(s, r.argv) && FilesOk(s, r.arrows) && argc + |r.argv| < MAXARGS
    decreases |s| - i
  {
    hide GetToken;
    hide Skip;
    hide SpanOk;
    hide Peek;
    hide ParseRedirs;
    if !Peek(s, i, "|)&;") && GetToken(s, i).kind != NUL {
      var t := GetToken(s, i);
      TokenOk(s, i);
      RedirsOk(s, t.next);
      ArgsOk(s, ParseRedirs(s, t.next).at, argc + 1);
    }
  }

  lemma {:induction false} WrapOk(s: string, c: Cmd<Span>, rs: seq<Arrow<Span>>)
    requires CmdOk(s, c) && FilesOk(s, rs)
    ensures CmdOk(s, Wrap(c, rs))
    decreases |rs|
  {
    if rs != [] {
      WrapOk(s, c, rs[..|rs| - 1]);
    }
  }

  lemma {:induction false} BacksOk(s: string, i: nat, c: Cmd<Span>)
    requires i <= |s| && CmdOk(s, c)
    ensures CmdOk(s, ParseBacks(s, i, c).value)
    decreases |s| - i
  {
    hide GetToken;
    hide Skip;
    if Peek(s, i, "&") {
      PeekToken(s, i, "&");
      BacksOk(s, GetToken(s, i).next, Back(c));
    }
  }

  lemma PeekToken(s: string, i: nat, toks: string)
    requires i <= |s| && Peek(s, i, toks)
    ensures i < GetToken(s, i).next
  {
  }

  lemma {:induction false} ExecOk(s: string, i: nat)
    requires i <= |s| && ParseExec(s, i).Ok?
    ensures CmdOk(s, ParseExec(s, i).value)
    decreases |s| - i, 0
  {
    hide GetToken;
    hide Skip;
    hide FilesOk;
    hide ParseRedirs;
    hide ParseArgs;
    hide ParseLine;
    hide Wrap;
    if Peek(s, i, "(") {
      PeekToken(s, i, "(");
      var r := ParseLine(s, GetToken(s, i).next);
      LineOk(s, GetToken(s, i).next);
      var j := GetToken(s, r.at).next;
      RedirsOk(s, j);
      WrapOk(s, r.value, ParseRedirs(s, j).value);
    } else {
      var rs := ParseRedirs(s, i);
      RedirsOk(s, i);
      ArgsOk(s, rs.at, 0);
      var r := ParseArgs(s, rs.at, 0);
      FilesJoin(s, rs.value, r.value.arrows);
      WrapOk(s, Exec(r.value.argv), rs.value + r.value.arrows);
    }
  }

  lemma FilesJoin(s: string, rs: seq<Arrow<Span>>, rs': seq<Arrow<Span>>)
    requires FilesOk(s, rs) && FilesOk(s, rs')
    ensures FilesOk(s, rs + rs')
  {
  }

  lemma {:induction false} PipeOk(s: string, i: nat)
    requires i <= |s| && ParsePipe(s, i).Ok?
    ensures CmdOk(s, ParsePipe(s, i).value)
    decreases |s| - i, 1
  {
    hide GetToken;
    hide Skip;
    hide ParseExec;
    var l := ParseExec(s, i);
    ExecOk(s, i);
    if Peek(s, l.at, "|") {
      PeekToken(s, l.at, "|");
      PipeOk(s, GetToken(s, l.at).next);
    }
  }

  lemma {:induction false} LineOk(s: string, i: nat)
    requires i <= |s| && ParseLine(s, i).Ok?
    ensures CmdOk(s, ParseLine(s, i).value)
    decreases |s| - i, 2
  {
    hide GetToken;
    hide Skip;
    hide ParsePipe;
    hide ParseBacks;
    var p := ParsePipe(s, i);
    PipeOk(s, i);
    BacksOk(s, p.at, p.value);
    var l := ParseBacks(s, p.at, p.value);
    if Peek(s, l.at, ";") {
      PeekToken(s, l.at, ";");
      LineOk(s, GetToken(s, l.at).next);
    }
  }

  lemma WordLegal(s: string, w: Span)
    requires NoNul(s) && SpanOk(s, w)
    ensures LegalWord(Word(s, w))
  {
  }

  lemma {:induction false} WordsLegal(s: string, ws: seq<Span>)
    requires NoNul(s) && SpansOk(s, ws)
    ensures LegalWords(WordTexts(s, ws))
  {
    if ws != [] {
      WordLegal(s, ws[0]);
      WordsLegal(s, ws[1..]);
    }
  }

  lemma {:induction false} TextLegal(s: string, c: Cmd<Span>)
    requires NoNul(s) && CmdOk(s, c)
    ensures Legal(Text(s, c))
  {
    match c
    case Exec(argv) => WordsLegal(s, argv);
    case Redir(d, file, _) =>
      TextLegal(s, d);
      WordLegal(s, file);
    case Pipe(l, r) =>
      TextLegal(s, l);
      TextLegal(s, r);
    case List(l, r) =>
      TextLegal(s, l);
      TextLegal(s, r);
    case Back(d) => TextLegal(s, d);
  }

  /**
   * What the parser accepts is a legal command, and printing it gives a line that parses to the
   * same command again.
   */
  lemma Accepted(s: string)
    requires NoNul(s) && ParseCmd(s).Ok?
    ensures
      var c := Text(s, ParseCmd(s).value);
      Legal(c) && ParseCmd(Print(c)).Ok? && Text(Print(c), ParseCmd(Print(c)).value) == c
  {
    hide ParseLine;
    hide Skip;
    var c := ParseCmd(s).value;
    LineOk(s, 0);
    TextLegal(s, c);
    RoundTrip(Text(s, c));
  }

  function TerminateWord(b: seq<char>, w: Span): (r: seq<char>)
    ensures |r| == |b|
  {
    if w.e < |b| then b[w.e := NUL] else b
  }

  /** A NUL at the end of each of the words. */
  function TerminateWords(b: seq<char>, ws: seq<Span>): (r: seq<char>)
    ensures |r| == |b|
  {
    if ws == [] then b else TerminateWord(TerminateWords(b, ws[..|ws| - 1]), ws[|ws| - 1])
  }

  /** The buffer after the words of c have been NUL-terminated. */
  function Terminated(b: seq<char>, c: Cmd<Span>): (r: seq<char>)
    ensures |r| == |b|
    decreases c
  {
    match c
    case Exec(argv) => TerminateWords(b, argv)
    case Redir(d, file, _) => TerminateWord(Terminated(b, d), file)
    case Pipe(l, r) => Terminated(Terminated(b, l), r)
    case List(l, r) => Terminated(Terminated(b, l), r)
    case Back(d) => Terminated(b, d)
  }

  /** b is the line and its final NUL, with every plain character as it was. */
  ghost predicate Kept(s: string, b: seq<char>) {
    |b| == |s| + 1 && forall k :: 0 <= k < |s| && Plain(s[k]) ==> b[k] == s[k]
  }

  /** Where b has a NUL, b' has one. */
  ghost predicate NulsKept(b: seq<char>, b': seq<char>) {
    |b'| == |b| && forall k :: 0 <= k < |b| && b[k] == NUL ==> b'[k] == NUL
  }

  ghost predicate Ends(b: seq<char>, w: Span) { w.e < |b| && b[w.e] == NUL }

  ghost predicate AllEnd(b: seq<char>, c: Cmd<Span>) {
    match c
    case Exec(argv) => forall k :: 0 <= k < |argv| ==> Ends(b, argv[k])
    case Redir(d, file, _) => AllEnd(b, d) && Ends(b, file)
    case Pipe(l, r) => AllEnd(b, l) && AllEnd(b, r)
    case List(l, r) => AllEnd(b, l) && AllEnd(b, r)
    case Back(d) => AllEnd(b, d)
  }

  lemma WordKept(s: string, b: seq<char>, w: Span)
    requires Kept(s, b) && SpanOk(s, w)
    ensures Kept(s, TerminateWord(b, w)) && NulsKept(b, TerminateWord(b, w)) && Ends(TerminateWord(b, w), w)
  {
  }

  lemma {:induction false} WordsKept(s: string, b: seq<char>, ws: seq<Span>)
    requires Kept(s, b) && SpansOk(s, ws)
    ensures
      var b' := TerminateWords(b, ws);
      Kept(s, b') && NulsKept(b, b') && forall k :: 0 <= k < |ws| ==> Ends(b', ws[k])
    decreases |ws|
  {
    hide Kept;
    hide SpanOk;
    hide TerminateWord;
    if ws != [] {
      var init := ws[..|ws| - 1];
      WordsKept(s, b, init);
      WordKept(s, TerminateWords(b, init), ws[|ws| - 1]);
      assert forall k :: 0 <= k < |init| ==> init[k] == ws[k];
    }
  }

  lemma {:induction false} AllEndKept(b: seq<char>, b': seq<char>, c: Cmd<Span>)
    requires AllEnd(b, c) && NulsKept(b, b')
    ensures AllEnd(b', c)
  {
    match c
    case Exec(argv) =>
    case Redir(d, _, _) => AllEndKept(b, b', d);
    case Pipe(l, r) =>
      AllEndKept(b, b', l);
      AllEndKept(b, b', r);
    case List(l, r) =>
      AllEndKept(b, b', l);
      AllEndKept(b, b', r);
    case Back(d) => AllEndKept(b, b', d);
  }

  /** No terminator lands inside a word, and each word gets one at its end. */
  lemma {:induction false} TerminatedOk(s: string, b: seq<char>, c: Cmd<Span>)
    requires Kept(s, b) && CmdOk(s, c)
    ensures
      var b' := Terminated(b, c);
      Kept(s, b') && NulsKept(b, b') && AllEnd(b', c)
    decreases c
  {
    match c
    case Exec(argv) => WordsKept(s, b, argv);
    case Redir(d, file, _) =>
      TerminatedOk(s, b, d);
      WordKept(s, Terminated(b, d), file);
      AllEndKept(Terminated(b, d), Terminated(b, c), d);
    case Pipe(l, r) =>
      TerminatedOk(s, b, l);
      TerminatedOk(s, Terminated(b, l), r);
      AllEndKept(Terminated(b, l), Terminated(b, c), l);
    case List(l, r) =>
      TerminatedOk(s, b, l);
      TerminatedOk(s, Terminated(b, l), r);
      AllEndKept(Terminated(b, l), Terminated(b, c), l);
    case Back(d) => TerminatedOk(s, b, d);
  }

  /** The C string at q. */
  function CString(b: seq<char>, q: nat): string
    decreases |b| - q
  {
    if q < |b| && b[q] != NUL then [b[q]] + CString(b, q + 1) else ""
  }

  lemma {:induction false} WordReads(s: string, b: seq<char>, w: Span, i: nat)
    requires NoNul(s) && Kept(s, b) && SpanOk(s, w) && Ends(b, w) && w.q <= i <= w.e
    ensures CString(b, i) == s[i..w.e]
    decreases w.e - i
  {
    if i < w.e {
      WordReads(s, b, w, i + 1);
    }
  }

  /** Every word of c reads, in the buffer, as the token the parser saw. */
  ghost predicate Reads(s: string, b: seq<char>, c: Cmd<Span>) {
    match c
    case Exec(argv) => forall k :: 0 <= k < |argv| ==> CString(b, argv[k].q) == Word(s, argv[k])
    case Redir(d, file, _) => Reads(s, b, d) && CString(b, file.q) == Word(s, file)
    case Pipe(l, r) => Reads(s, b, l) && Reads(s, b, r)
    case List(l, r) => Reads(s, b, l) && Reads(s, b, r)
    case Back(d) => Reads(s, b, d)
  }

  lemma {:induction false} AllRead(s: string, b: seq<char>, c: Cmd<Span>)
    requires NoNul(s) && Kept(s, b) && CmdOk(s, c) && AllEnd(b, c)
    ensures Reads(s, b, c)
  {
    match c
    case Exec(argv) =>
      forall k | 0 <= k < |argv| ensures CString(b, argv[k].q) == Word(s, argv[k]) {
        WordReads(s, b, argv[k], argv[k].q);
      }
    case Redir(d, file, _) =>
      AllRead(s, b, d);
      WordReads(s, b, file, file.q);
    case Pipe(l, r) =>
      AllRead(s, b, l);
      AllRead(s, b, r);
    case List(l, r) =>
      AllRead(s, b, l);
      AllRead(s, b, r);
    case Back(d) => AllRead(s, b, d);
  }

  /** On any accepted line, terminating the words leaves each reading as its token. */
  lemma NulTermination(s: string)
    requires NoNul(s) && ParseCmd(s).Ok?
    ensures Reads(s, Terminated(s + [NUL], ParseCmd(s).value), ParseCmd(s).value)
  {
    hide ParseLine;
    hide Skip;
    var c := ParseCmd(s).value;
    LineOk(s, 0);
    TerminatedOk(s, s + [NUL], c);
    AllRead(s, Terminated(s + [NUL], c), c);
  }
}
