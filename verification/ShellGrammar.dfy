/** The grammar of command lines, and the trees of what is written by it. */
module ShellGrammar {
  import opened ShellSyntax
  import opened ShellLexemes

  /** A word of a simple command, or a redirection among the words; one for output may be written as > or >>. */
  datatype Item = Arg(word: string) | To(arrow: Arrow<string>, twice: bool)

  datatype Form =
    | Bare(items: seq<Item>)
    | Block(line: Form, items: seq<Item>)
    | Piped(left: Form, right: Form)
    | Backed(form: Form)
    | Listed(left: Form, right: Form)

  function Sign(it: Item): char
    requires it.To?
  {
    if !it.arrow.out then '<' else if it.twice then '+' else '>'
  }

  function YieldItem(it: Item): seq<Lexeme> {
    if it.Arg? then [Chars(it.word)] else [Mark(Sign(it)), Chars(it.arrow.file)]
  }

  function YieldItems(items: seq<Item>): seq<Lexeme> {
    if items == [] then [] else YieldItem(items[0]) + YieldItems(items[1..])
  }

  /** What is written for a form. */
  function Yield(f: Form): seq<Lexeme> {
    match f
    case Bare(items) => YieldItems(items)
    case Block(line, items) => [Mark('(')] + Yield(line) + [Mark(')')] + YieldItems(items)
    case Piped(l, r) => Yield(l) + [Mark('|')] + Yield(r)
    case Backed(g) => Yield(g) + [Mark('&')]
    case Listed(l, r) => Yield(l) + [Mark(';')] + Yield(r)
  }

  function Args(items: seq<Item>): seq<string> {
    if items == [] then [] else (if items[0].Arg? then [items[0].word] else []) + Args(items[1..])
  }

  function Tos(items: seq<Item>): seq<Arrow<string>> {
    if items == [] then [] else (if items[0].To? then [items[0].arrow] else []) + Tos(items[1..])
  }

  /** The command a form stands for: the redirections, wherever they are, in the order they are written. */
  function Tree(f: Form): Cmd<string> {
    match f
    case Bare(items) => Wrap(Exec(Args(items)), Tos(items))
    case Block(line, items) => Wrap(Tree(line), Tos(items))
    case Piped(l, r) => Pipe(Tree(l), Tree(r))
    case Backed(g) => Back(Tree(g))
    case Listed(l, r) => List(Tree(l), Tree(r))
  }

  /** The four levels of the grammar. */
  predicate IsExec(f: Form)
    decreases f, 0
  {
    match f
    case Bare(items) => |Args(items)| < MAXARGS
    case Block(line, items) => IsLine(line) && Args(items) == []
    case _ => false
  }

  predicate IsPipe(f: Form)
    decreases f, 1
  {
    if f.Piped? then IsExec(f.left) && IsPipe(f.right) else IsExec(f)
  }

  predicate IsBack(f: Form)
    decreases f, 2
  {
    if f.Backed? then IsBack(f.form) else IsPipe(f)
  }

  predicate IsLine(f: Form)
    decreases f, 3
  {
    if f.Listed? then IsBack(f.left) && IsLine(f.right) else IsBack(f)
  }

  lemma YieldBlock(f: Form, items: seq<Item>, more: seq<Lexeme>)
    ensures [Mark('(')] + (Yield(f) + ([Mark(')')] + (YieldItems(items) + more))) == Yield(Block(f, items)) + more
  {
  }

  lemma YieldPiped(f: Form, g: Form, more: seq<Lexeme>)
    ensures Yield(f) + ([Mark('|')] + (Yield(g) + more)) == Yield(Piped(f, g)) + more
  {
  }

  lemma YieldBacked(f: Form, more: seq<Lexeme>)
    ensures Yield(f) + ([Mark('&')] + more) == Yield(Backed(f)) + more
  {
  }

  lemma YieldListed(f: Form, g: Form, more: seq<Lexeme>)
    ensures Yield(f) + ([Mark(';')] + (Yield(g) + more)) == Yield(Listed(f, g)) + more
  {
  }

  lemma RedirStep(s: string, i: nat)
    requires i <= |s| && Peek(s, i, "<>") && GetToken(s, GetToken(s, i).next).kind == 'a'
    ensures
      var t := GetToken(s, i);
      var f := GetToken(s, t.next);
      var r := ParseRedirs(s, f.next);
      ParseRedirs(s, i) == if r.Err? then r else Ok([Arrow(Span(f.q, f.e), t.kind != '<')] + r.value, r.at)
  {
    hide Skip;
    hide GetToken;
    hide Peek;
  }

  lemma NoRedirs(s: string, i: nat)
    requires i <= |s| && !Starts(Lexemes(s, i), "<>")
    ensures ParseRedirs(s, i) == Ok([], Skip(s, i)) && Lexemes(s, Skip(s, i)) == Lexemes(s, i)
  {
    PeekIs(s, i, "<>");
    SkipLexemes(s, i);
  }

  /** The lexeme at i, and what comes after it. */
  lemma HeadIs(s: string, i: nat, l: Lexeme, more: seq<Lexeme>)
    requires i <= |s| && Lexemes(s, i) == [l] + more
    ensures
      var t := GetToken(s, i);
      Lexemes(s, t.next) == more && t.kind == (if l.Chars? then 'a' else l.c) && i < t.next
    ensures l.Chars? ==> Word(s, Span(GetToken(s, i).q, GetToken(s, i).e)) == l.text
  {
    hide TokenAt;
    Head(s, i);
    var t := GetToken(s, i);
    assert Lexemes(s, i)[0] == l && Lexemes(s, i)[1..] == more;
    assert Lexemes(s, i)[0] == LexemeOf(s, t) && Lexemes(s, i)[1..] == Lexemes(s, t.next);
  }

  /** One redirection read off the front. */
  lemma ToHead(it: Item, s: string, i: nat, more: seq<Lexeme>)
    requires it.To? && i <= |s| && Lexemes(s, i) == YieldItem(it) + more
    ensures
      var f := GetToken(s, GetToken(s, i).next);
      var r := ParseRedirs(s, f.next);
      && Lexemes(s, f.next) == more && i < f.next
      && (r.Ok? ==>
        && ParseRedirs(s, i).Ok? && ParseRedirs(s, i).at == r.at
        && ArrowTexts(s, ParseRedirs(s, i).value) == [it.arrow] + ArrowTexts(s, r.value))
  {
    hide ParseRedirs;
    hide GetToken;
    hide Lexemes;
    hide Skip;
    hide Word;
    assert Lexemes(s, i) == [Mark(Sign(it))] + ([Chars(it.arrow.file)] + more);
    HeadIs(s, i, Mark(Sign(it)), [Chars(it.arrow.file)] + more);
    HeadIs(s, GetToken(s, i).next, Chars(it.arrow.file), more);
    PeekIs(s, i, "<>");
    RedirStep(s, i);
    var f := GetToken(s, GetToken(s, i).next);
    var r := ParseRedirs(s, f.next);
    if r.Ok? {
      assert ParseRedirs(s, i).value[1..] == r.value;
    }
  }

  lemma {:induction false} RedirsRead(items: seq<Item>, s: string, i: nat, more: seq<Lexeme>)
    requires i <= |s| && Lexemes(s, i) == YieldItems(items) + more && Args(items) == [] && !Starts(more, "<>")
    ensures
      var r := ParseRedirs(s, i);
      r.Ok? && ArrowTexts(s, r.value) == Tos(items) && Lexemes(s, r.at) == more
    decreases |items|
  {
    hide ParseRedirs;
    hide GetToken;
    hide Lexemes;
    hide Starts;
    if items == [] {
      assert YieldItems(items) + more == more;
      NoRedirs(s, i);
    } else {
      var f := GetToken(s, GetToken(s, i).next);
      assert YieldItems(items) + more == YieldItem(items[0]) + (YieldItems(items[1..]) + more);
      ToHead(items[0], s, i, YieldItems(items[1..]) + more);
      RedirsRead(items[1..], s, f.next, more);
    }
  }

  /** The redirections in front, and what begins with a word. */
  lemma {:induction false} Lead(items: seq<Item>) returns (tos: seq<Item>, rest: seq<Item>)
    ensures Args(tos) == [] && |rest| <= |items| && (rest != [] ==> rest[0].Arg?)
    ensures Args(items) == Args(rest) && Tos(items) == Tos(tos) + Tos(rest)
    ensures YieldItems(items) == YieldItems(tos) + YieldItems(rest)
  {
    if items == [] || items[0].Arg? {
      tos, rest := [], items;
    } else {
      var more;
      more, rest := Lead(items[1..]);
      tos := [items[0]] + more;
      assert tos[1..] == more;
    }
  }

  /** Nothing but the end of a simple command comes next. */
  predicate Stops(ls: seq<Lexeme>) { ls == [] || Starts(ls, "|)&;") }

  lemma NoArgs(s: string, i: nat, argc: nat)
    requires i <= |s| && Stops(Lexemes(s, i))
    ensures
      var r := ParseArgs(s, i, argc);
      r.Ok? && r.value == Simple([], []) && Lexemes(s, r.at) == Lexemes(s, i)
  {
    PeekIs(s, i, "|)&;");
    SkipLexemes(s, i);
    Head(s, i);
    NextSkips(s, i);
    SkipTwice(s, i);
  }

  lemma ArgsStep(s: string, i: nat, argc: nat)
    requires i <= |s| && !Peek(s, i, "|)&;") && GetToken(s, i).kind == 'a' && argc + 1 < MAXARGS
    requires ParseRedirs(s, GetToken(s, i).next).Ok?
    ensures
      var t := GetToken(s, i);
      var rs := ParseRedirs(s, t.next);
      var r := ParseArgs(s, rs.at, argc + 1);
      ParseArgs(s, i, argc) ==
        if r.Err? then r
        else Ok(Simple([Span(t.q, t.e)] + r.value.argv, rs.value + r.value.arrows), r.at)
  {
    hide Skip;
    hide GetToken;
    hide Peek;
    hide ParseRedirs;
  }

  lemma {:induction false} ArrowTextsJoin(s: string, a: seq<Arrow<Span>>, b: seq<Arrow<Span>>)
    ensures ArrowTexts(s, a + b) == ArrowTexts(s, a) + ArrowTexts(s, b)
  {
    if a == [] {
      assert a + b == b;
    } else {
      assert (a + b)[1..] == a[1..] + b;
      ArrowTextsJoin(s, a[1..], b);
    }
  }

  /** A word and the redirections after it, read off the front. */
  lemma ArgHead(w: string, tos: seq<Item>, s: string, i: nat, argc: nat, more: seq<Lexeme>) returns (at: nat)
    requires i <= |s| && Lexemes(s, i) == [Chars(w)] + (YieldItems(tos) + more) && argc + 1 < MAXARGS
    requires Args(tos) == [] && !Starts(more, "<>")
    ensures at <= |s| && Lexemes(s, at) == more
    ensures
      var r := ParseArgs(s, at, argc + 1);
      r.Ok? ==>
        && ParseArgs(s, i, argc).Ok? && ParseArgs(s, i, argc).at == r.at
        && WordTexts(s, ParseArgs(s, i, argc).value.argv) == [w] + WordTexts(s, r.value.argv)
        && ArrowTexts(s, ParseArgs(s, i, argc).value.arrows) == Tos(tos) + ArrowTexts(s, r.value.arrows)
  {
    hide ParseRedirs;
    hide ParseArgs;
    hide GetToken;
    hide Lexemes;
    hide Skip;
    hide Word;
    hide ArrowTexts;
    HeadIs(s, i, Chars(w), YieldItems(tos) + more);
    PeekIs(s, i, "|)&;");
    var t := GetToken(s, i);
    RedirsRead(tos, s, t.next, more);
    ArgsStep(s, i, argc);
    var rs := ParseRedirs(s, t.next);
    at := rs.at;
    var r := ParseArgs(s, at, argc + 1);
    if r.Ok? {
      ArrowTextsJoin(s, rs.value, r.value.arrows);
      assert ([Span(t.q, t.e)] + r.value.argv)[1..] == r.value.argv;
    }
  }

  /** What comes next begins neither a redirection nor, if it is not a word, anything but the end. */
  lemma NextArg(items: seq<Item>, more: seq<Lexeme>)
    requires Stops(more) && (items != [] ==> items[0].Arg?)
    ensures !Starts(YieldItems(items) + more, "<>")
  {
    if items == [] {
      assert YieldItems(items) + more == more;
    }
  }

  lemma YieldArg(items: seq<Item>)
    requires items != [] && items[0].Arg?
    ensures YieldItems(items) == [Chars(items[0].word)] + YieldItems(items[1..])
    ensures Args(items) == [items[0].word] + Args(items[1..]) && Tos(items) == Tos(items[1..])
  {
  }

  /** A word in front, the redirections after it, and what begins with the next word. */
  lemma ArgSplit(items: seq<Item>, more: seq<Lexeme>) returns (tos: seq<Item>, rest: seq<Item>)
    requires items != [] && items[0].Arg?
    ensures Args(tos) == [] && |rest| < |items| && (rest != [] ==> rest[0].Arg?)
    ensures Args(items) == [items[0].word] + Args(rest) && Tos(items) == Tos(tos) + Tos(rest)
    ensures YieldItems(items) + more == [Chars(items[0].word)] + (YieldItems(tos) + (YieldItems(rest) + more))
  {
    hide YieldItems;
    hide Args;
    hide Tos;
    tos, rest := Lead(items[1..]);
    YieldArg(items);
    var w := [Chars(items[0].word)];
    assert (w + (YieldItems(tos) + YieldItems(rest))) + more == w + (YieldItems(tos) + (YieldItems(rest) + more));
  }

  lemma {:induction false} ArgsRead(items: seq<Item>, s: string, i: nat, argc: nat, more: seq<Lexeme>)
    requires i <= |s| && Lexemes(s, i) == YieldItems(items) + more && Stops(more)
    requires (items != [] ==> items[0].Arg?) && argc + |Args(items)| < MAXARGS
    ensures
      var r := ParseArgs(s, i, argc);
      && r.Ok? && WordTexts(s, r.value.argv) == Args(items) && ArrowTexts(s, r.value.arrows) == Tos(items)
      && Lexemes(s, r.at) == more
    decreases |items|
  {
    hide ParseArgs;
    hide Lexemes;
    hide Starts;
    hide Stops;
    if items == [] {
      assert YieldItems(items) + more == more;
      NoArgs(s, i, argc);
    } else {
      var tos, rest := ArgSplit(items, more);
      hide YieldItems;
      hide Args;
      hide Tos;
      NextArg(rest, more);
      var at := ArgHead(items[0].word, tos, s, i, argc, YieldItems(rest) + more);
      ArgsRead(rest, s, at, argc + 1, more);
    }
  }

  /** What a parser has read: form f, up to more. */
  ghost predicate Gives(r: Result<Cmd<Span>>, s: string, f: Form, more: seq<Lexeme>) {
    r.Ok? && r.at <= |s| && Text(s, r.value) == Tree(f) && Lexemes(s, r.at) == more
  }

  lemma BareReads(items: seq<Item>, s: string, i: nat, more: seq<Lexeme>)
    requires i <= |s| && Lexemes(s, i) == YieldItems(items) + more && Stops(more) && |Args(items)| < MAXARGS
    ensures Gives(ParseExec(s, i), s, Bare(items), more)
  {
    hide ParseRedirs;
    hide ParseArgs;
    hide Lexemes;
    hide ArrowTexts;
    hide WordTexts;
    hide Wrap;
    hide YieldItems;
    hide Args;
    hide Tos;
    hide Stops;
    hide Starts;
    var tos, rest := Lead(items);
    assert YieldItems(items) + more == YieldItems(tos) + (YieldItems(rest) + more);
    NextArg(rest, more);
    RedirsRead(tos, s, i, YieldItems(rest) + more);
    var rs := ParseRedirs(s, i);
    ArgsRead(rest, s, rs.at, 0, more);
    var r := ParseArgs(s, rs.at, 0);
    ArrowTextsJoin(s, rs.value, r.value.arrows);
    TextWrap(s, Exec(r.value.argv), rs.value + r.value.arrows);
    NoParen(items, more);
    PeekIs(s, i, "(");
  }

  lemma NoParen(items: seq<Item>, more: seq<Lexeme>)
    requires Stops(more)
    ensures !Starts(YieldItems(items) + more, "(")
  {
    if items == [] {
      assert YieldItems(items) + more == more;
    } else {
      assert YieldItems(items) + more == YieldItem(items[0]) + (YieldItems(items[1..]) + more);
    }
  }

  lemma {:induction false} ExecReads(f: Form, s: string, i: nat, more: seq<Lexeme>)
    requires IsExec(f) && i <= |s| && Lexemes(s, i) == Yield(f) + more && Stops(more)
    ensures Gives(ParseExec(s, i), s, f, more)
    decreases f, 0
  {
    hide ParseExec;
    hide Lexemes;
    hide Gives;
    hide Stops;
    if f.Bare? {
      BareReads(f.items, s, i, more);
    } else {
      var tail := YieldItems(f.items) + more;
      YieldBlock(f.line, f.items, more);
      hide Yield;
      HeadIs(s, i, Mark('('), Yield(f.line) + ([Mark(')')] + tail));
      LineReads(f.line, s, GetToken(s, i).next, [Mark(')')] + tail);
      BlockStep(f, s, i, more);
    }
  }

  lemma BlockStep(f: Form, s: string, i: nat, more: seq<Lexeme>)
    requires f.Block? && Args(f.items) == [] && i <= |s| && Starts(Lexemes(s, i), "(") && Stops(more)
    requires Gives(ParseLine(s, GetToken(s, i).next), s, f.line, [Mark(')')] + (YieldItems(f.items) + more))
    ensures Gives(ParseExec(s, i), s, f, more)
  {
    hide ParseRedirs;
    hide ParseLine;
    hide Lexemes;
    hide GetToken;
    hide Wrap;
    hide ArrowTexts;
    hide YieldItems;
    PeekIs(s, i, "(");
    var r := ParseLine(s, GetToken(s, i).next);
    HeadIs(s, r.at, Mark(')'), YieldItems(f.items) + more);
    PeekIs(s, r.at, ")");
    RedirsRead(f.items, s, GetToken(s, r.at).next, more);
    TextWrap(s, r.value, ParseRedirs(s, GetToken(s, r.at).next).value);
  }

  lemma {:induction false} PipeReads(f: Form, s: string, i: nat, more: seq<Lexeme>)
    requires IsPipe(f) && i <= |s| && Lexemes(s, i) == Yield(f) + more && Stops(more) && !Starts(more, "|")
    ensures Gives(ParsePipe(s, i), s, f, more)
    decreases f, 1
  {
    hide ParsePipe;
    hide ParseExec;
    hide Lexemes;
    hide GetToken;
    if f.Piped? {
      YieldPiped(f.left, f.right, more);
      hide Yield;
      ExecReads(f.left, s, i, [Mark('|')] + (Yield(f.right) + more));
      var at := ParseExec(s, i).at;
      HeadIs(s, at, Mark('|'), Yield(f.right) + more);
      PipeReads(f.right, s, GetToken(s, at).next, more);
      PipeStep(s, i);
    } else {
      ExecReads(f, s, i, more);
      PipeStep(s, i);
    }
  }

  lemma PipeStep(s: string, i: nat)
    requires i <= |s| && ParseExec(s, i).Ok?
    ensures
      var l := ParseExec(s, i);
      if !Starts(Lexemes(s, l.at), "|") then
        ParsePipe(s, i) == Ok(l.value, Skip(s, l.at)) && Lexemes(s, Skip(s, l.at)) == Lexemes(s, l.at)
      else
        var r := ParsePipe(s, GetToken(s, l.at).next);
        ParsePipe(s, i) == if r.Err? then r else Ok(Pipe(l.value, r.value), r.at)
  {
    hide ParseExec;
    hide GetToken;
    hide Lexemes;
    hide Starts;
    hide Peek;
    PeekIs(s, ParseExec(s, i).at, "|");
    SkipLexemes(s, ParseExec(s, i).at);
  }

  /** The &s, read after a pipe: t at place at is what has been read of f. */
  lemma {:induction false} BackReads(f: Form, s: string, i: nat, more: seq<Lexeme>) returns (t: Cmd<Span>, at: nat)
    requires IsBack(f) && i <= |s| && Lexemes(s, i) == Yield(f) + more && Stops(more) && !Starts(more, "|")
    ensures at <= |s| && Text(s, t) == Tree(f) && Lexemes(s, at) == more
    ensures
      var p := ParsePipe(s, i);
      p.Ok? && ParseBacks(s, p.at, p.value) == ParseBacks(s, at, t)
    decreases f, 2
  {
    hide ParsePipe;
    hide Lexemes;
    hide GetToken;
    if f.Backed? {
      YieldBacked(f.form, more);
      hide Yield;
      t, at := BackReads(f.form, s, i, [Mark('&')] + more);
      PeekIs(s, at, "&");
      HeadIs(s, at, Mark('&'), more);
      t, at := Back(t), GetToken(s, at).next;
    } else {
      PipeReads(f, s, i, more);
      t, at := ParsePipe(s, i).value, ParsePipe(s, i).at;
    }
  }

  lemma NoBacks(s: string, at: nat, t: Cmd<Span>)
    requires at <= |s| && !Starts(Lexemes(s, at), "&")
    ensures ParseBacks(s, at, t) == Ok(t, Skip(s, at)) && Lexemes(s, Skip(s, at)) == Lexemes(s, at)
  {
    PeekIs(s, at, "&");
    SkipLexemes(s, at);
  }

  lemma {:induction false} LineReads(f: Form, s: string, i: nat, more: seq<Lexeme>)
    requires IsLine(f) && i <= |s| && Lexemes(s, i) == Yield(f) + more && (more == [] || Starts(more, ")"))
    ensures Gives(ParseLine(s, i), s, f, more)
    decreases f, 3
  {
    hide ParsePipe;
    hide ParseBacks;
    hide Lexemes;
    hide GetToken;
    hide Skip;
    if f.Listed? {
      YieldListed(f.left, f.right, more);
      hide Yield;
      var t, at := BackReads(f.left, s, i, [Mark(';')] + (Yield(f.right) + more));
      NoBacks(s, at, t);
      PeekIs(s, Skip(s, at), ";");
      HeadIs(s, Skip(s, at), Mark(';'), Yield(f.right) + more);
      LineReads(f.right, s, GetToken(s, Skip(s, at)).next, more);
    } else {
      var t, at := BackReads(f, s, i, more);
      NoBacks(s, at, t);
      PeekIs(s, Skip(s, at), ";");
      SkipLexemes(s, Skip(s, at));
    }
  }
}
