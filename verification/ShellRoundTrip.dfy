/** The parser accepts exactly the lines that the grammar writes, and gives their trees. */
module ShellRoundTrip {
  import opened ShellSyntax
  import opened ShellLexemes
  import opened ShellGrammar

  /** The next token is symbol c. */
  lemma TokenIs(s: string, i: nat, toks: string)
    requires i <= |s| && Peek(s, i, toks) && forall c :: c in toks ==> Symbol(c)
    ensures
      var t := GetToken(s, i);
      && i < t.next && Symbol(At(s, t.q)) && At(s, t.q) in toks && t.kind != NUL && t.kind != 'a'
      && Lexemes(s, i) == [Mark(t.kind)] + Lexemes(s, t.next)
      && (t.kind == At(s, t.q) || (At(s, t.q) == '>' && t.kind == '+'))
  {
    Head(s, i);
  }

  lemma Assoc<T>(x: seq<T>, y: seq<T>, z: seq<T>)
    ensures x + (y + z) == (x + y) + z
  {
  }

  lemma YieldTo(it: Item, more: seq<Item>, rest: seq<Lexeme>)
    requires it.To?
    ensures YieldItems([it] + more) + rest == [Mark(Sign(it))] + ([Chars(it.arrow.file)] + (YieldItems(more) + rest))
    ensures Args([it] + more) == Args(more) && Tos([it] + more) == [it.arrow] + Tos(more)
  {
    assert ([it] + more)[1..] == more;
    var m, w := [Mark(Sign(it))], [Chars(it.arrow.file)];
    assert YieldItem(it) == m + w;
    hide YieldItem;
    Assoc(m + w, YieldItems(more), rest);
    Assoc(m, w, YieldItems(more) + rest);
  }

  lemma ToJoin(s: string, f: Token, kind: char, more: seq<Item>, rs: seq<Arrow<Span>>, rest: seq<Lexeme>)
    requires f.q <= f.e <= |s| && kind in "<>+" && Args(more) == [] && Tos(more) == ArrowTexts(s, rs)
    ensures
      var items := [To(Arrow(s[f.q..f.e], kind != '<'), kind == '+')] + more;
      && Args(items) == [] && Tos(items) == ArrowTexts(s, [Arrow(Span(f.q, f.e), kind != '<')] + rs)
      && YieldItems(items) + rest == [Mark(kind)] + ([Chars(s[f.q..f.e])] + (YieldItems(more) + rest))
  {
    var it, a := To(Arrow(s[f.q..f.e], kind != '<'), kind == '+'), Arrow(Span(f.q, f.e), kind != '<');
    YieldTo(it, more, rest);
    hide YieldItems;
    hide Args;
    hide Tos;
    assert ([a] + rs)[1..] == rs;
  }

  /** Redirections that were parsed were written. */
  lemma {:induction false} RedirsFound(s: string, i: nat) returns (items: seq<Item>)
    requires i <= |s| && ParseRedirs(s, i).Ok?
    ensures
      var r := ParseRedirs(s, i);
      && Args(items) == [] && Tos(items) == ArrowTexts(s, r.value)
      && Lexemes(s, i) == YieldItems(items) + Lexemes(s, r.at)
    decreases |s| - i
  {
    hide GetToken;
    hide Skip;
    hide Lexemes;
    if Peek(s, i, "<>") {
      TokenIs(s, i, "<>");
      hide Peek;
      var t := GetToken(s, i);
      var f := GetToken(s, t.next);
      Head(s, t.next);
      var more := RedirsFound(s, f.next);
      var it := To(Arrow(s[f.q..f.e], t.kind != '<'), t.kind == '+');
      items := [it] + more;
      ToJoin(s, f, t.kind, more, ParseRedirs(s, f.next).value, Lexemes(s, ParseRedirs(s, f.next).at));
      hide YieldItems;
      hide ArrowTexts;
      hide Args;
      hide Tos;
    } else {
      items := [];
      SkipLexemes(s, i);
    }
  }

  lemma {:induction false} ArgsOver(a: seq<Item>, b: seq<Item>)
    ensures Args(a + b) == Args(a) + Args(b)
  {
    if a == [] {
      assert a + b == b;
    } else {
      assert (a + b)[1..] == a[1..] + b;
      ArgsOver(a[1..], b);
      Assoc(if a[0].Arg? then [a[0].word] else [], Args(a[1..]), Args(b));
    }
  }

  lemma {:induction false} TosOver(a: seq<Item>, b: seq<Item>)
    ensures Tos(a + b) == Tos(a) + Tos(b)
  {
    if a == [] {
      assert a + b == b;
    } else {
      assert (a + b)[1..] == a[1..] + b;
      TosOver(a[1..], b);
      Assoc(if a[0].To? then [a[0].arrow] else [], Tos(a[1..]), Tos(b));
    }
  }

  lemma {:induction false} YieldOver(a: seq<Item>, b: seq<Item>)
    ensures YieldItems(a + b) == YieldItems(a) + YieldItems(b)
  {
    hide YieldItem;
    if a == [] {
      assert a + b == b;
    } else {
      assert (a + b)[1..] == a[1..] + b;
      YieldOver(a[1..], b);
      Assoc(YieldItem(a[0]), YieldItems(a[1..]), YieldItems(b));
    }
  }

  lemma ItemsJoin(a: seq<Item>, b: seq<Item>)
    ensures Args(a + b) == Args(a) + Args(b) && Tos(a + b) == Tos(a) + Tos(b)
    ensures YieldItems(a + b) == YieldItems(a) + YieldItems(b)
  {
    ArgsOver(a, b);
    TosOver(a, b);
    YieldOver(a, b);
  }

  lemma {:induction false} ArgsFound(s: string, i: nat, argc: nat) returns (items: seq<Item>)
    requires i <= |s| && argc < MAXARGS && ParseArgs(s, i, argc).Ok?
    ensures
      var r := ParseArgs(s, i, argc);
      && Args(items) == WordTexts(s, r.value.argv) && Tos(items) == ArrowTexts(s, r.value.arrows)
      && argc + |Args(items)| < MAXARGS && Lexemes(s, i) == YieldItems(items) + Lexemes(s, r.at)
    decreases |s| - i
  {
    hide GetToken;
    hide Skip;
    hide Lexemes;
    hide Peek;
    hide ParseRedirs;
    var t := GetToken(s, i);
    Head(s, i);
    if Peek(s, i, "|)&;") {
      items := [];
      SkipLexemes(s, i);
    } else if t.kind == NUL {
      items := [];
      EndStays(s, i);
    } else {
      var rs := ParseRedirs(s, t.next);
      var tos := RedirsFound(s, t.next);
      var more := ArgsFound(s, rs.at, argc + 1);
      items := [Arg(s[t.q..t.e])] + (tos + more);
      var r := ParseArgs(s, rs.at, argc + 1);
      ArgsJoin(s, t, tos, more, rs.value, r.value);
      hide YieldItems;
      hide Args;
      hide Tos;
      hide WordTexts;
      hide ArrowTexts;
      Assoc([Chars(s[t.q..t.e])], YieldItems(tos) + YieldItems(more), Lexemes(s, r.at));
      Assoc(YieldItems(tos), YieldItems(more), Lexemes(s, r.at));
    }
  }

  lemma EndStays(s: string, i: nat)
    requires i <= |s| && GetToken(s, i).kind == NUL
    ensures Lexemes(s, GetToken(s, i).next) == Lexemes(s, i) == []
  {
    NextSkips(s, i);
    SkipTwice(s, i);
    SkipLexemes(s, i);
  }

  lemma ArgsJoin(s: string, t: Token, tos: seq<Item>, more: seq<Item>, rs: seq<Arrow<Span>>, r: Simple)
    requires t.q <= t.e <= |s| && Args(tos) == [] && Tos(tos) == ArrowTexts(s, rs)
    requires Args(more) == WordTexts(s, r.argv) && Tos(more) == ArrowTexts(s, r.arrows)
    ensures
      var items := [Arg(s[t.q..t.e])] + (tos + more);
      && Args(items) == WordTexts(s, [Span(t.q, t.e)] + r.argv) && Tos(items) == ArrowTexts(s, rs + r.arrows)
      && YieldItems(items) == [Chars(s[t.q..t.e])] + (YieldItems(tos) + YieldItems(more))
  {
    ItemsJoin(tos, more);
    ArrowTextsJoin(s, rs, r.arrows);
    var items := [Arg(s[t.q..t.e])] + (tos + more);
    assert items[1..] == tos + more && ([Span(t.q, t.e)] + r.argv)[1..] == r.argv;
  }

  /** What a parser accepted from i on: form f was written there. */
  ghost predicate Wrote(r: Result<Cmd<Span>>, s: string, i: nat, f: Form)
    requires i <= |s|
  {
    r.Ok? && r.at <= |s| && Tree(f) == Text(s, r.value) && Lexemes(s, i) == Yield(f) + Lexemes(s, r.at)
  }

  lemma BareFound(s: string, i: nat) returns (f: Form)
    requires i <= |s| && ParseExec(s, i).Ok? && !Peek(s, i, "(")
    ensures IsExec(f) && Wrote(ParseExec(s, i), s, i, f)
  {
    hide ParseRedirs;
    hide ParseArgs;
    hide Peek;
    hide Lexemes;
    hide Wrap;
    hide ArrowTexts;
    hide YieldItems;
    hide Args;
    hide Tos;
    var rs := ParseRedirs(s, i);
    var tos := RedirsFound(s, i);
    var more := ArgsFound(s, rs.at, 0);
    var r := ParseArgs(s, rs.at, 0).value;
    f := Bare(tos + more);
    ItemsJoin(tos, more);
    ArrowTextsJoin(s, rs.value, r.arrows);
    TextWrap(s, Exec(r.argv), rs.value + r.arrows);
    assert Args(tos + more) == Args(more);
  }

  lemma {:induction false} ExecFound(s: string, i: nat) returns (f: Form)
    requires i <= |s| && ParseExec(s, i).Ok?
    ensures IsExec(f) && Wrote(ParseExec(s, i), s, i, f)
    decreases |s| - i, 0
  {
    hide ParseRedirs;
    hide ParseArgs;
    hide ParseLine;
    hide GetToken;
    hide Peek;
    hide Lexemes;
    hide Wrap;
    hide ArrowTexts;
    hide YieldItems;
    if !Peek(s, i, "(") {
      f := BareFound(s, i);
    } else {
      TokenIs(s, i, "(");
      var r := ParseLine(s, GetToken(s, i).next);
      var line := LineFound(s, GetToken(s, i).next);
      TokenIs(s, r.at, ")");
      var j := GetToken(s, r.at).next;
      var tos := RedirsFound(s, j);
      f := Block(line, tos);
      TextWrap(s, r.value, ParseRedirs(s, j).value);
      YieldBlock(line, tos, Lexemes(s, ParseRedirs(s, j).at));
      hide Yield;
    }
  }

  lemma {:induction false} PipeFound(s: string, i: nat) returns (f: Form)
    requires i <= |s| && ParsePipe(s, i).Ok?
    ensures IsPipe(f) && Wrote(ParsePipe(s, i), s, i, f)
    decreases |s| - i, 1
  {
    hide ParseExec;
    hide GetToken;
    hide Peek;
    hide Lexemes;
    hide Skip;
    var l := ParseExec(s, i);
    f := ExecFound(s, i);
    if Peek(s, l.at, "|") {
      TokenIs(s, l.at, "|");
      var g := PipeFound(s, GetToken(s, l.at).next);
      YieldPiped(f, g, Lexemes(s, ParsePipe(s, i).at));
      f := Piped(f, g);
      hide Yield;
    } else {
      SkipLexemes(s, l.at);
    }
  }

  /** Each level of the grammar has the one below. */
  lemma Below(f: Form)
    ensures IsExec(f) ==> IsPipe(f)
    ensures IsPipe(f) ==> IsBack(f)
    ensures IsBack(f) ==> IsLine(f)
  {
    if f.Listed? || f.Backed? {
      assert !IsExec(f) && !IsPipe(f);
    }
  }

  lemma {:induction false} BacksFound(s: string, i: nat, c: Cmd<Span>, f: Form) returns (g: Form)
    requires i <= |s| && IsBack(f) && Tree(f) == Text(s, c)
    ensures
      var r := ParseBacks(s, i, c);
      IsBack(g) && Tree(g) == Text(s, r.value) && Yield(f) + Lexemes(s, i) == Yield(g) + Lexemes(s, r.at)
    decreases |s| - i
  {
    hide GetToken;
    hide Peek;
    hide Lexemes;
    hide Skip;
    if Peek(s, i, "&") {
      TokenIs(s, i, "&");
      var next := GetToken(s, i).next;
      g := BacksFound(s, next, Back(c), Backed(f));
      YieldBacked(f, Lexemes(s, next));
      hide Yield;
      hide Tree;
      hide IsBack;
    } else {
      g := f;
      SkipLexemes(s, i);
    }
  }

  lemma {:induction false} LineFound(s: string, i: nat) returns (f: Form)
    requires i <= |s| && ParseLine(s, i).Ok?
    ensures IsLine(f) && Wrote(ParseLine(s, i), s, i, f)
    decreases |s| - i, 2
  {
    hide ParsePipe;
    hide ParseBacks;
    hide GetToken;
    hide Peek;
    hide Lexemes;
    hide Skip;
    var p := ParsePipe(s, i);
    f := PipeFound(s, i);
    Below(f);
    f := BacksFound(s, p.at, p.value, f);
    Below(f);
    var l := ParseBacks(s, p.at, p.value);
    if Peek(s, l.at, ";") {
      TokenIs(s, l.at, ";");
      var g := LineFound(s, GetToken(s, l.at).next);
      YieldListed(f, g, Lexemes(s, ParseLine(s, i).at));
      f := Listed(f, g);
      hide Yield;
    } else {
      SkipLexemes(s, l.at);
    }
  }

  /** The line s is written for f, with those blanks. */
  ghost predicate Writes(f: Form, gaps: seq<string>, s: string) {
    IsLine(f) && Spaced(Yield(f), gaps) && s == Write(Yield(f), gaps)
  }

  /** Whatever the grammar writes is accepted, with nothing left over, and gives the tree of its form. */
  lemma Complete(f: Form, gaps: seq<string>)
    requires IsLine(f) && Spaced(Yield(f), gaps)
    ensures
      var s := Write(Yield(f), gaps);
      ParseCmd(s).Ok? && ParseCmd(s).at == |s| && Text(s, ParseCmd(s).value) == Tree(f)
  {
    hide ParseLine;
    hide Write;
    var s := Write(Yield(f), gaps);
    assert s[0..] == s;
    ReadBack(s, 0, Yield(f), gaps);
    assert Lexemes(s, 0) == Yield(f) + [];
    LineReads(f, s, 0, []);
    WrittenNoNul(Yield(f), gaps);
    Head(s, ParseLine(s, 0).at);
    NulAtEnd(s, ParseLine(s, 0).at);
  }

  lemma {:induction false} WrittenNoNul(ls: seq<Lexeme>, gaps: seq<string>)
    requires Spaced(ls, gaps)
    ensures NoNul(Write(ls, gaps))
  {
    if ls != [] {
      WrittenNoNul(ls[1..], gaps[1..]);
    }
  }

  /** Whatever is accepted is written by the grammar, for a form with the tree it gives. */
  lemma Sound(s: string) returns (f: Form, gaps: seq<string>)
    requires NoNul(s) && ParseCmd(s).Ok?
    ensures Writes(f, gaps, s) && Tree(f) == Text(s, ParseCmd(s).value)
  {
    hide ParseLine;
    hide Write;
    hide Spaced;
    f := LineFound(s, 0);
    var at := ParseLine(s, 0).at;
    NoneLeft(s, at);
    assert Yield(f) + [] == Yield(f);
    gaps := Gaps(s, 0);
    Spelled(s, 0);
    assert s[0..] == s;
  }

  /** A line is accepted, as command c, exactly if the grammar writes it for a form whose tree is c. */
  lemma Exactly(s: string, c: Cmd<string>)
    requires NoNul(s)
    ensures
      ParseCmd(s).Ok? && Text(s, ParseCmd(s).value) == c <==>
      exists f, gaps :: Writes(f, gaps, s) && Tree(f) == c
  {
    hide ParseCmd;
    hide Write;
    hide Spaced;
    if ParseCmd(s).Ok? && Text(s, ParseCmd(s).value) == c {
      var f, gaps := Sound(s);
    }
    if f, gaps :| Writes(f, gaps, s) && Tree(f) == c {
      Complete(f, gaps);
    }
  }

  /** The command under a chain of redirections, and the chain, innermost first. */
  function Base<W>(c: Cmd<W>): (b: Cmd<W>)
    ensures !b.Redir? && (c.Redir? ==> b < c)
  {
    if c.Redir? then Base(c.cmd) else c
  }

  function Arrows<W>(c: Cmd<W>): seq<Arrow<W>> {
    if c.Redir? then Arrows(c.cmd) + [Arrow(c.file, c.out)] else []
  }

  function ArgItems(ws: seq<string>): seq<Item> {
    if ws == [] then [] else [Arg(ws[0])] + ArgItems(ws[1..])
  }

  function ToItems(arrows: seq<Arrow<string>>): seq<Item> {
    if arrows == [] then [] else [To(arrows[0], false)] + ToItems(arrows[1..])
  }

  /** The level of the grammar a command is written at without parentheses: simple, pipe, back, line. */
  function Level<W>(c: Cmd<W>): nat {
    match c
    case Pipe(_, _) => 1
    case Back(_) => 2
    case List(_, _) => 3
    case _ => 0
  }

  /** How many levels, going round, from the command's own up to the given one. */
  function Above<W>(c: Cmd<W>, level: nat): nat
    requires level < 4
  {
    if level >= Level(c) then level - Level(c) else level + 4 - Level(c)
  }

  /** A form of a command: the redirections behind the words, and parentheses where the level needs them. */
  function FormOf(c: Cmd<string>, level: nat): Form
    requires level < 4
    decreases c, Above(c, level)
  {
    if level == 3 && c.List? then Listed(FormOf(c.left, 2), FormOf(c.right, 3))
    else if level == 2 && c.Back? then Backed(FormOf(c.cmd, 2))
    else if level == 1 && c.Pipe? then Piped(FormOf(c.left, 0), FormOf(c.right, 1))
    else if level > 0 then FormOf(c, level - 1)
    else if Base(c).Exec? then Bare(ArgItems(Base(c).argv) + ToItems(Arrows(c)))
    else Block(FormOf(Base(c), 3), ToItems(Arrows(c)))
  }

  predicate IsForm(f: Form, level: nat) {
    match level
    case 0 => IsExec(f)
    case 1 => IsPipe(f)
    case 2 => IsBack(f)
    case _ => IsLine(f)
  }

  lemma {:induction false} WrapBase(c: Cmd<string>)
    ensures Wrap(Base(c), Arrows(c)) == c
  {
    if c.Redir? {
      WrapBase(c.cmd);
      assert Arrows(c)[..|Arrows(c)| - 1] == Arrows(c.cmd);
    }
  }

  predicate LegalLexemes(ls: seq<Lexeme>) { forall k :: 0 <= k < |ls| ==> LegalLexeme(ls[k]) }

  predicate LegalArrows(arrows: seq<Arrow<string>>) { forall k :: 0 <= k < |arrows| ==> LegalWord(arrows[k].file) }

  lemma {:induction false} LegalBase(c: Cmd<string>)
    requires Legal(c)
    ensures Legal(Base(c)) && LegalArrows(Arrows(c))
  {
    if c.Redir? {
      LegalBase(c.cmd);
    }
  }

  lemma {:induction false} ArgItemsOk(ws: seq<string>)
    requires LegalWords(ws)
    ensures Args(ArgItems(ws)) == ws && Tos(ArgItems(ws)) == [] && LegalLexemes(YieldItems(ArgItems(ws)))
  {
    if ws != [] {
      ArgItemsOk(ws[1..]);
      assert ArgItems(ws)[1..] == ArgItems(ws[1..]);
    }
  }

  lemma {:induction false} ToItemsOk(arrows: seq<Arrow<string>>)
    requires LegalArrows(arrows)
    ensures Args(ToItems(arrows)) == [] && Tos(ToItems(arrows)) == arrows && LegalLexemes(YieldItems(ToItems(arrows)))
  {
    if arrows != [] {
      ToItemsOk(arrows[1..]);
      assert ToItems(arrows)[1..] == ToItems(arrows[1..]);
    }
  }

  lemma BareOk(c: Cmd<string>)
    requires Legal(c) && Base(c).Exec?
    ensures
      var f := Bare(ArgItems(Base(c).argv) + ToItems(Arrows(c)));
      IsExec(f) && Tree(f) == c && LegalLexemes(Yield(f))
  {
    var ws, arrows := Base(c).argv, Arrows(c);
    LegalBase(c);
    WrapBase(c);
    ArgItemsOk(ws);
    ToItemsOk(arrows);
    ItemsJoin(ArgItems(ws), ToItems(arrows));
    hide Args;
    hide Tos;
    hide YieldItems;
    hide Wrap;
    hide LegalLexeme;
    assert ws + [] == ws && [] + arrows == arrows;
  }

  lemma LegalBlock(a: seq<Lexeme>, b: seq<Lexeme>)
    requires LegalLexemes(a) && LegalLexemes(b)
    ensures LegalLexemes([Mark('(')] + a + [Mark(')')] + b)
  {
  }

  lemma BlockOk(c: Cmd<string>, line: Form)
    requires Legal(c) && IsLine(line) && Tree(line) == Base(c) && LegalLexemes(Yield(line))
    ensures
      var f := Block(line, ToItems(Arrows(c)));
      IsExec(f) && Tree(f) == c && LegalLexemes(Yield(f))
  {
    LegalBase(c);
    WrapBase(c);
    ToItemsOk(Arrows(c));
    LegalBlock(Yield(line), YieldItems(ToItems(Arrows(c))));
    hide Wrap;
    hide Args;
    hide YieldItems;
    hide LegalLexemes;
  }

  lemma PartsLegal(c: Cmd<string>)
    requires Legal(c)
    ensures match c
      case Pipe(l, r) => Legal(l) && Legal(r)
      case List(l, r) => Legal(l) && Legal(r)
      case Back(d) => Legal(d)
      case _ => true
  {
  }

  /** Every legal command has a form at every level. */
  lemma {:induction false} FormOk(c: Cmd<string>, level: nat)
    requires Legal(c) && level < 4
    ensures
      var f := FormOf(c, level);
      IsForm(f, level) && Tree(f) == c && LegalLexemes(Yield(f))
    decreases c, Above(c, level)
  {
    hide Wrap;
    hide Legal;
    hide ToItems;
    hide ArgItems;
    PartsLegal(c);
    if level == 3 && c.List? {
      FormOk(c.left, 2);
      FormOk(c.right, 3);
    } else if level == 2 && c.Back? {
      FormOk(c.cmd, 2);
    } else if level == 1 && c.Pipe? {
      FormOk(c.left, 0);
      FormOk(c.right, 1);
    } else if level > 0 {
      FormOk(c, level - 1);
      Below(FormOf(c, level));
    } else {
      LegalBase(c);
      if Base(c).Exec? {
        BareOk(c);
      } else {
        FormOk(Base(c), 3);
        BlockOk(c, FormOf(Base(c), 3));
      }
    }
  }

  function Spaces(n: nat): seq<string> { seq(n, _ => " ") }

  lemma {:induction false} SpacedOut(ls: seq<Lexeme>)
    requires LegalLexemes(ls)
    ensures Spaced(ls, Spaces(|ls| + 1))
  {
    if ls != [] {
      SpacedOut(ls[1..]);
      assert Spaces(|ls| + 1)[1..] == Spaces(|ls|);
    }
  }

  function Print(c: Cmd<string>): string {
    Write(Yield(FormOf(c, 3)), Spaces(|Yield(FormOf(c, 3))| + 1))
  }

  /** Every legal command comes back from what is printed of it, with nothing left over. */
  lemma RoundTrip(c: Cmd<string>)
    requires Legal(c)
    ensures
      var s := Print(c);
      var r := ParseCmd(s);
      r.Ok? && r.at == |s| && Text(s, r.value) == c
  {
    FormOk(c, 3);
    SpacedOut(Yield(FormOf(c, 3)));
    hide FormOf;
    Complete(FormOf(c, 3), Spaces(|Yield(FormOf(c, 3))| + 1));
  }
}
