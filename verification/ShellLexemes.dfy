/** Lines as sequences of words and symbols with blanks between them. */
module ShellLexemes {
  import opened ShellSyntax

  /** A word, or a symbol; '+' is >>. */
  datatype Lexeme = Chars(text: string) | Mark(c: char)

  function Spell(l: Lexeme): string {
    match l
    case Chars(text) => text
    case Mark(c) => if c == '+' then ">>" else [c]
  }

  predicate LegalLexeme(l: Lexeme) {
    match l
    case Chars(text) => LegalWord(text)
    case Mark(c) => Symbol(c) || c == '+'
  }

  /** Without a blank between them they would read as something else. */
  predicate Clash(l: Lexeme, m: Lexeme) {
    (l.Chars? && m.Chars?) || (l == Mark('>') && (m == Mark('>') || m == Mark('+')))
  }

  predicate Blanks(g: string) { forall k :: 0 <= k < |g| ==> Blank(g[k]) }

  /** The gaps before, between and after the lexemes are blanks, and are there where they must be. */
  predicate Spaced(ls: seq<Lexeme>, gaps: seq<string>) {
    && |gaps| == |ls| + 1 && Blanks(gaps[0])
    && (ls != [] ==> LegalLexeme(ls[0]) && Spaced(ls[1..], gaps[1..]))
    && (|ls| > 1 && Clash(ls[0], ls[1]) ==> gaps[1] != "")
  }

  function Write(ls: seq<Lexeme>, gaps: seq<string>): string
    requires |gaps| == |ls| + 1
  {
    if ls == [] then gaps[0] else gaps[0] + Spell(ls[0]) + Write(ls[1..], gaps[1..])
  }

  function LexemeOf(s: string, t: Token): Lexeme
    requires t.q <= t.e <= |s|
  {
    if t.kind == 'a' then Chars(s[t.q..t.e]) else Mark(t.kind)
  }

  /** What the line reads as from i on. */
  function Lexemes(s: string, i: nat): seq<Lexeme>
    requires i <= |s|
    decreases |s| - i
  {
    var t := GetToken(s, i);
    if t.kind == NUL then [] else [LexemeOf(s, t)] + Lexemes(s, t.next)
  }

  lemma SkipTwice(s: string, i: nat)
    requires i <= |s|
    ensures Skip(s, Skip(s, i)) == Skip(s, i)
  {
  }

  /** Blanks before a lexeme do not matter. */
  lemma SkipLexemes(s: string, i: nat)
    requires i <= |s|
    ensures Lexemes(s, Skip(s, i)) == Lexemes(s, i)
  {
    SkipTwice(s, i);
  }

  lemma Head(s: string, i: nat)
    requires i <= |s|
    ensures
      var t := GetToken(s, i);
      && (t.kind == NUL <==> Lexemes(s, i) == [])
      && (t.kind != NUL ==> Lexemes(s, i) == [LexemeOf(s, t)] + Lexemes(s, t.next))
  {
  }

  predicate Starts(ls: seq<Lexeme>, toks: string) { ls != [] && ls[0].Mark? && Spell(ls[0])[0] in toks }

  /** Peeking tells which symbol is next. */
  lemma PeekIs(s: string, i: nat, toks: string)
    requires i <= |s| && forall c :: c in toks ==> Symbol(c)
    ensures Peek(s, i, toks) <==> Starts(Lexemes(s, i), toks)
  {
    Head(s, i);
    hide Lexemes;
  }

  lemma {:induction false} SkipGap(s: string, i: nat, j: nat)
    requires i <= j <= |s| && Blanks(s[i..j])
    ensures Skip(s, i) == Skip(s, j)
    decreases j - i
  {
    if i < j {
      assert s[i] == s[i..j][0] && s[i + 1..j] == s[i..j][1..];
      SkipGap(s, i + 1, j);
    }
  }

  lemma {:induction false} WordEndAt(s: string, i: nat, j: nat)
    requires i <= j <= |s| && (forall k :: i <= k < j ==> WordChar(s[k]))
    requires j < |s| ==> Blank(s[j]) || Symbol(s[j])
    ensures WordEnd(s, i) == j
    decreases j - i
  {
    if i < j {
      WordEndAt(s, i + 1, j);
    }
  }

  lemma Cut(s: string, i: nat, p: string, more: string)
    requires i <= |s| && s[i..] == p + more
    ensures i + |p| <= |s| && s[i..i + |p|] == p && s[i + |p|..] == more
  {
    assert s[i + |p|..] == s[i..][|p|..] && s[i..i + |p|] == s[i..][..|p|];
  }

  /** Character c ends lexeme l. */
  predicate Ends(l: Lexeme, c: char) {
    (l.Chars? ==> c == NUL || Blank(c) || Symbol(c)) && (l == Mark('>') ==> c != '>')
  }

  lemma FrontEnds(s: string, e: nat, ls: seq<Lexeme>, gaps: seq<string>)
    requires ls != [] && Spaced(ls, gaps) && e <= |s| && s[e..] == Write(ls[1..], gaps[1..])
    ensures Ends(ls[0], At(s, e)) && (e < |s| ==> s[e] != NUL)
  {
    if e < |s| {
      assert s[e] == s[e..][0];
      if gaps[1] == "" {
        assert |ls| > 1 && s[e] == Spell(ls[1])[0] && LegalLexeme(ls[1]);
      }
    }
  }

  /** The token spelled from q to e. */
  lemma WordHere(s: string, q: nat, e: nat, w: string)
    requires LegalWord(w) && q <= e <= |s| && s[q..e] == w && Ends(Chars(w), At(s, e)) && (e < |s| ==> s[e] != NUL)
    ensures !Blank(At(s, q)) && TokenAt(s, q) == Token('a', q, e, Skip(s, e))
  {
    hide Skip;
    forall k | q <= k < e ensures WordChar(s[k]) {
      assert s[k] == s[q..e][k - q];
    }
    WordEndAt(s, q, e);
  }

  lemma MarkHere(s: string, q: nat, e: nat, c: char)
    requires LegalLexeme(Mark(c)) && q <= e <= |s| && s[q..e] == Spell(Mark(c)) && Ends(Mark(c), At(s, e))
    ensures !Blank(At(s, q)) && TokenAt(s, q) == Token(c, q, e, Skip(s, e))
  {
    hide Skip;
    hide WordEnd;
    assert s[q] == s[q..e][0];
    if c == '+' {
      assert s[q + 1] == s[q..e][1];
    }
  }

  /** One lexeme read off the front. */
  lemma ReadOne(s: string, i: nat, q: nat, e: nat, l: Lexeme)
    requires i <= q <= e <= |s| && Blanks(s[i..q]) && LegalLexeme(l) && s[q..e] == Spell(l)
    requires Ends(l, At(s, e)) && (e < |s| ==> s[e] != NUL)
    ensures Lexemes(s, i) == [l] + Lexemes(s, e)
  {
    SkipGap(s, i, q);
    match l {
      case Chars(w) => WordHere(s, q, e, w);
      case Mark(c) => MarkHere(s, q, e, c);
    }
    hide TokenAt;
    hide Spell;
    hide Ends;
    SkipHere(s, q);
    hide Skip;
    hide Lexemes;
    Head(s, i);
    SkipLexemes(s, e);
  }

  lemma SkipHere(s: string, q: nat)
    requires q <= |s| && !Blank(At(s, q))
    ensures Skip(s, q) == q
  {
  }

  lemma SpacedTail(ls: seq<Lexeme>, gaps: seq<string>)
    requires ls != [] && Spaced(ls, gaps)
    ensures Blanks(gaps[0]) && LegalLexeme(ls[0]) && Spaced(ls[1..], gaps[1..])
    ensures Write(ls, gaps) == gaps[0] + (Spell(ls[0]) + Write(ls[1..], gaps[1..]))
  {
  }

  /** Whatever is written, with whatever blanks, is read back. */
  lemma {:induction false} ReadBack(s: string, i: nat, ls: seq<Lexeme>, gaps: seq<string>)
    requires Spaced(ls, gaps) && i <= |s| && s[i..] == Write(ls, gaps)
    ensures Lexemes(s, i) == ls
    decreases |ls|
  {
    hide Lexemes;
    hide Ends;
    hide Spell;
    hide LegalLexeme;
    hide Blanks;
    hide Skip;
    if ls == [] {
      assert s[i..|s|] == gaps[0];
      SkipGap(s, i, |s|);
      NoneLeft(s, i);
    } else {
      SpacedTail(ls, gaps);
      hide Spaced;
      hide Write;
      var p, more := Spell(ls[0]), Write(ls[1..], gaps[1..]);
      var q, e := i + |gaps[0]|, i + |gaps[0]| + |p|;
      Cut(s, i, gaps[0], p + more);
      Cut(s, q, p, more);
      FrontEnds(s, e, ls, gaps);
      ReadOne(s, i, q, e, ls[0]);
      ReadBack(s, e, ls[1..], gaps[1..]);
    }
  }

  lemma NoneLeft(s: string, i: nat)
    requires i <= |s| && Skip(s, i) == Skip(s, |s|)
    ensures Lexemes(s, i) == []
  {
  }

  /** A C string: what has no NUL inside. */
  predicate NoNul(s: string) { forall k :: 0 <= k < |s| ==> s[k] != NUL }

  /** The blanks of a line. */
  function Gaps(s: string, i: nat): seq<string>
    requires i <= |s|
    decreases |s| - i
  {
    var t := GetToken(s, i);
    if t.kind == NUL then [s[i..]] else [s[i..t.q]] + Gaps(s, t.e)
  }

  lemma {:induction false} SkipBlanks(s: string, i: nat)
    requires i <= |s|
    ensures Blanks(s[i..Skip(s, i)])
    decreases |s| - i
  {
    if i < |s| && Blank(s[i]) {
      SkipBlanks(s, i + 1);
      assert s[i..Skip(s, i)] == [s[i]] + s[i + 1..Skip(s, i)];
    }
  }

  lemma {:induction false} WordEndOf(s: string, i: nat)
    requires i <= |s|
    ensures forall k :: i <= k < WordEnd(s, i) ==> !Blank(s[k]) && !Symbol(s[k])
    ensures WordEnd(s, i) < |s| ==> Blank(s[WordEnd(s, i)]) || Symbol(s[WordEnd(s, i)])
    decreases |s| - i
  {
    if i < |s| && !Blank(s[i]) && !Symbol(s[i]) {
      WordEndOf(s, i + 1);
    }
  }

  lemma TokenSpelled(s: string, i: nat)
    requires i <= |s| && NoNul(s) && GetToken(s, i).kind != NUL
    ensures
      var t := GetToken(s, i);
      LegalLexeme(LexemeOf(s, t)) && s[t.q..t.e] == Spell(LexemeOf(s, t))
  {
    var q := Skip(s, i);
    WordEndOf(s, q);
    if s[q] == '>' && At(s, q + 1) == '>' {
      assert s[q..q + 2] == ">>";
    }
  }

  /** The token after t, with no blank before it, does not clash with it. */
  lemma NoClash(s: string, i: nat)
    requires i <= |s| && NoNul(s)
    requires GetToken(s, i).kind != NUL && GetToken(s, GetToken(s, i).e).kind != NUL
    requires GetToken(s, GetToken(s, i).e).q == GetToken(s, i).e
    ensures !Clash(LexemeOf(s, GetToken(s, i)), LexemeOf(s, GetToken(s, GetToken(s, i).e)))
  {
    WordEndOf(s, Skip(s, i));
  }

  lemma NulAtEnd(s: string, i: nat)
    requires i <= |s| && NoNul(s) && GetToken(s, i).kind == NUL
    ensures Skip(s, i) == |s|
  {
  }

  lemma NextSkips(s: string, i: nat)
    requires i <= |s|
    ensures GetToken(s, i).next == Skip(s, GetToken(s, i).e) && GetToken(s, i).q == Skip(s, i)
  {
  }

  /** One lexeme's turn. */
  lemma SpelledStep(s: string, i: nat)
    requires i <= |s| && NoNul(s) && GetToken(s, i).kind != NUL
    ensures
      var t := GetToken(s, i);
      && Lexemes(s, i) == [LexemeOf(s, t)] + Lexemes(s, t.e) && Gaps(s, i) == [s[i..t.q]] + Gaps(s, t.e)
      && LegalLexeme(LexemeOf(s, t)) && Blanks(s[i..t.q])
      && s[i..] == s[i..t.q] + Spell(LexemeOf(s, t)) + s[t.e..]
  {
    hide GetToken;
    hide Skip;
    hide Spell;
    hide LegalLexeme;
    hide Blanks;
    var t := GetToken(s, i);
    NextSkips(s, i);
    SkipBlanks(s, i);
    TokenSpelled(s, i);
    Head(s, i);
    SkipLexemes(s, t.e);
    assert s[i..] == s[i..t.q] + s[t.q..t.e] + s[t.e..];
  }

  lemma GapHead(s: string, i: nat)
    requires i <= |s|
    ensures |Gaps(s, i)| == |Lexemes(s, i)| + 1
    ensures GetToken(s, i).kind != NUL && Gaps(s, i)[0] == "" ==> GetToken(s, i).q == i
    decreases |s| - i
  {
    var t := GetToken(s, i);
    if t.kind != NUL {
      GapHead(s, t.e);
      NextSkips(s, i);
      SkipLexemes(s, t.e);
    }
  }

  /** Every line is written as what it reads as. */
  lemma {:induction false} Spelled(s: string, i: nat)
    requires i <= |s| && NoNul(s)
    ensures Spaced(Lexemes(s, i), Gaps(s, i)) && Write(Lexemes(s, i), Gaps(s, i)) == s[i..]
    decreases |s| - i
  {
    hide Skip;
    hide GetToken;
    var t := GetToken(s, i);
    if t.kind == NUL {
      NulAtEnd(s, i);
      SkipBlanks(s, i);
      assert s[i..Skip(s, i)] == s[i..];
    } else {
      var ls, gaps := Lexemes(s, t.e), Gaps(s, t.e);
      Spelled(s, t.e);
      SpelledStep(s, i);
      if ls != [] && gaps[0] == "" {
        Head(s, t.e);
        GapHead(s, t.e);
        NoClash(s, i);
      }
      hide Lexemes;
      hide Gaps;
      SpacedMore(LexemeOf(s, t), s[i..t.q], ls, gaps);
    }
  }

  lemma SpacedMore(l: Lexeme, gap: string, ls: seq<Lexeme>, gaps: seq<string>)
    requires Spaced(ls, gaps) && LegalLexeme(l) && Blanks(gap)
    requires ls != [] && gaps[0] == "" ==> !Clash(l, ls[0])
    ensures Spaced([l] + ls, [gap] + gaps) && Write([l] + ls, [gap] + gaps) == gap + Spell(l) + Write(ls, gaps)
  {
    assert ([l] + ls)[1..] == ls && ([gap] + gaps)[1..] == gaps;
  }
}
