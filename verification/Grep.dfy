/** The matcher for patterns of characters, '.', '*', a leading '^' and a trailing '$'. */
module Grep {
  /** One character, any number of one character, or the end of the text. */
  datatype Item = One(c: char) | Star(c: char) | End

  /** The pattern's items, as matchhere reads them off. */
  function Compile(re: string): seq<Item> {
    if re == "" then []
    else if |re| > 1 && re[1] == '*' then [Star(re[0])] + Compile(re[2..])
    else if re == "$" then [End]
    else [One(re[0])] + Compile(re[1..])
  }

  /** How an item is written in a pattern. */
  function Spell(it: Item): string {
    match it
    case One(c) => [c]
    case Star(c) => [c, '*']
    case End => "$"
  }

  function Write(items: seq<Item>): string { if items == [] then "" else Spell(items[0]) + Write(items[1..]) }

  /** No '*' follows a single character, an end comes last, and a single '$' does not. */
  predicate Writable(items: seq<Item>) {
    items == [] || (Writable(items[1..]) &&
      match items[0]
      case One(c) => if |items| == 1 then c != '$' else Spell(items[1])[0] != '*'
      case Star(_) => true
      case End => |items| == 1)
  }

  lemma {:induction false} Compiled(re: string)
    ensures Writable(Compile(re)) && Write(Compile(re)) == re
  {
    if re == "" {
    } else if |re| > 1 && re[1] == '*' {
      Compiled(re[2..]);
      assert Compile(re)[1..] == Compile(re[2..]);
    } else if re != "$" {
      Compiled(re[1..]);
      assert Compile(re)[1..] == Compile(re[1..]);
    }
  }

  lemma {:induction false} Recompiled(items: seq<Item>)
    requires Writable(items)
    ensures Compile(Write(items)) == items
  {
    if items != [] {
      var re, n := Write(items), |Spell(items[0])|;
      Recompiled(items[1..]);
      assert re[n..] == Write(items[1..]);
      if |items| > 1 {
        assert re[n] == Spell(items[1])[0];
      } else {
        assert re == Spell(items[0]);
      }
      assert [items[0]] + items[1..] == items;
    }
  }

  /** A pattern means the items it is written for, and there is one way to read it. */
  lemma CompileExactly(re: string, items: seq<Item>)
    ensures Compile(re) == items <==> Writable(items) && Write(items) == re
  {
    Compiled(re);
    if Writable(items) {
      Recompiled(items);
    }
  }

  predicate Fits(c: char, x: char) { c == '.' || c == x }

  /** The whole of w is made of pieces that fit the items in turn. */
  ghost predicate Matches(items: seq<Item>, w: string)
    decreases |items|
  {
    if items == [] then w == ""
    else match items[0]
      case One(c) => w != "" && Fits(c, w[0]) && Matches(items[1..], w[1..])
      case Star(c) => exists k: nat :: k <= |w| && Run(c, w, k) && Matches(items[1..], w[k..])
      case End => w == "" && Matches(items[1..], w)
  }

  ghost predicate Run(c: char, w: string, k: nat)
    requires k <= |w|
  {
    forall i :: 0 <= i < k ==> Fits(c, w[i])
  }

  predicate Anchored(items: seq<Item>) { items != [] && items[|items| - 1] == End }

  /** The first k characters of text match, and they are all if the pattern ends in '$'. */
  ghost predicate MatchesTo(items: seq<Item>, text: string, k: nat) {
    k <= |text| && Matches(items, text[..k]) && (Anchored(items) ==> k == |text|)
  }

  ghost predicate Here(items: seq<Item>, text: string) {
    exists k: nat :: MatchesTo(items, text, k)
  }

  lemma OneHere(c: char, items: seq<Item>, text: string)
    ensures Here([One(c)] + items, text) <==> text != "" && Fits(c, text[0]) && Here(items, text[1..])
  {
    var all := [One(c)] + items;
    assert all[1..] == items;
    if k: nat :| MatchesTo(all, text, k) {
      assert text[..k][1..] == text[1..][..k - 1];
      assert MatchesTo(items, text[1..], k - 1);
    }
    if text != "" && Fits(c, text[0]) && Here(items, text[1..]) {
      var k: nat :| MatchesTo(items, text[1..], k);
      assert text[..k + 1][1..] == text[1..][..k];
      assert MatchesTo(all, text, k + 1);
    }
  }

  ghost predicate StarAt(c: char, items: seq<Item>, text: string, j: nat) {
    j <= |text| && Run(c, text, j) && Here(items, text[j..])
  }

  lemma StarHere(c: char, items: seq<Item>, text: string)
    ensures Here([Star(c)] + items, text) <==> exists j: nat :: StarAt(c, items, text, j)
  {
    var all := [Star(c)] + items;
    assert all[1..] == items;
    if k: nat :| MatchesTo(all, text, k) {
      var j: nat :| j <= k && Run(c, text[..k], j) && Matches(items, text[..k][j..]);
      assert text[..k][j..] == text[j..][..k - j];
      assert MatchesTo(items, text[j..], k - j);
      assert StarAt(c, items, text, j);
    }
    if j: nat :| StarAt(c, items, text, j) {
      var k: nat :| MatchesTo(items, text[j..], k);
      assert text[..j + k][j..] == text[j..][..k];
      assert Run(c, text[..j + k], j);
      assert MatchesTo(all, text, j + k);
    }
  }

  lemma EndHere(text: string)
    ensures Here([End], text) <==> text == ""
  {
    assert [End][1..] == [];
    if text == "" {
      assert MatchesTo([End], text, 0);
    }
  }

  method MatchHere(re: string, text: string) returns (b: bool)
    ensures b <==> Here(Compile(re), text)
    decreases |re|, 0
  {
    if re == "" {
      assert MatchesTo([], text, 0);
      return true;
    }
    if |re| > 1 && re[1] == '*' {
      assert Compile(re) == [Star(re[0])] + Compile(re[2..]);
      StarHere(re[0], Compile(re[2..]), text);
      b := MatchStar(re[0], re[2..], text);
      return;
    }
    if re == "$" {
      EndHere(text);
      return text == "";
    }
    OneHere(re[0], Compile(re[1..]), text);
    if text != "" && (re[0] == '.' || re[0] == text[0]) {
      b := MatchHere(re[1..], text[1..]);
      return;
    }
    return false;
  }

  method MatchStar(c: char, re: string, text: string) returns (b: bool)
    ensures b <==> exists j: nat :: StarAt(c, Compile(re), text, j)
    decreases |re|, 1
  {
    var i := 0;
    while true
      invariant 0 <= i <= |text| && Run(c, text, i)
      invariant forall j: nat :: j < i ==> !StarAt(c, Compile(re), text, j)
      decreases |text| - i
    {
      b := MatchHere(re, text[i..]);
      if b {
        assert StarAt(c, Compile(re), text, i);
        return;
      }
      if !(i < |text| && (text[i] == c || c == '.')) {
        assert forall j: nat :: j > i ==> !StarAt(c, Compile(re), text, j);
        return false;
      }
      i := i + 1;
    }
  }

  /** Some stretch of the text matches; it begins the text if the pattern begins with '^'. */
  ghost predicate Found(re: string, text: string) {
    if re != "" && re[0] == '^' then Here(Compile(re[1..]), text)
    else exists j: nat :: j <= |text| && Here(Compile(re), text[j..])
  }

  method Match(re: string, text: string) returns (b: bool)
    ensures b <==> Found(re, text)
  {
    if re != "" && re[0] == '^' {
      b := MatchHere(re[1..], text);
      return;
    }
    var i := 0;
    while i <= |text|
      invariant 0 <= i <= |text| + 1
      invariant forall j: nat :: j < i ==> !Here(Compile(re), text[j..])
    {
      b := MatchHere(re, text[i..]);
      if b {
        return;
      }
      i := i + 1;
    }
    return false;
  }
}
