/** The tokens of a text, by the characters it is made of: how a text may be cut, and what the pieces are.  With the
    parser being the grammar over tokens, the white space between them makes no difference. */
module ShellTokens {
  import opened Shell
  import opened ShellText
  import opened ShellGrammar
  import opened ShellComplete

  const BLANKS := " \t\r\n\U{B}"
  const SIGNS := "<|>&;()"

  // ---- Pieces ----

  lemma Kinds(c: char)
    ensures IsSpace(c) <==> c in BLANKS
    ensures IsSymbol(c) <==> c in SIGNS
  {
  }

  lemma BlankSpace(ws: string)
    requires forall i :: 0 <= i < |ws| ==> ws[i] in BLANKS
    ensures forall i :: 0 <= i < |ws| ==> IsSpace(ws[i])
  {
    forall i | 0 <= i < |ws| ensures IsSpace(ws[i]) { Kinds(ws[i]); }
  }

  /** White space has no tokens. */
  lemma BlankTokens(ws: string)
    requires forall i :: 0 <= i < |ws| ==> ws[i] in BLANKS
    ensures Lexemes(ws, 0) == []
  {
    BlankSpace(ws);
    NothingLeft(ws, 0);
  }

  /** A sign is a token, and so is >>. */
  lemma SignTokens(c: char)
    requires c in SIGNS
    ensures Lexemes([c], 0) == [Sign(c)] && Lexemes(">>", 0) == [GtGt]
  {
    Kinds(c);
    NextToken([c], 0);
    NextToken(">>", 0);
    assert Skip(">>", 0) == 0 && Skip(">>", 2) == 2;
    assert Skip([c], 0) == 0 && Skip([c], 1) == 1;
  }

  predicate IsPlain(c: char) { c !in BLANKS && c !in SIGNS }

  /** Any other characters are one word. */
  lemma WordTokens(w: string)
    requires w != [] && forall i :: 0 <= i < |w| ==> IsPlain(w[i])
    ensures Lexemes(w, 0) == [Name(w)]
  {
    hide GetToken, IsSpace, IsSymbol, IsPlain, Lexemes;
    var s := Span(0, |w|);
    assert IsWord(w, s) by {
      forall i | 0 <= i < |w| ensures IsWordChar(w[i]) { PlainIsWord(w[i]); }
    }
    WordToken(w, s);
    NextToken(w, 0);
    NothingLeft(w, |w|);
    assert w[0..|w|] == w;
  }

  lemma PlainIsWord(c: char)
    requires IsPlain(c)
    ensures IsWordChar(c)
  {
    Kinds(c);
  }

  // ---- Cuts ----

  /** No token of a + c goes across the cut: there are not word characters on both sides of it, nor a > on both. */
  ghost predicate Cut(a: string, c: string) {
    a == [] || c == [] ||
    (!(IsWordChar(a[|a| - 1]) && IsWordChar(c[0])) && !(a[|a| - 1] == '>' && c[0] == '>'))
  }

  lemma {:induction false} SkipWithin(a: string, c: string, p: nat)
    requires p <= |a|
    ensures Skip(a, p) < |a| ==> Skip(a + c, p) == Skip(a, p)
    ensures Skip(a, p) == |a| ==> Skip(a + c, p) == Skip(a + c, |a|)
    decreases |a| - p
  {
    if p < |a| && IsSpace(a[p]) { SkipWithin(a, c, p + 1); }
  }

  lemma {:induction false} WordWithin(a: string, c: string, p: nat)
    requires p < |a| && IsWordChar(a[p]) && Cut(a, c)
    ensures WordEnd(a + c, p) == WordEnd(a, p)
    decreases |a| - p
  {
    if p + 1 < |a| && IsWordChar(a[p + 1]) { WordWithin(a, c, p + 1); }
  }

  /** A token of a is a token of a + c. */
  lemma TokenWithin(a: string, c: string, p: nat)
    requires p <= |a| && Cut(a, c) && GetToken(a, p).0 != End
    ensures var r, s := GetToken(a, p), GetToken(a + c, p);
      s.0 == r.0 && s.1 == r.1 && s.2 == Skip(a + c, r.1.eq) && r.2 == Skip(a, r.1.eq)
  {
    hide Skip, WordEnd, IsSymbol, IsWord, IsSpace, Cut;
    SkipWithin(a, c, p);
    var q := Skip(a, p);
    assert (a + c)[q] == a[q];
    SecondGt(a, c, q);
    if !(a[q] == '>' && q + 1 < |a| && a[q + 1] == '>') && !IsSymbol(a[q]) { WordWithin(a, c, q); }
  }

  lemma SecondGt(a: string, c: string, q: nat)
    requires q < |a| && Cut(a, c)
    ensures a[q] == '>' ==> ((q + 1 < |a + c| && (a + c)[q + 1] == '>') <==> (q + 1 < |a| && a[q + 1] == '>'))
  {
    hide IsWordChar;
    if q + 1 < |a| { assert (a + c)[q + 1] == a[q + 1]; }
    if q + 1 == |a| && c != [] { assert (a + c)[q + 1] == c[0]; }
  }

  lemma {:induction false} TokensWithin(a: string, c: string, p: nat)
    requires p <= |a| && Cut(a, c)
    ensures Lexemes(a + c, p) == Lexemes(a, p) + Lexemes(a + c, |a|)
    decreases |a| - p
  {
    hide GetToken, Skip, Cut, Lexemes;
    NextToken(a, p);
    var (tok, s, p1) := GetToken(a, p);
    if tok == End {
      NothingLeft(a, p);
      SameFrom(a, c, p);
    } else {
      TokenWithin(a, c, p);
      NextToken(a + c, p);
      assert (a + c)[s.q..s.eq] == a[s.q..s.eq];
      TokensWithin(a, c, s.eq);
      SkipSame(a, s.eq);
      SkipSame(a + c, s.eq);
    }
  }

  lemma SameFrom(a: string, c: string, p: nat)
    requires p <= |a| && Skip(a, p) == |a|
    ensures Lexemes(a + c, p) == Lexemes(a + c, |a|)
  {
    hide GetToken, Skip;
    SkipWithin(a, c, p);
    SkipSame(a + c, p);
    SkipSame(a + c, |a|);
  }

  lemma {:induction false} SkipAfter(a: string, c: string, p: nat)
    requires p <= |c|
    ensures Skip(a + c, |a| + p) == |a| + Skip(c, p)
    decreases |c| - p
  {
    if p < |c| && IsSpace(c[p]) { SkipAfter(a, c, p + 1); }
  }

  lemma {:induction false} WordAfter(a: string, c: string, p: nat)
    requires p <= |c|
    ensures WordEnd(a + c, |a| + p) == |a| + WordEnd(c, p)
    decreases |c| - p
  {
    if p < |c| && IsWordChar(c[p]) { WordAfter(a, c, p + 1); }
  }

  lemma TokenAfter(a: string, c: string, p: nat)
    requires p <= |c|
    ensures var r, s := GetToken(c, p), GetToken(a + c, |a| + p);
      s.0 == r.0 && s.1 == Span(|a| + r.1.q, |a| + r.1.eq) && s.2 == |a| + r.2
  {
    hide Skip, WordEnd, IsSymbol, IsWord, IsSpace;
    SkipAfter(a, c, p);
    var q := Skip(c, p);
    if q < |c| {
      SameAfter(a, c, q);
      SkipAfter(a, c, GetToken(c, p).1.eq);
      WordAfter(a, c, q);
    }
  }

  lemma SameAfter(a: string, c: string, q: nat)
    requires q < |c|
    ensures (a + c)[|a| + q] == c[q] && (q + 1 < |c| ==> (a + c)[|a| + q + 1] == c[q + 1])
  {
  }

  lemma {:induction false} TokensAfter(a: string, c: string, p: nat)
    requires p <= |c|
    ensures Lexemes(a + c, |a| + p) == Lexemes(c, p)
    decreases |c| - p
  {
    hide GetToken, Skip, Lexemes;
    TokenAfter(a, c, p);
    NextToken(c, p);
    NextToken(a + c, |a| + p);
    var (tok, s, p1) := GetToken(c, p);
    if tok != End {
      assert (a + c)[|a| + s.q..|a| + s.eq] == c[s.q..s.eq];
      TokensAfter(a, c, p1);
    }
  }

  /** A text that is cut where no token goes across has the tokens of the parts. */
  lemma TokensCut(a: string, c: string)
    requires Cut(a, c)
    ensures Lexemes(a + c, 0) == Lexemes(a, 0) + Lexemes(c, 0)
  {
    hide Lexemes, Cut;
    TokensWithin(a, c, 0);
    TokensAfter(a, c, 0);
  }

  /** White space between two parts separates them and is nothing by itself. */
  lemma Spacing(a: string, ws: string, b: string)
    requires ws != [] && forall i :: 0 <= i < |ws| ==> ws[i] in BLANKS
    ensures Lexemes(a + ws + b, 0) == Lexemes(a, 0) + Lexemes(b, 0)
  {
    hide Lexemes;
    BlankCut(a, ws, b);
    TokensCut(a + ws, b);
    TokensCut(a, ws);
    BlankTokens(ws);
  }

  lemma BlankCut(a: string, ws: string, b: string)
    requires ws != [] && forall i :: 0 <= i < |ws| ==> ws[i] in BLANKS
    ensures Cut(a, ws) && Cut(a + ws, b)
  {
    BlankSpace(ws);
    assert IsSpace(ws[0]) && IsSpace((a + ws)[|a + ws| - 1]);
  }

  /** White space before, after or instead of white space in a command line makes no difference, so the newline that
      ends every line makes none. */
  lemma SpacingParses(a: string, b: string, ws: string, other: string)
    requires ws != [] && other != [] && forall i :: 0 <= i < |ws| ==> ws[i] in BLANKS
    requires forall i :: 0 <= i < |other| ==> other[i] in BLANKS
    ensures SameParse(a + ws + b, a + other + b) && SameParse(ws + b, b) && SameParse(a + ws, a)
  {
    hide SameParse;
    Spacing(a, ws, b);
    Spacing(a, other, b);
    Spacing([], ws, b);
    Spacing(a, ws, []);
    NoTokens();
    assert [] + ws + b == ws + b && a + ws + [] == a + ws;
    assert [] + Lexemes(b, 0) == Lexemes(b, 0) && Lexemes(a, 0) + [] == Lexemes(a, 0);
    ParseAlike(a + ws + b, a + other + b);
    ParseAlike(ws + b, b);
    ParseAlike(a + ws, a);
  }

  lemma NoTokens()
    ensures Lexemes([], 0) == []
  {
  }

  /** Both texts are refused, or both give the same command. */
  ghost predicate SameParse(text: string, other: string) {
    var r, s := ParseCmd(text), ParseCmd(other);
    (r.Ok? <==> s.Ok?) && (r.Ok? ==> Named(text, r.cmd) == Named(other, s.cmd))
  }

  lemma ParseAlike(text: string, other: string)
    requires Lexemes(text, 0) == Lexemes(other, 0)
    ensures SameParse(text, other)
  {
    OnlyTokensMatter(text, other);
  }
}
