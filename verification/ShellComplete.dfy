/** Whatever the grammar derives, the parser accepts; so the parser is the grammar, and only the tokens of a text
    matter. */
module ShellComplete {
  import opened Shell
  import opened ShellText
  import opened ShellGrammar
  import opened ShellSound

  /** Nothing more, or one of these signs. */
  ghost predicate Ends(rest: seq<Lexeme>, toks: string) {
    rest == [] || (rest[0].Sign? && rest[0].c in toks)
  }

  /** What comes next is not one of toks. */
  lemma NotPeeked(text: string, p: nat, toks: string)
    requires p <= |text| && (forall c :: c in toks ==> IsSymbol(c)) && !StartsWith(Lexemes(text, p), toks)
    ensures !Peek(text, p, toks) && Lexemes(text, Skip(text, p)) == Lexemes(text, p)
  {
    Peeks(text, p, toks);
    SkipSame(text, p);
  }

  /** A sign that comes next is seen and read. */
  lemma Peeked(text: string, p: nat, c: char, rest: seq<Lexeme>)
    requires p <= |text| && IsSymbol(c) && Lexemes(text, p) == [Sign(c)] + rest
    ensures Peek(text, p, [c]) && Lexemes(text, GetToken(text, p).2) == rest
  {
    hide GetToken, Peek;
    Peeks(text, p, [c]);
    NextToken(text, p);
    assert Lexemes(text, p)[1..] == rest;
  }

  // ---- Redirections ----

  lemma {:induction false} MarksComplete(text: string, p: nat, marks: seq<Redirection<string>>, rest: seq<Lexeme>)
    requires p <= |text| && Lexemes(text, p) == MarksTokens(marks) + rest && !StartsWith(rest, "<>")
    ensures var r := ParseRedirs(text, p);
      r.Redirs? && NamedMarks(text, r.list) == marks && Lexemes(text, r.pos) == rest
    decreases |marks|
  {
    hide GetToken, Skip, Peek, IsWord;
    if marks == [] {
      assert Lexemes(text, p) == rest;
      NotPeeked(text, p, "<>");
    } else {
      MarkComplete(text, p, marks[0], MarksTokens(marks[1..]) + rest);
      var (tok, _, p1) := GetToken(text, p);
      var (_, word, p2) := GetToken(text, p1);
      MarksComplete(text, p2, marks[1..], rest);
      var r := ParseRedirs(text, p);
      assert r.list[1..] == ParseRedirs(text, p2).list;
    }
  }

  lemma MarkComplete(text: string, p: nat, m: Redirection<string>, rest: seq<Lexeme>)
    requires p <= |text| && Lexemes(text, p) == MarkTokens(m) + rest
    ensures Peek(text, p, "<>")
    ensures var (tok, _, p1) := GetToken(text, p);
      var (tok2, word, p2) := GetToken(text, p1);
      && tok2 == Word && text[word.q..word.eq] == m.file && Lexemes(text, p2) == rest
      && m.mode == if tok == Symbol('<') then Read else if tok == Append2 then Append else Write
  {
    hide GetToken, Peek;
    Peeks(text, p, "<>");
    NextToken(text, p);
    var p1 := GetToken(text, p).2;
    assert Lexemes(text, p1) == Lexemes(text, p)[1..] == [Name(m.file)] + rest;
    NextToken(text, p1);
    assert Lexemes(text, GetToken(text, p1).2) == Lexemes(text, p1)[1..];
  }

  // ---- Simple commands ----

  /** The redirections at the head of a simple command. */
  lemma {:induction false} HeadMarks(items: seq<Item>) returns (marks: seq<Redirection<string>>, more: seq<Item>)
    ensures items == Items(marks) + more && (more == [] || more[0].Arg?)
    decreases |items|
  {
    if items == [] || items[0].Arg? {
      marks, more := [], items;
    } else {
      var m, rest := HeadMarks(items[1..]);
      marks, more := [items[0].r] + m, rest;
      assert marks[1..] == m;
    }
  }

  /** The words do not begin with a redirection. */
  lemma WordsHead(items: seq<Item>, rest: seq<Lexeme>)
    requires (items == [] || items[0].Arg?) && Ends(rest, "|)&;")
    ensures !StartsWith(ItemsTokens(items) + rest, "<>")
    ensures items != [] ==> ItemsTokens(items) + rest == [Name(items[0].w)] + (ItemsTokens(items[1..]) + rest)
  {
  }

  lemma {:induction false} ArgsComplete(text: string, p: nat, args: seq<Span>, list: seq<Redirection<Span>>,
                                        items: seq<Item>, rest: seq<Lexeme>)
    requires p <= |text| && Good(text, Exec(args)) && GoodList(text, list)
    requires (items == [] || items[0].Arg?) && Ends(rest, "|)&;") && |args| + |Args(items)| < MAXARGS
    requires Lexemes(text, p) == ItemsTokens(items) + rest
    ensures var r := ParseArgs(text, p, args, list);
      && r.Ok? && Lexemes(text, r.pos) == rest
      && Named(text, r.cmd) == Wrap(Exec(Names(text, args) + Args(items)), NamedMarks(text, list) + Marks(items))
    decreases |items|
  {
    hide GetToken, Skip, Peek, IsWord, Wrap, NamedMarks, Names, Lexemes, Items, ParseRedirs;
    if items == [] {
      NoMoreWords(text, p, args, list, rest);
    } else {
      var w := items[0].w;
      var marks, more := HeadMarks(items[1..]);
      ItemsFrom(w, marks, more);
      assert items == [Arg(w)] + Items(marks) + more;
      var word, d := WordComplete(text, p, w, marks, more, rest);
      NamesJoin(text, args, word);
      MarksJoin(text, list, d.list);
      ArgsComplete(text, d.pos, args + [word], list + d.list, more, rest);
      ArgsTurn(Names(text, args), w, Args(more), NamedMarks(text, list), marks, Marks(more));
    }
  }

  lemma NoMoreWords(text: string, p: nat, args: seq<Span>, list: seq<Redirection<Span>>, rest: seq<Lexeme>)
    requires p <= |text| && Good(text, Exec(args)) && GoodList(text, list)
    requires Ends(rest, "|)&;") && Lexemes(text, p) == ItemsTokens([]) + rest
    ensures var r := ParseArgs(text, p, args, list);
      && r.Ok? && Lexemes(text, r.pos) == rest
      && Named(text, r.cmd) == Wrap(Exec(Names(text, args) + Args([])), NamedMarks(text, list) + Marks([]))
  {
    hide GetToken, Skip, Peek, IsWord, Wrap, NamedMarks, Names, ParseRedirs;
    NamedWrap(text, Exec(args), list);
    assert Names(text, args) + [] == Names(text, args) && NamedMarks(text, list) + [] == NamedMarks(text, list);
    assert Lexemes(text, p) == rest;
    Peeks(text, p, "|)&;");
    SkipSame(text, p);
    NextToken(text, p);
    EndToken(text, p);
  }

  /** A word and the redirections after it. */
  lemma WordComplete(text: string, p: nat, w: string, marks: seq<Redirection<string>>, more: seq<Item>,
                     rest: seq<Lexeme>)
    returns (word: Span, d: Redirs)
    requires p <= |text| && (more == [] || more[0].Arg?) && Ends(rest, "|)&;")
    requires Lexemes(text, p) == [Name(w)] + MarksTokens(marks) + ItemsTokens(more) + rest
    ensures !Peek(text, p, "|)&;") && GetToken(text, p).0 == Word && GetToken(text, p).1 == word
    ensures IsWord(text, word) && text[word.q..word.eq] == w
    ensures d == ParseRedirs(text, GetToken(text, p).2) && d.Redirs? && NamedMarks(text, d.list) == marks
    ensures Lexemes(text, d.pos) == ItemsTokens(more) + rest
  {
    hide GetToken, Skip, Peek, IsWord, NamedMarks, ItemsTokens, MarksTokens, ParseRedirs;
    Peeks(text, p, "|)&;");
    NextToken(text, p);
    var p1 := GetToken(text, p).2;
    word := GetToken(text, p).1;
    assert Lexemes(text, p1) == Lexemes(text, p)[1..] == MarksTokens(marks) + (ItemsTokens(more) + rest);
    WordsHead(more, rest);
    MarksComplete(text, p1, marks, ItemsTokens(more) + rest);
    d := ParseRedirs(text, p1);
  }

  // ---- Commands ----

  lemma {:induction false} AtomComplete(text: string, p: nat, d: Atom, rest: seq<Lexeme>)
    requires p <= |text| && Lexemes(text, p) == AtomTokens(d) + rest && Ends(rest, "|)&;") && AtomFits(d)
    ensures var r := ParseExec(text, p);
      r.Ok? && Lexemes(text, r.pos) == rest && Named(text, r.cmd) == AtomTree(d)
    decreases d
  {
    hide GetToken, Skip, Peek, IsWord, Wrap, NamedMarks, Names, Lexemes, Items, ParseRedirs, ParseArgs, ParseBlock;
    match d
    case Simple(items) =>
      var marks, more := HeadMarks(items);
      ItemsOfMarks(marks);
      ItemsJoin(Items(marks), more);
      assert Args(items) == Args(more) && Marks(items) == marks + Marks(more);
      SimpleComplete(text, p, marks, more, rest);
    case Block(line, marks) =>
      var tail := [Sign(')')] + MarksTokens(marks) + rest;
      assert AtomTokens(d) + rest == [Sign('(')] + (LineTokens(line) + tail);
      Peeked(text, p, '(', LineTokens(line) + tail);
      var p1 := GetToken(text, p).2;
      LineComplete(text, p1, line, tail);
      BlockComplete(text, p, line, marks, rest);
  }

  lemma SimpleComplete(text: string, p: nat, marks: seq<Redirection<string>>, more: seq<Item>, rest: seq<Lexeme>)
    requires p <= |text| && (more == [] || more[0].Arg?) && Ends(rest, "|)&;") && |Args(more)| < MAXARGS
    requires Lexemes(text, p) == MarksTokens(marks) + ItemsTokens(more) + rest
    ensures var r := ParseExec(text, p);
      r.Ok? && Lexemes(text, r.pos) == rest && Named(text, r.cmd) == Wrap(Exec(Args(more)), marks + Marks(more))
  {
    hide GetToken, Skip, Peek, IsWord, Wrap, NamedMarks, Names, ParseRedirs, ParseArgs, ParseBlock;
    var all := ItemsTokens(more) + rest;
    assert Lexemes(text, p) == MarksTokens(marks) + all;
    WordsHead(more, rest);
    MarksComplete(text, p, marks, all);
    NoParen(marks, more, rest);
    NotPeeked(text, p, "(");
    var d := ParseRedirs(text, p);
    ArgsComplete(text, d.pos, [], d.list, more, rest);
    assert Names(text, []) + Args(more) == Args(more);
  }

  lemma NoParen(marks: seq<Redirection<string>>, more: seq<Item>, rest: seq<Lexeme>)
    requires (more == [] || more[0].Arg?) && Ends(rest, "|)&;")
    ensures !StartsWith(MarksTokens(marks) + (ItemsTokens(more) + rest), "(")
  {
  }

  lemma BlockComplete(text: string, p: nat, line: Line, marks: seq<Redirection<string>>, rest: seq<Lexeme>)
    requires p <= |text| && Ends(rest, "|)&;") && Peek(text, p, "(")
    requires var r := ParseLine(text, GetToken(text, p).2);
      && r.Ok? && Named(text, r.cmd) == LineTree(line)
      && Lexemes(text, r.pos) == [Sign(')')] + MarksTokens(marks) + rest
    ensures var r := ParseExec(text, p);
      r.Ok? && Lexemes(text, r.pos) == rest && Named(text, r.cmd) == Wrap(LineTree(line), marks)
  {
    hide GetToken, Skip, Peek, IsWord, Wrap, NamedMarks, Names, ParseRedirs, ParseArgs, ParseLine, LineTree;
    var r := ParseLine(text, GetToken(text, p).2);
    assert Lexemes(text, r.pos) == [Sign(')')] + (MarksTokens(marks) + rest);
    Peeked(text, r.pos, ')', MarksTokens(marks) + rest);
    var p2 := GetToken(text, r.pos).2;
    MarksComplete(text, p2, marks, rest);
    NamedWrap(text, r.cmd, ParseRedirs(text, p2).list);
  }

  lemma {:induction false} PipeComplete(text: string, p: nat, d: Piped, rest: seq<Lexeme>)
    requires p <= |text| && Lexemes(text, p) == PipeTokens(d) + rest && Ends(rest, ")&;") && PipeFits(d)
    ensures var r := ParsePipe(text, p);
      r.Ok? && Lexemes(text, r.pos) == rest && Named(text, r.cmd) == PipeTree(d)
    decreases d
  {
    hide GetToken, Skip, Peek, IsWord, Lexemes, ParseExec;
    match d
    case Last(a) =>
      AtomComplete(text, p, a, rest);
      NotPeeked(text, ParseExec(text, p).pos, "|");
    case Then(a, more) =>
      var tail := PipeTokens(more) + rest;
      assert PipeTokens(d) + rest == AtomTokens(a) + ([Sign('|')] + tail);
      AtomComplete(text, p, a, [Sign('|')] + tail);
      var p1 := ParseExec(text, p).pos;
      Peeked(text, p1, '|', tail);
      PipeComplete(text, GetToken(text, p1).2, more, rest);
  }

  lemma {:induction false} BacksComplete(text: string, p: nat, cmd: Cmd<Span>, n: nat, rest: seq<Lexeme>)
    requires p <= |text| && Good(text, cmd) && Lexemes(text, p) == AmpsTokens(n) + rest && !StartsWith(rest, "&")
    ensures var r := ParseBacks(text, p, cmd);
      Lexemes(text, r.1) == rest && Named(text, r.0) == Backs(Named(text, cmd), n)
    decreases n
  {
    hide GetToken, Skip, Peek, IsWord, Lexemes;
    if n == 0 {
      NotPeeked(text, p, "&");
    } else {
      assert AmpsTokens(n) + rest == [Sign('&')] + (AmpsTokens(n - 1) + rest);
      Peeked(text, p, '&', AmpsTokens(n - 1) + rest);
      BacksComplete(text, GetToken(text, p).2, Back(cmd), n - 1, rest);
      BacksTurn(Named(text, cmd), n - 1);
    }
  }

  lemma {:induction false} LineComplete(text: string, p: nat, d: Line, rest: seq<Lexeme>)
    requires p <= |text| && Lexemes(text, p) == LineTokens(d) + rest && Ends(rest, ")") && LineFits(d)
    ensures var r := ParseLine(text, p);
      r.Ok? && Lexemes(text, r.pos) == rest && Named(text, r.cmd) == LineTree(d)
    decreases d
  {
    hide GetToken, Skip, Peek, IsWord, Lexemes, ParsePipe, ParseBacks, PipeTokens, PipeTree, PipeFits, Backs;
    var tail := if d.One? then rest else [Sign(';')] + (LineTokens(d.next) + rest);
    assert LineTokens(d) + rest == PipeTokens(d.pipe) + (AmpsTokens(d.amps) + tail);
    AmpsEnd(d.amps, tail);
    PipeComplete(text, p, d.pipe, AmpsTokens(d.amps) + tail);
    var r := ParsePipe(text, p);
    BacksComplete(text, r.pos, r.cmd, d.amps, tail);
    var p2 := ParseBacks(text, r.pos, r.cmd).1;
    if d.One? {
      NotPeeked(text, p2, ";");
    } else {
      Peeked(text, p2, ';', LineTokens(d.next) + rest);
      LineComplete(text, GetToken(text, p2).2, d.next, rest);
    }
  }

  lemma AmpsEnd(n: nat, tail: seq<Lexeme>)
    requires Ends(tail, ");")
    ensures Ends(AmpsTokens(n) + tail, ")&;")
  {
  }

  // ---- The parser is the grammar ----

  /** The tokens derive the command. */
  ghost predicate Derives(toks: seq<Lexeme>, t: Cmd<string>) {
    exists d: Line :: LineTokens(d) == toks && LineTree(d) == t && LineFits(d)
  }

  /** A text parses to a command if and only if its tokens derive it; otherwise the parser panics. */
  lemma ParserIsGrammar(text: string, t: Cmd<string>)
    ensures var r := ParseCmd(text); r.Ok? && Named(text, r.cmd) == t <==> Derives(Lexemes(text, 0), t)
  {
    hide Named, LineTokens, LineTree, LineFits, Skip, ParseLine;
    var r := ParseCmd(text);
    if r.Ok? {
      var d := LineSound(text, 0);
      NothingLeft(text, ParseLine(text, 0).pos);
      assert LineTokens(d) + [] == LineTokens(d) == Lexemes(text, 0);
    }
    forall d: Line | LineTokens(d) == Lexemes(text, 0) && LineFits(d)
      ensures r.Ok? && Named(text, r.cmd) == LineTree(d)
    {
      assert LineTokens(d) + [] == LineTokens(d);
      LineComplete(text, 0, d, []);
      NothingLeft(text, ParseLine(text, 0).pos);
    }
  }

  lemma NothingLeft(text: string, p: nat)
    requires p <= |text|
    ensures Skip(text, p) == |text| <==> Lexemes(text, p) == []
  {
    NextToken(text, p);
  }

  /** Texts with the same tokens, however they are spaced, are both refused, or give the same command. */
  lemma OnlyTokensMatter(text: string, other: string)
    requires Lexemes(text, 0) == Lexemes(other, 0)
    ensures var r, s := ParseCmd(text), ParseCmd(other);
      (r.Ok? <==> s.Ok?) && (r.Ok? ==> Named(text, r.cmd) == Named(other, s.cmd))
  {
    hide Named, Derives, ParseCmd;
    var r, s := ParseCmd(text), ParseCmd(other);
    if r.Ok? {
      ParserIsGrammar(text, Named(text, r.cmd));
      ParserIsGrammar(other, Named(text, r.cmd));
    }
    if s.Ok? {
      ParserIsGrammar(other, Named(other, s.cmd));
      ParserIsGrammar(text, Named(other, s.cmd));
    }
  }
}
