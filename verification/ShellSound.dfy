/** Whatever the parser accepts, the grammar derives. */
module ShellSound {
  import opened Shell
  import opened ShellText
  import opened ShellGrammar

  // ---- Redirections ----

  lemma {:induction false} RedirsSound(text: string, p: nat)
    requires p <= |text| && ParseRedirs(text, p).Redirs?
    ensures var r := ParseRedirs(text, p); Reads(text, p, MarksTokens(NamedMarks(text, r.list)), r.pos)
    decreases |text| - p
  {
    hide GetToken, Skip, Peek, IsWord;
    var r := ParseRedirs(text, p);
    Peeks(text, p, "<>");
    if !Peek(text, p, "<>") {
      ReadsNothing(text, p);
    } else {
      var (tok, s, p1) := GetToken(text, p);
      var (tok2, word, p2) := GetToken(text, p1);
      NextToken(text, p);
      NextToken(text, p1);
      RedirsSound(text, p2);
      var rest := ParseRedirs(text, p2).list;
      var named := NamedMarks(text, r.list);
      assert r.list[1..] == rest && named[1..] == NamedMarks(text, rest);
      assert named[0] == Redirection(text[word.q..word.eq], r.list[0].mode);
      assert MarkTokens(named[0]) == [LexemeOf(text, tok, s), LexemeOf(text, tok2, word)];
    }
  }

  // ---- Simple commands ----

  /** The words and redirections that parseexec's loop reads from p on. */
  lemma {:induction false} ArgsSound(text: string, p: nat, args: seq<Span>, list: seq<Redirection<Span>>)
    returns (items: seq<Item>)
    requires p <= |text| && Good(text, Exec(args)) && GoodList(text, list) && ParseArgs(text, p, args, list).Ok?
    ensures var r := ParseArgs(text, p, args, list);
      && Reads(text, p, ItemsTokens(items), r.pos) && |args| + |Args(items)| < MAXARGS
      && Named(text, r.cmd) == Wrap(Exec(Names(text, args) + Args(items)), NamedMarks(text, list) + Marks(items))
    decreases |text| - p
  {
    hide GetToken, Skip, Peek, IsWord, Wrap, Reads, NamedMarks, Names, Lexemes, ItemsTokens, Items;
    var (tok, word, p1) := GetToken(text, p);
    if Peek(text, p, "|)&;") || tok == End {
      items := [];
      NoItems();
      ReadsNothing(text, p);
      EndToken(text, p);
      NamedWrap(text, Exec(args), list);
      assert Names(text, args) + [] == Names(text, args) && NamedMarks(text, list) + [] == NamedMarks(text, list);
    } else {
      var d := ParseRedirs(text, p1);
      NamesJoin(text, args, word);
      MarksJoin(text, list, d.list);
      var more := ArgsSound(text, d.pos, args + [word], list + d.list);
      var w, marks := text[word.q..word.eq], NamedMarks(text, d.list);
      items := [Arg(w)] + Items(marks) + more;
      ItemsFrom(w, marks, more);
      ItemsRead(text, p, more, ParseArgs(text, d.pos, args + [word], list + d.list).pos);
      ArgsTurn(Names(text, args), w, Args(more), NamedMarks(text, list), marks, Marks(more));
    }
  }

  lemma NoItems()
    ensures ItemsTokens([]) == []
  {
  }

  lemma ItemsRead(text: string, p: nat, more: seq<Item>, q: nat)
    requires p <= |text| && GetToken(text, p).0 == Word && ParseRedirs(text, GetToken(text, p).2).Redirs?
    requires Reads(text, ParseRedirs(text, GetToken(text, p).2).pos, ItemsTokens(more), q)
    ensures var (_, word, p1) := GetToken(text, p);
      Reads(text, p, [Name(text[word.q..word.eq])] + MarksTokens(NamedMarks(text, ParseRedirs(text, p1).list))
                     + ItemsTokens(more), q)
  {
    hide GetToken, Reads, NamedMarks, ItemsTokens, MarksTokens;
    var (_, word, p1) := GetToken(text, p);
    var d := ParseRedirs(text, p1);
    var w, marks := Name(text[word.q..word.eq]), MarksTokens(NamedMarks(text, d.list));
    ReadsWord(text, p);
    RedirsSound(text, p1);
    ReadsThen(text, p, [w], p1, marks, d.pos);
    ReadsThen(text, p, [w] + marks, d.pos, ItemsTokens(more), q);
  }

  lemma ReadsWord(text: string, p: nat)
    requires p <= |text| && GetToken(text, p).0 == Word
    ensures var (_, s, p1) := GetToken(text, p); Reads(text, p, [Name(text[s.q..s.eq])], p1)
  {
    NextToken(text, p);
  }

  lemma ArgsTurn(a: seq<string>, w: string, b: seq<string>, l: seq<Redirection<string>>, m: seq<Redirection<string>>,
                 n: seq<Redirection<string>>)
    ensures a + [w] + b == a + ([w] + b) && l + m + n == l + (m + n)
  {
  }

  lemma EndToken(text: string, p: nat)
    requires p <= |text|
    ensures GetToken(text, p).0 == End ==> Reads(text, p, [], GetToken(text, p).2)
  {
    SkipTwice(text, p);
  }

  // ---- Commands ----

  lemma {:induction false} ExecSound(text: string, p: nat) returns (d: Atom)
    requires p <= |text| && ParseExec(text, p).Ok?
    ensures var r := ParseExec(text, p);
      Reads(text, p, AtomTokens(d), r.pos) && AtomTree(d) == Named(text, r.cmd) && AtomFits(d)
    decreases |text| - p, 1
  {
    hide GetToken, Skip, Peek, IsWord, Wrap, Reads, NamedMarks, Items, ItemsTokens;
    if Peek(text, p, "(") {
      d := BlockSound(text, p);
    } else {
      var l := ParseRedirs(text, p);
      RedirsSound(text, p);
      var marks := NamedMarks(text, l.list);
      var items := ArgsSound(text, l.pos, [], l.list);
      ItemsOfMarks(marks);
      ItemsJoin(Items(marks), items);
      d := Simple(Items(marks) + items);
      ReadsThen(text, p, MarksTokens(marks), l.pos, ItemsTokens(items), ParseExec(text, p).pos);
      assert Names(text, []) + Args(items) == Args(items);
    }
  }

  lemma {:induction false} BlockSound(text: string, p: nat) returns (d: Atom)
    requires p <= |text| && Peek(text, p, "(") && ParseBlock(text, p).Ok?
    ensures var r := ParseBlock(text, p);
      Reads(text, p, AtomTokens(d), r.pos) && AtomTree(d) == Named(text, r.cmd) && AtomFits(d)
    decreases |text| - p, 0
  {
    hide GetToken, Skip, Peek, IsWord, Wrap, Reads, NamedMarks, MarksTokens;
    ReadsSign(text, p, '(');
    var p1 := GetToken(text, p).2;
    var line := LineSound(text, p1);
    var r := ParseLine(text, p1);
    ReadsThen(text, p, [Sign('(')], p1, LineTokens(line), r.pos);
    ReadsSign(text, r.pos, ')');
    var p2 := GetToken(text, r.pos).2;
    ReadsThen(text, p, [Sign('(')] + LineTokens(line), r.pos, [Sign(')')], p2);
    RedirsSound(text, p2);
    var l := ParseRedirs(text, p2);
    var marks := NamedMarks(text, l.list);
    ReadsThen(text, p, [Sign('(')] + LineTokens(line) + [Sign(')')], p2, MarksTokens(marks), l.pos);
    NamedWrap(text, r.cmd, l.list);
    d := Block(line, marks);
  }

  lemma {:induction false} PipeSound(text: string, p: nat) returns (d: Piped)
    requires p <= |text| && ParsePipe(text, p).Ok?
    ensures var r := ParsePipe(text, p);
      Reads(text, p, PipeTokens(d), r.pos) && PipeTree(d) == Named(text, r.cmd) && PipeFits(d)
    decreases |text| - p, 2
  {
    hide GetToken, Skip, Peek, IsWord, Reads, AtomTokens, AtomTree, AtomFits;
    var a := ExecSound(text, p);
    var r := ParseExec(text, p);
    if !Peek(text, r.pos, "|") {
      ReadsNothing(text, r.pos);
      ReadsThen(text, p, AtomTokens(a), r.pos, [], Skip(text, r.pos));
      assert AtomTokens(a) + [] == AtomTokens(a);
      d := Last(a);
    } else {
      ReadsSign(text, r.pos, '|');
      var p1 := GetToken(text, r.pos).2;
      ReadsThen(text, p, AtomTokens(a), r.pos, [Sign('|')], p1);
      var rest := PipeSound(text, p1);
      ReadsThen(text, p, AtomTokens(a) + [Sign('|')], p1, PipeTokens(rest), ParsePipe(text, p).pos);
      d := Then(a, rest);
    }
  }

  lemma {:induction false} BacksSound(text: string, p: nat, cmd: Cmd<Span>) returns (n: nat)
    requires p <= |text| && Good(text, cmd)
    ensures var r := ParseBacks(text, p, cmd);
      Reads(text, p, AmpsTokens(n), r.1) && Named(text, r.0) == Backs(Named(text, cmd), n)
    decreases |text| - p
  {
    hide GetToken, Skip, Peek, IsWord, Reads;
    if !Peek(text, p, "&") {
      ReadsNothing(text, p);
      n := 0;
    } else {
      ReadsSign(text, p, '&');
      var p1 := GetToken(text, p).2;
      var more := BacksSound(text, p1, Back(cmd));
      BacksTurn(Named(text, cmd), more);
      ReadsThen(text, p, [Sign('&')], p1, AmpsTokens(more), ParseBacks(text, p, cmd).1);
      n := more + 1;
    }
  }

  lemma {:induction false} LineSound(text: string, p: nat) returns (d: Line)
    requires p <= |text| && ParseLine(text, p).Ok?
    ensures var r := ParseLine(text, p);
      Reads(text, p, LineTokens(d), r.pos) && LineTree(d) == Named(text, r.cmd) && LineFits(d)
    decreases |text| - p, 3
  {
    hide GetToken, Skip, Peek, IsWord, Reads, PipeTokens, PipeTree, PipeFits, AmpsTokens, Backs;
    var pipe := PipeSound(text, p);
    var r := ParsePipe(text, p);
    var n := BacksSound(text, r.pos, r.cmd);
    var p2 := ParseBacks(text, r.pos, r.cmd).1;
    var toks := PipeTokens(pipe) + AmpsTokens(n);
    ReadsThen(text, p, PipeTokens(pipe), r.pos, AmpsTokens(n), p2);
    if !Peek(text, p2, ";") {
      ReadsNothing(text, p2);
      ReadsThen(text, p, toks, p2, [], Skip(text, p2));
      assert toks + [] == toks;
      d := One(pipe, n);
    } else {
      ReadsSign(text, p2, ';');
      var p3 := GetToken(text, p2).2;
      ReadsThen(text, p, toks, p2, [Sign(';')], p3);
      var next := LineSound(text, p3);
      ReadsThen(text, p, toks + [Sign(';')], p3, LineTokens(next), ParseLine(text, p).pos);
      d := Two(pipe, n, next);
    }
  }
}
