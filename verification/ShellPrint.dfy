/** The parser undoes the printer: every command has a text, with as few parentheses as can be, that parses to it; so
    ';', '&', '|', redirections and parentheses group as they should. */
module ShellPrint {
  import opened Shell
  import opened ShellText

  /** The parser returns t and stops at e. */
  ghost predicate Gives(text: string, r: Result, e: nat, t: Cmd<string>) {
    r.Ok? && r.pos == e && Good(text, r.cmd) && Named(text, r.cmd) == t
  }

  // ---- White space before a command makes no difference ----

  lemma RedirsFromSkip(text: string, p: nat)
    requires p <= |text|
    ensures ParseRedirs(text, Skip(text, p)) == ParseRedirs(text, p)
  {
    hide GetToken, Skip, Peek, GoodList;
    TokenFromSkip(text, p);
  }

  lemma BlockFromSkip(text: string, p: nat)
    requires p <= |text| && Peek(text, p, "(")
    ensures Peek(text, Skip(text, p), "(")
    ensures ParseBlock(text, Skip(text, p)) == ParseBlock(text, p)
  {
    hide GetToken, Skip, Peek, Good, ParseRedirs, ParseLine;
    TokenFromSkip(text, p);
  }

  lemma PipeFromSkip(text: string, p: nat)
    requires p <= |text|
    ensures ParsePipe(text, Skip(text, p)) == ParsePipe(text, p)
  {
    hide GetToken, Skip, Peek, Good, ParseRedirs, ParseBlock, ParseArgs;
    TokenFromSkip(text, p);
    RedirsFromSkip(text, p);
    if Peek(text, p, "(") {
      BlockFromSkip(text, p);
    }
    assert ParseExec(text, Skip(text, p)) == ParseExec(text, p);
  }

  lemma LineFromSkip(text: string, p: nat)
    requires p <= |text|
    ensures ParseLine(text, Skip(text, p)) == ParseLine(text, p)
  {
    hide GetToken, Skip, Peek, Good, ParsePipe, ParseBacks;
    PipeFromSkip(text, p);
  }

  // ---- Simple commands ----

  /** Words at p, and then redirections. */
  lemma WordsExec(text: string, p: nat, args: seq<string>, chain: seq<Redirection<string>>)
    requires 0 < |args| < MAXARGS && LegalWords(args) && LegalMarks(chain)
    requires Occurs(text, p, PrintWords(args)) && Occurs(text, p + |PrintWords(args)|, PrintMarks(chain))
    requires Follow(text, p + |PrintWords(args)| + |PrintMarks(chain)|)
    ensures Gives(text, ParseExec(text, p), p + |PrintWords(args)| + |PrintMarks(chain)|, Wrap(Exec(args), chain))
  {
    hide Occurs, LegalWord, LegalWords, LegalMarks, IsWord, ParseArgs, ParseExec, ParseRedirs, Peek, Skip, Wrap, Follow,
      GetToken, PrintWords, PrintMarks, PlacedWords, Names, NamedMarks;
    var w := p + |PrintWords(args)|;
    MarksEnd(text, w, chain);
    MarksParse(text, w, chain);
    WordsFirst(text, p, args);
    WordsPlaced(text, p, args);
    WordsParse(text, p, args, []);
    var none: seq<Span> := [];
    assert none + PlacedWords(args, p) == PlacedWords(args, p);
    NamedWrap(text, Exec(PlacedWords(args, p)), ParseRedirs(text, w).list);
  }

  /** A command that begins with a word is no block and has no redirection first. */
  lemma WordsFirst(text: string, p: nat, args: seq<string>)
    requires 0 < |args| && LegalWords(args) && Occurs(text, p, PrintWords(args)) && Ends(text, p + |PrintWords(args)|)
    ensures p <= |text| && ParseExec(text, p) == ParseArgs(text, p, [], [])
  {
    hide Occurs, LegalWord, IsWord, ParseArgs, ParseRedirs, Peek, Skip, GetToken;
    FirstWord(text, p, args);
    WordToken(text, Span(p, p + |args[0]|));
    NoRedirs(text, p);
  }

  /** Redirections alone, or nothing at all. */
  lemma MarksExec(text: string, p: nat, chain: seq<Redirection<string>>)
    requires LegalMarks(chain) && Occurs(text, p, PrintMarks(chain)) && Follow(text, p + |PrintMarks(chain)|)
    ensures Gives(text, ParseExec(text, p), p + |PrintMarks(chain)|, Wrap(Exec([]), chain))
  {
    hide Occurs, LegalWord, IsWord, ParseArgs, ParseRedirs, Peek, Skip, Wrap, GetToken;
    MarksParse(text, p, chain);
    var d := ParseRedirs(text, p);
    NoMoreArgs(text, d.pos, [], d.list);
    NamedWrap(text, Exec([]), d.list);
    if |chain| == 0 {
      Following(text, p);
    } else {
      FirstMark(text, p, chain);
      MarkToken(text, p, chain[0].mode, Span(p + |Mark(chain[0].mode)|, p + |Mark(chain[0].mode)| + |chain[0].file|));
    }
  }

  // ---- Blocks ----

  /** A command in parentheses, and then redirections. */
  lemma BlockExec(text: string, p: nat, u: Cmd<string>, chain: seq<Redirection<string>>)
    requires Occurs(text, p, "(" + Print(u) + ")") && LegalMarks(chain)
    requires Occurs(text, p + |Print(u)| + 2, PrintMarks(chain))
             && Follow(text, p + |Print(u)| + 2 + |PrintMarks(chain)|)
    requires Gives(text, ParseLine(text, p + 1), p + 1 + |Print(u)|, u)
    ensures Gives(text, ParseExec(text, p), p + |Print(u)| + 2 + |PrintMarks(chain)|, Wrap(u, chain))
  {
    hide Occurs, LegalWord, IsWord, ParseRedirs, ParseLine, Peek, Skip, Wrap, GetToken, Print;
    var e := p + 1 + |Print(u)|;
    Parentheses(text, p, Print(u));
    SymbolToken(text, p);
    SymbolToken(text, e);
    LineFromSkip(text, p + 1);
    MarksEnd(text, e + 1, chain);
    NoSpace(text, e + 1);
    MarksParse(text, e + 1, chain);
    NamedWrap(text, ParseLine(text, p + 1).cmd, ParseRedirs(text, e + 1).list);
  }

  lemma Parentheses(text: string, p: nat, s: string)
    requires Occurs(text, p, "(" + s + ")")
    ensures p + 1 + |s| < |text| && text[p] == '(' && text[p + 1 + |s|] == ')' && Occurs(text, p + 1, s)
  {
    OccursParts(text, p, "(" + s, ")");
    OccursParts(text, p, "(", s);
    OccursAt(text, p, "(", 0);
    OccursAt(text, p + 1 + |s|, ")", 0);
  }

  // ---- Operators ----

  /** A command with no '|' after it is the whole pipeline. */
  lemma PipeEnd(text: string, p: nat, e: nat, t: Cmd<string>)
    requires p <= |text| && Gives(text, ParseExec(text, p), e, t) && Follow(text, e) && (e < |text| ==> text[e] != '|')
    ensures Gives(text, ParsePipe(text, p), e, t)
  {
    hide ParseExec, Peek, Skip, Good, Named;
    Following(text, e);
  }

  lemma PipeMore(text: string, p: nat, e: nat, t: Cmd<string>, e2: nat, u: Cmd<string>)
    requires p <= |text| && Gives(text, ParseExec(text, p), e, t) && e < |text| && text[e] == '|'
    requires Gives(text, ParsePipe(text, e + 1), e2, u)
    ensures Gives(text, ParsePipe(text, p), e2, Pipe(t, u))
  {
    hide ParseExec, Peek, Skip, GetToken, IsWord;
    SymbolToken(text, e);
    PipeFromSkip(text, e + 1);
  }

  /** t is what parsepipe returned in n ampersands, and the next to be read is at e. */
  ghost predicate Amps(text: string, p: nat, e: nat, t: Cmd<string>, c: Cmd<Span>) {
    && p <= |text| && e <= |text| && Good(text, c) && Named(text, c) == t
    && var r := ParsePipe(text, p); r.Ok? && ParseBacks(text, r.pos, r.cmd) == ParseBacks(text, e, c)
  }

  lemma AmpsMore(text: string, p: nat, e: nat, t: Cmd<string>, c: Cmd<Span>)
    requires Amps(text, p, e, t, c) && e < |text| && text[e] == '&' && Follow(text, e + 1)
    ensures Amps(text, p, e + 1, Back(t), Back(c))
  {
    hide ParsePipe, Peek, Skip, GetToken, IsWord;
    SymbolToken(text, e);
    Following(text, e + 1);
  }

  lemma LineEnd(text: string, p: nat, e: nat, t: Cmd<string>, c: Cmd<Span>)
    requires Amps(text, p, e, t, c) && Follow(text, e) && (e < |text| ==> text[e] == ')')
    ensures Gives(text, ParseLine(text, p), e, t)
  {
    hide ParsePipe, Peek, Skip, Good, Named;
    Following(text, e);
  }

  lemma LineMore(text: string, p: nat, e: nat, t: Cmd<string>, c: Cmd<Span>, e2: nat, u: Cmd<string>)
    requires Amps(text, p, e, t, c) && e < |text| && text[e] == ';'
    requires Gives(text, ParseLine(text, e + 1), e2, u)
    ensures Gives(text, ParseLine(text, p), e2, List(t, u))
  {
    hide ParsePipe, Peek, Skip, GetToken, IsWord;
    SymbolToken(text, e);
    LineFromSkip(text, e + 1);
  }

  // ---- The round trip ----

  lemma LineText(t: Cmd<string>)
    ensures !t.List? ==> Print(t) == PrintBacks(t)
    ensures t.List? ==> Print(t) == PrintBacks(t.left) + [';'] + Print(t.right)
    ensures t.List? ==> |Print(t)| == |PrintBacks(t.left)| + 1 + |Print(t.right)|
  {
  }

  lemma BacksText(t: Cmd<string>)
    ensures !t.Back? ==> PrintBacks(t) == PrintPipe(t)
    ensures t.Back? ==> PrintBacks(t) == PrintBacks(t.cmd) + "&" && |PrintBacks(t)| == |PrintBacks(t.cmd)| + 1
  {
  }

  lemma PipeText(t: Cmd<string>)
    ensures !t.Pipe? ==> PrintPipe(t) == PrintExec(t)
    ensures t.Pipe? ==> PrintPipe(t) == PrintExec(t.left) + ['|'] + PrintPipe(t.right)
    ensures t.Pipe? ==> |PrintPipe(t)| == |PrintExec(t.left)| + 1 + |PrintPipe(t.right)|
  {
  }

  lemma ExecText(t: Cmd<string>)
    ensures var u := Core(t);
      && PrintExec(t) == PrintCore(u) + PrintMarks(Chain(t))
          && |PrintExec(t)| == |PrintCore(u)| + |PrintMarks(Chain(t))|
      && (u.Exec? ==> PrintCore(u) == PrintWords(u.args) && (|u.args| == 0 ==> |PrintCore(u)| == 0))
      && (!u.Exec? ==> PrintCore(u) == "(" + Print(u) + ")" && |PrintCore(u)| == |Print(u)| + 2)
  {
  }

  /** parseline undoes Print, up to a closing parenthesis or the end. */
  lemma {:induction false} LineParses(text: string, p: nat, t: Cmd<string>)
    requires Legal(t) && Occurs(text, p, Print(t))
    requires var e := p + |Print(t)|; Follow(text, e) && (e < |text| ==> text[e] == ')')
    ensures Gives(text, ParseLine(text, p), p + |Print(t)|, t)
    decreases t, 4
  {
    hide Occurs, Gives, Amps, Print, PrintBacks, ParseLine;
    var e := p + |Print(t)|;
    LineText(t);
    if t.List? {
      OccursAround(text, p, PrintBacks(t.left), ';', Print(t.right));
      var c := BacksParse(text, p, t.left);
      LineParses(text, p + |PrintBacks(t.left)| + 1, t.right);
      LineMore(text, p, p + |PrintBacks(t.left)|, t.left, c, e, t.right);
    } else {
      var c := BacksParse(text, p, t);
      LineEnd(text, p, e, t, c);
    }
  }

  lemma {:induction false} BacksParse(text: string, p: nat, t: Cmd<string>) returns (c: Cmd<Span>)
    requires Legal(t) && Occurs(text, p, PrintBacks(t))
    requires var e := p + |PrintBacks(t)|; Follow(text, e) && (e < |text| ==> text[e] != '|')
    ensures Amps(text, p, p + |PrintBacks(t)|, t, c)
    decreases t, if t.List? then 8 else 3
  {
    hide Occurs, Gives, Amps, PrintBacks, PrintPipe, ParsePipe;
    BacksText(t);
    if t.Back? {
      var e := p + |PrintBacks(t.cmd)|;
      OccursParts(text, p, PrintBacks(t.cmd), "&");
      OccursAt(text, e, "&", 0);
      c := BacksParse(text, p, t.cmd);
      AmpsMore(text, p, e, t.cmd, c);
      c := Back(c);
    } else {
      PipeParses(text, p, t);
      c := FirstAmps(text, p, p + |PrintPipe(t)|, t);
    }
  }

  lemma FirstAmps(text: string, p: nat, e: nat, t: Cmd<string>) returns (c: Cmd<Span>)
    requires p <= |text| && Gives(text, ParsePipe(text, p), e, t)
    ensures Amps(text, p, e, t, c)
  {
    c := ParsePipe(text, p).cmd;
  }

  lemma {:induction false} PipeParses(text: string, p: nat, t: Cmd<string>)
    requires Legal(t) && Occurs(text, p, PrintPipe(t))
    requires var e := p + |PrintPipe(t)|; Follow(text, e) && (e < |text| ==> text[e] != '|')
    ensures Gives(text, ParsePipe(text, p), p + |PrintPipe(t)|, t)
    decreases t, if t.List? || t.Back? then 7 else 2
  {
    hide Gives, Occurs, Legal, PrintPipe, PrintExec, ParsePipe, ParseExec;
    var e := p + |PrintPipe(t)|;
    PipeText(t);
    if t.Pipe? {
      LegalParts(t);
      OccursAround(text, p, PrintExec(t.left), '|', PrintPipe(t.right));
      BarFollows(text, p + |PrintExec(t.left)|);
      ExecParses(text, p, t.left);
      PipeParses(text, p + |PrintExec(t.left)| + 1, t.right);
      PipeMore(text, p, p + |PrintExec(t.left)|, t.left, e, t.right);
    } else {
      ExecParses(text, p, t);
      PipeEnd(text, p, e, t);
    }
  }

  lemma LegalParts(t: Cmd<string>)
    requires Legal(t) && (t.Pipe? || t.List?)
    ensures Legal(t.left) && Legal(t.right)
  {
  }

  lemma BarFollows(text: string, p: nat)
    requires p < |text| && text[p] == '|'
    ensures Follow(text, p)
  {
  }

  lemma {:induction false} ExecParses(text: string, p: nat, t: Cmd<string>)
    requires Legal(t) && Occurs(text, p, PrintExec(t)) && Follow(text, p + |PrintExec(t)|)
    ensures Gives(text, ParseExec(text, p), p + |PrintExec(t)|, t)
    decreases t, if t.Exec? || t.Redir? then 1 else 6
  {
    hide Gives, Occurs, LegalWord, PrintWords, PrintMarks, PrintExec, PrintCore, Core, Chain, ParseExec, ParseLine;
    var u, chain := Core(t), Chain(t);
    CoreChain(t);
    ExecText(t);
    OccursParts(text, p, PrintCore(u), PrintMarks(chain));
    if u.Exec? {
      if |u.args| == 0 {
        MarksExec(text, p, chain);
      } else {
        WordsExec(text, p, u.args, chain);
      }
    } else {
      Parentheses(text, p, Print(u));
      LineParses(text, p + 1, u);
      BlockExec(text, p, u, chain);
    }
  }

  lemma {:induction false} WordsNoNul(args: seq<string>)
    requires LegalWords(args)
    ensures NoNul(PrintWords(args))
  {
    if |args| > 1 {
      WordsNoNul(args[1..]);
    }
  }

  lemma {:induction false} MarksNoNul(chain: seq<Redirection<string>>)
    requires LegalMarks(chain)
    ensures NoNul(PrintMarks(chain))
  {
    if |chain| > 0 {
      MarksNoNul(chain[1..]);
    }
  }

  /** The text of a legal command is a C string: nothing in it ends it early. */
  lemma {:induction false} PrintNoNul(t: Cmd<string>)
    requires Legal(t)
    ensures NoNul(Print(t))
    decreases t, 4
  {
    if t.List? {
      BacksNoNul(t.left);
      PrintNoNul(t.right);
    } else {
      BacksNoNul(t);
    }
  }

  lemma {:induction false} BacksNoNul(t: Cmd<string>)
    requires Legal(t)
    ensures NoNul(PrintBacks(t))
    decreases t, if t.List? then 8 else 3
  {
    if t.Back? {
      BacksNoNul(t.cmd);
    } else {
      PipeNoNul(t);
    }
  }

  lemma {:induction false} PipeNoNul(t: Cmd<string>)
    requires Legal(t)
    ensures NoNul(PrintPipe(t))
    decreases t, if t.List? || t.Back? then 7 else 2
  {
    if t.Pipe? {
      ExecNoNul(t.left);
      PipeNoNul(t.right);
    } else {
      ExecNoNul(t);
    }
  }

  lemma {:induction false} ExecNoNul(t: Cmd<string>)
    requires Legal(t)
    ensures NoNul(PrintExec(t))
    decreases t, if t.Exec? || t.Redir? then 1 else 6
  {
    var u := Core(t);
    CoreChain(t);
    MarksNoNul(Chain(t));
    if u.Exec? {
      WordsNoNul(u.args);
    } else {
      PrintNoNul(u);
    }
  }

  /** parsecmd undoes the printer: every command the shell can be given has a text, and the text parses to it. */
  lemma RoundTrip(t: Cmd<string>)
    requires Legal(t)
    ensures NoNul(Print(t))
    ensures var r := ParseCmd(Print(t)); r.Ok? && Named(Print(t), r.cmd) == t
  {
    hide Print, Legal, Good, Named, ParseLine;
    var text := Print(t);
    PrintNoNul(t);
    assert text[0..0 + |text|] == text;
    LineParses(text, 0, t);
    assert Skip(text, |text|) == |text|;
  }

  /** Whatever text parses, its command printed with as few parentheses as possible parses to the same command. */
  lemma Reprint(text: string)
    requires NoNul(text) && ParseCmd(text).Ok?
    ensures var t := Named(text, ParseCmd(text).cmd);
      Legal(t) && var again := ParseCmd(Print(t)); again.Ok? && Named(Print(t), again.cmd) == t
  {
    NamedLegal(text, ParseCmd(text).cmd);
    RoundTrip(Named(text, ParseCmd(text).cmd));
  }

  /** Different commands have different texts. */
  lemma PrintInjective(t: Cmd<string>, u: Cmd<string>)
    requires Legal(t) && Legal(u) && Print(t) == Print(u)
    ensures t == u
  {
    RoundTrip(t);
    RoundTrip(u);
  }
}
