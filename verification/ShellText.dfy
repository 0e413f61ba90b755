/** Commands as trees of words, the text of a command, and the tokens of that text. */
module ShellText {
  import opened Shell

  // ---- Words ----

  ghost predicate LegalWord(w: string) { |w| > 0 && NoNul(w) && forall i :: 0 <= i < |w| ==> IsWordChar(w[i]) }

  ghost predicate LegalWords(args: seq<string>) { forall k :: 0 <= k < |args| ==> LegalWord(args[k]) }

  ghost predicate LegalMarks(chain: seq<Redirection<string>>) {
    forall k :: 0 <= k < |chain| ==> LegalWord(chain[k].file)
  }

  /** A command the shell can be given: whole words, and fewer than MAXARGS of them in each. */
  ghost predicate Legal(t: Cmd<string>) {
    match t
    case Exec(args) => |args| < MAXARGS && LegalWords(args)
    case Redir(u, f, _) => Legal(u) && LegalWord(f)
    case Pipe(l, r) => Legal(l) && Legal(r)
    case List(l, r) => Legal(l) && Legal(r)
    case Back(u) => Legal(u)
  }

  /** The words that the spans of a parsed command stand for. */
  ghost function Named(text: string, c: Cmd<Span>): Cmd<string>
    requires Good(text, c)
  {
    match c
    case Exec(args) => Exec(Names(text, args))
    case Redir(u, f, m) => Redir(Named(text, u), text[f.q..f.eq], m)
    case Pipe(l, r) => Pipe(Named(text, l), Named(text, r))
    case List(l, r) => List(Named(text, l), Named(text, r))
    case Back(u) => Back(Named(text, u))
  }

  ghost function Names(text: string, args: seq<Span>): (r: seq<string>)
    requires forall k :: 0 <= k < |args| ==> IsWord(text, args[k])
    ensures |r| == |args| && forall k :: 0 <= k < |args| ==>
              IsWord(text, args[k]) && r[k] == text[args[k].q..args[k].eq]
  {
    if |args| == 0 then []
    else assert IsWord(text, args[0]); [text[args[0].q..args[0].eq]] + Names(text, args[1..])
  }

  ghost function NamedMarks(text: string, list: seq<Redirection<Span>>): (r: seq<Redirection<string>>)
    requires GoodList(text, list)
    ensures |r| == |list|
    ensures forall k :: 0 <= k < |list| ==>
      IsWord(text, list[k].file) && r[k] == Redirection(text[list[k].file.q..list[k].file.eq], list[k].mode)
  {
    if |list| == 0 then []
    else
      assert IsWord(text, list[0].file);
      [Redirection(text[list[0].file.q..list[0].file.eq], list[0].mode)] + NamedMarks(text, list[1..])
  }

  /** Whatever the parser returns is legal. */
  lemma {:induction false} NamedLegal(text: string, c: Cmd<Span>)
    requires Good(text, c) && NoNul(text)
    ensures Legal(Named(text, c))
  {
    match c
    case Exec(args) =>
      forall k | 0 <= k < |args| ensures LegalWord(Names(text, args)[k]) {
        assert IsWord(text, args[k]);
      }
    case Redir(u, f, _) => NamedLegal(text, u);
    case Pipe(l, r) => NamedLegal(text, l); NamedLegal(text, r);
    case List(l, r) => NamedLegal(text, l); NamedLegal(text, r);
    case Back(u) => NamedLegal(text, u);
  }

  lemma {:induction false} NamedWrap(text: string, c: Cmd<Span>, list: seq<Redirection<Span>>)
    requires Good(text, c) && GoodList(text, list)
    ensures Good(text, Wrap(c, list)) && Named(text, Wrap(c, list)) == Wrap(Named(text, c), NamedMarks(text, list))
    decreases |list|
  {
    hide NamedMarks;
    if |list| > 0 {
      var front, named := list[..|list| - 1], NamedMarks(text, list);
      NamedWrap(text, c, front);
      assert named[..|front|] == NamedMarks(text, front);
      var last := list[|list| - 1];
      assert named[|list| - 1] == Redirection(text[last.file.q..last.file.eq], last.mode) && IsWord(text, last.file);
      assert Wrap(Named(text, c), named)
          == Redir(Wrap(Named(text, c), named[..|front|]), text[last.file.q..last.file.eq], last.mode);
    }
  }

  // ---- The text of a command ----

  /** A command without the redirections round it, and those redirections, innermost first. */
  function Core(t: Cmd<string>): (r: Cmd<string>)
    ensures !r.Redir? && (t.Redir? ==> r < t) && (!t.Redir? ==> r == t)
  {
    if t.Redir? then Core(t.cmd) else t
  }

  function Chain(t: Cmd<string>): seq<Redirection<string>> {
    if t.Redir? then Chain(t.cmd) + [Redirection(t.file, t.mode)] else []
  }

  lemma {:induction false} CoreChain(t: Cmd<string>)
    ensures Wrap(Core(t), Chain(t)) == t && (Legal(t) ==> Legal(Core(t)) && LegalMarks(Chain(t)))
  {
    if t.Redir? {
      CoreChain(t.cmd);
      assert Chain(t)[..|Chain(t)| - 1] == Chain(t.cmd);
    }
  }

  function PrintWords(args: seq<string>): string {
    if |args| == 0 then "" else if |args| == 1 then args[0] else args[0] + " " + PrintWords(args[1..])
  }

  function Mark(m: Mode): string { match m case Read => "<" case Write => ">" case Append => ">>" }

  function PrintMarks(chain: seq<Redirection<string>>): string {
    if |chain| == 0 then "" else Mark(chain[0].mode) + chain[0].file + PrintMarks(chain[1..])
  }

  /** A command as parseline reads it: ';' binds loosest, then '&', then '|', and both ';' and '|' group to the right;
      parentheses stand only where this would group it otherwise. */
  function Print(t: Cmd<string>): string
    decreases t, 4
  {
    if t.List? then PrintBacks(t.left) + ";" + Print(t.right) else PrintBacks(t)
  }

  function PrintBacks(t: Cmd<string>): string
    decreases t, if t.List? then 8 else 3
  {
    if t.Back? then PrintBacks(t.cmd) + "&" else PrintPipe(t)
  }

  function PrintPipe(t: Cmd<string>): string
    decreases t, if t.List? || t.Back? then 7 else 2
  {
    if t.Pipe? then PrintExec(t.left) + "|" + PrintPipe(t.right) else PrintExec(t)
  }

  function PrintExec(t: Cmd<string>): string
    decreases t, if t.Exec? || t.Redir? then 1 else 6
  {
    PrintCore(Core(t)) + PrintMarks(Chain(t))
  }

  function PrintCore(t: Cmd<string>): string
    requires !t.Redir?
    decreases t, if t.Exec? then 0 else 5
  {
    if t.Exec? then PrintWords(t.args) else "(" + Print(t) + ")"
  }

  // ---- Where in a text a part of it is ----

  ghost predicate Occurs(text: string, p: nat, s: string) { p + |s| <= |text| && text[p..p + |s|] == s }

  lemma OccursParts(text: string, p: nat, a: string, b: string)
    requires Occurs(text, p, a + b)
    ensures Occurs(text, p, a) && Occurs(text, p + |a|, b)
  {
    var s := text[p..p + |a + b|];
    assert s[..|a|] == a && s[|a|..] == b;
    assert text[p..p + |a|] == s[..|a|] && text[p + |a|..p + |a| + |b|] == s[|a|..];
  }

  lemma OccursAt(text: string, p: nat, s: string, i: nat)
    requires Occurs(text, p, s) && i < |s|
    ensures p + i < |text| && text[p + i] == s[i]
  {
    assert text[p..p + |s|][i] == text[p + i];
  }

  /** a, then the character c, then b. */
  lemma OccursAround(text: string, p: nat, a: string, c: char, b: string)
    requires Occurs(text, p, a + [c] + b)
    ensures Occurs(text, p, a) && Occurs(text, p + |a| + 1, b)
    ensures p + |a| < |text| && text[p + |a|] == c
  {
    OccursParts(text, p, a + [c], b);
    OccursParts(text, p, a, [c]);
    OccursAt(text, p + |a|, [c], 0);
  }

  /** What may follow a word that is followed by no white space. */
  ghost predicate Ends(text: string, p: nat) { p <= |text| && (p < |text| ==> IsSymbol(text[p])) }

  /** What may follow a command: the end, or a symbol that is no redirection. */
  ghost predicate Follow(text: string, p: nat) {
    p <= |text| && (p < |text| ==> text[p] == ')' || text[p] == '|' || text[p] == '&' || text[p] == ';')
  }

  // ---- Tokens ----

  lemma SkipTwice(text: string, p: nat)
    requires p <= |text|
    ensures Skip(text, Skip(text, p)) == Skip(text, p)
  {
  }

  /** Every parse function begins by skipping white space. */
  lemma TokenFromSkip(text: string, p: nat)
    requires p <= |text|
    ensures Skip(text, Skip(text, p)) == Skip(text, p) && GetToken(text, Skip(text, p)) == GetToken(text, p)
    ensures forall toks :: Peek(text, Skip(text, p), toks) == Peek(text, p, toks)
  {
    SkipTwice(text, p);
  }

  /** A one-character symbol at p is the next token. */
  lemma SymbolToken(text: string, p: nat)
    requires p < |text| && IsSymbol(text[p]) && text[p] != '>'
    ensures Skip(text, p) == p && GetToken(text, p) == (Symbol(text[p]), Span(p, p + 1), Skip(text, p + 1))
    ensures Peek(text, p, "(") == (text[p] == '(') && Peek(text, p, ")") == (text[p] == ')')
    ensures Peek(text, p, "|") == (text[p] == '|') && Peek(text, p, "&") == (text[p] == '&')
    ensures Peek(text, p, ";") == (text[p] == ';') && Peek(text, p, "<>") == (text[p] == '<')
  {
  }

  /** After a command there is nothing to skip, and what is there is what is seen. */
  lemma Following(text: string, p: nat)
    requires Follow(text, p)
    ensures Skip(text, p) == p && !Peek(text, p, "<>") && !Peek(text, p, "(")
    ensures p < |text| ==> Peek(text, p, "|)&;")
    ensures p == |text| ==> GetToken(text, p) == (End, Span(p, p), p) && !Peek(text, p, "|)&;")
    ensures Peek(text, p, "|") == (p < |text| && text[p] == '|') && Peek(text, p, "&") == (p < |text| && text[p] == '&')
    ensures Peek(text, p, ";") == (p < |text| && text[p] == ';') && Peek(text, p, ")") == (p < |text| && text[p] == ')')
  {
  }

  /** A legal word at p, with no word character after it, is a word of the text. */
  lemma WordThere(text: string, p: nat, w: string)
    requires LegalWord(w) && Occurs(text, p, w)
    requires p + |w| < |text| ==> !IsWordChar(text[p + |w|])
    ensures IsWord(text, Span(p, p + |w|)) && text[p..p + |w|] == w
  {
    forall i | p <= i < p + |w| ensures IsWordChar(text[i]) {
      OccursAt(text, p, w, i - p);
    }
  }

  /** A word of the text is the next token. */
  lemma WordToken(text: string, s: Span)
    requires IsWord(text, s)
    ensures GetToken(text, s.q) == (Word, s, Skip(text, s.eq))
    ensures IsWordChar(text[s.q]) && Skip(text, s.q) == s.q
    ensures !Peek(text, s.q, "(") && !Peek(text, s.q, "<>") && !Peek(text, s.q, "|)&;")
  {
    assert WordEnd(text, s.q) == s.eq;
  }

  // ---- The words of a command ----

  function PlacedWords(args: seq<string>, p: nat): (r: seq<Span>)
    ensures |r| == |args|
  {
    if |args| == 0 then []
    else [Span(p, p + |args[0]|)] + PlacedWords(args[1..], p + |args[0]| + 1)
  }

  lemma FirstWord(text: string, p: nat, args: seq<string>)
    requires |args| > 0
    requires LegalWords(args) && Occurs(text, p, PrintWords(args)) && Ends(text, p + |PrintWords(args)|)
    ensures IsWord(text, Span(p, p + |args[0]|)) && text[p..p + |args[0]|] == args[0]
    ensures |args| == 1 ==> |PrintWords(args)| == |args[0]|
    ensures |args| > 1 ==>
      && p + |args[0]| < |text| && text[p + |args[0]|] == ' '
      && LegalWords(args[1..]) && Occurs(text, p + |args[0]| + 1, PrintWords(args[1..]))
      && |PrintWords(args)| == |args[0]| + 1 + |PrintWords(args[1..])|
  {
    hide Occurs, IsWord, LegalWord;
    var w := args[0];
    if |args| > 1 {
      OccursAround(text, p, w, ' ', PrintWords(args[1..]));
    }
    WordThere(text, p, w);
  }

  /** The words of a printed argument list are words of the text. */
  lemma {:induction false} WordsPlaced(text: string, p: nat, args: seq<string>)
    requires LegalWords(args) && Occurs(text, p, PrintWords(args)) && Ends(text, p + |PrintWords(args)|)
    ensures forall k :: 0 <= k < |args| ==> IsWord(text, PlacedWords(args, p)[k])
    ensures Names(text, PlacedWords(args, p)) == args
    decreases |args|
  {
    hide LegalWord, Occurs, IsWord, IsWordChar, PrintWords;
    if |args| > 0 {
      var w, rest := args[0], args[1..];
      FirstWord(text, p, args);
      if |rest| > 0 {
        WordsPlaced(text, p + |w| + 1, rest);
      }
      NamesMore(text, Span(p, p + |w|), PlacedWords(rest, p + |w| + 1));
      assert args == [w] + rest;
    }
  }

  lemma NamesMore(text: string, s: Span, r: seq<Span>)
    requires IsWord(text, s) && forall k :: 0 <= k < |r| ==> IsWord(text, r[k])
    ensures (forall k :: 0 <= k < |[s] + r| ==> IsWord(text, ([s] + r)[k]))
    ensures Names(text, [s] + r) == [text[s.q..s.eq]] + Names(text, r)
  {
    assert ([s] + r)[1..] == r;
  }

  /** parseexec takes one word and what redirections follow it. */
  lemma OneArg(text: string, s: Span, done: seq<Span>)
    requires IsWord(text, s) && |done| + 1 < MAXARGS && Good(text, Exec(done))
    requires ParseRedirs(text, Skip(text, s.eq)).Redirs?
    ensures Good(text, Exec(done + [s]))
    ensures var d := ParseRedirs(text, Skip(text, s.eq));
      ParseArgs(text, s.q, done, []) == ParseArgs(text, d.pos, done + [s], d.list)
  {
    hide ParseRedirs, IsWord;
    WordToken(text, s);
    var d := ParseRedirs(text, Skip(text, s.eq));
    assert [] + d.list == d.list;
  }

  lemma NoMoreArgs(text: string, p: nat, done: seq<Span>, list: seq<Redirection<Span>>)
    requires Follow(text, p) && Good(text, Exec(done)) && GoodList(text, list)
    ensures ParseArgs(text, p, done, list) == Ok(Wrap(Exec(done), list), p)
  {
    Following(text, p);
  }

  /** At a blank before a word there is no redirection. */
  lemma Gap(text: string, p: nat, s: Span)
    requires p < |text| && text[p] == ' ' && s.q == p + 1 && IsWord(text, s)
    ensures Skip(text, p) == p + 1 && ParseRedirs(text, p + 1) == Redirs([], p + 1)
  {
    WordToken(text, s);
  }

  lemma PlacedMore(args: seq<string>, p: nat, done: seq<Span>)
    requires |args| > 0
    ensures var s := Span(p, p + |args[0]|); done + PlacedWords(args, p) == (done + [s])
                                             + PlacedWords(args[1..], s.eq + 1)
  {
    var s := Span(p, p + |args[0]|);
    assert PlacedWords(args, p) == [s] + PlacedWords(args[1..], s.eq + 1);
  }

  lemma PlacedNone(args: seq<string>, p: nat, done: seq<Span>)
    requires |args| == 0
    ensures done + PlacedWords(args, p) == done
  {
  }

  /** The words of an argument list, and the redirections after the last of them, parse to their places. */
  lemma {:induction false} WordsParse(text: string, p: nat, args: seq<string>, done: seq<Span>)
    requires |args| > 0 && LegalWords(args) && Occurs(text, p, PrintWords(args)) && Ends(text, p + |PrintWords(args)|)
    requires |done| + |args| < MAXARGS && Good(text, Exec(done))
    requires var d := ParseRedirs(text, p + |PrintWords(args)|); d.Redirs? && Follow(text, d.pos)
    ensures var d := ParseRedirs(text, p + |PrintWords(args)|);
      ParseArgs(text, p, done, []) == Ok(Wrap(Exec(done + PlacedWords(args, p)), d.list), d.pos)
    decreases |args|
  {
    hide Occurs, IsWord, LegalWords, ParseArgs, Peek, Skip, Good, PlacedWords, ParseRedirs, PrintWords, Wrap, Follow;
    var s, rest := Span(p, p + |args[0]|), args[1..];
    var d := ParseRedirs(text, p + |PrintWords(args)|);
    FirstWord(text, p, args);
    PlacedMore(args, p, done);
    if |rest| == 0 {
      NoSpace(text, s.eq);
      OneArg(text, s, done);
      NoMoreArgs(text, d.pos, done + [s], d.list);
      PlacedNone(rest, s.eq + 1, done + [s]);
    } else {
      FirstWord(text, s.eq + 1, rest);
      Gap(text, s.eq, Span(s.eq + 1, s.eq + 1 + |rest[0]|));
      OneArg(text, s, done);
      WordsParse(text, s.eq + 1, rest, done + [s]);
    }
  }

  lemma NoSpace(text: string, p: nat)
    requires Ends(text, p)
    ensures Skip(text, p) == p
  {
  }

  // ---- Redirections ----

  /** A redirection mark at e and a word after it. */
  lemma MarkToken(text: string, e: nat, m: Mode, s: Span)
    requires Occurs(text, e, Mark(m)) && s.q == e + |Mark(m)| && IsWord(text, s)
    ensures Peek(text, e, "<>") && !Peek(text, e, "(") && GetToken(text, e).2 == s.q
    ensures GetToken(text, e).0 == match m case Read => Symbol('<') case Write => Symbol('>') case Append => Append2
  {
    OccursAt(text, e, Mark(m), 0);
    if m == Append {
      OccursAt(text, e, Mark(m), 1);
    }
    WordToken(text, s);
  }

  lemma MarksEnd(text: string, q: nat, chain: seq<Redirection<string>>)
    requires Occurs(text, q, PrintMarks(chain)) && Follow(text, q + |PrintMarks(chain)|)
    ensures Ends(text, q)
  {
    if |chain| > 0 {
      OccursParts(text, q, Mark(chain[0].mode) + chain[0].file, PrintMarks(chain[1..]));
      OccursParts(text, q, Mark(chain[0].mode), chain[0].file);
      OccursAt(text, q, Mark(chain[0].mode), 0);
    }
  }

  lemma MarksText(chain: seq<Redirection<string>>)
    requires |chain| > 0
    ensures PrintMarks(chain) == (Mark(chain[0].mode) + chain[0].file) + PrintMarks(chain[1..])
    ensures |PrintMarks(chain)| == |Mark(chain[0].mode)| + |chain[0].file| + |PrintMarks(chain[1..])|
  {
  }

  lemma FirstMark(text: string, q: nat, chain: seq<Redirection<string>>)
    requires |chain| > 0 && LegalMarks(chain)
    requires Occurs(text, q, PrintMarks(chain)) && Follow(text, q + |PrintMarks(chain)|)
    ensures var c, rest := chain[0], chain[1..];
      var s := Span(q + |Mark(c.mode)|, q + |Mark(c.mode)| + |c.file|);
      && Occurs(text, q, Mark(c.mode)) && IsWord(text, s) && text[s.q..s.eq] == c.file && Ends(text, s.eq)
      && Occurs(text, s.eq, PrintMarks(rest)) && q + |PrintMarks(chain)| == s.eq + |PrintMarks(rest)|
  {
    hide Occurs, LegalWord, IsWord, PrintMarks, Mark, Follow;
    var c, rest := chain[0], chain[1..];
    MarksText(chain);
    OccursParts(text, q, Mark(c.mode) + c.file, PrintMarks(rest));
    OccursParts(text, q, Mark(c.mode), c.file);
    MarksEnd(text, q + |Mark(c.mode) + c.file|, rest);
    WordThere(text, q + |Mark(c.mode)|, c.file);
  }

  lemma RedirsMore(text: string, q: nat, m: Mode, s: Span)
    requires Occurs(text, q, Mark(m)) && s.q == q + |Mark(m)| && IsWord(text, s) && Ends(text, s.eq)
    requires ParseRedirs(text, s.eq).Redirs?
    ensures var d := ParseRedirs(text, s.eq); ParseRedirs(text, q) == Redirs([Redirection(s, m)] + d.list, d.pos)
  {
    hide Occurs, IsWord, GoodList;
    MarkToken(text, q, m, s);
    WordToken(text, s);
    NoSpace(text, s.eq);
  }

  /** Printed redirections parse to themselves. */
  lemma {:induction false} MarksParse(text: string, q: nat, chain: seq<Redirection<string>>)
    requires LegalMarks(chain) && Occurs(text, q, PrintMarks(chain)) && Follow(text, q + |PrintMarks(chain)|)
    ensures var d := ParseRedirs(text, q);
      d.Redirs? && d.pos == q + |PrintMarks(chain)| && NamedMarks(text, d.list) == chain
    decreases |chain|
  {
    hide Occurs, LegalWord, GetToken, ParseRedirs;
    if |chain| == 0 {
      Following(text, q);
      NoRedirs(text, q);
    } else {
      var c, rest := chain[0], chain[1..];
      var s := Span(q + |Mark(c.mode)|, q + |Mark(c.mode)| + |c.file|);
      FirstMark(text, q, chain);
      MarksParse(text, s.eq, rest);
      RedirsMore(text, q, c.mode, s);
      var list := ParseRedirs(text, s.eq).list;
      assert ([Redirection(s, c.mode)] + list)[1..] == list;
      assert chain == [c] + rest;
    }
  }

  lemma NoRedirs(text: string, p: nat)
    requires p <= |text| && !Peek(text, p, "<>")
    ensures ParseRedirs(text, p) == Redirs([], Skip(text, p))
  {
  }
}
