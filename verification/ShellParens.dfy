/** The parentheses of the shell's command lines (user/sh.c): no text of a command has fewer than the one that Print
    gives. */
module ShellParens {
  import opened Shell
  import opened ShellText

  // ---- The parentheses of a text ----

  /** How many opening parentheses there are. */
  function Opened(s: string): nat {
    if s == "" then 0 else (if s[0] == '(' then 1 else 0) + Opened(s[1..])
  }

  lemma {:induction false} OpenedConcat(a: string, b: string)
    ensures Opened(a + b) == Opened(a) + Opened(b)
    decreases |a|
  {
    if a == "" {
      assert a + b == b;
    } else {
      OpenedConcat(a[1..], b);
      assert (a + b)[1..] == a[1..] + b;
    }
  }

  lemma OpenedParts(text: string, p: nat, q: nat, r: nat)
    requires p <= q <= r <= |text|
    ensures Opened(text[p..r]) == Opened(text[p..q]) + Opened(text[q..r])
  {
    assert text[p..r] == text[p..q] + text[q..r];
    OpenedConcat(text[p..q], text[q..r]);
  }

  lemma OpenedOne(text: string, p: nat, q: nat, r: nat)
    requires p <= q < r <= |text| && text[q] == '('
    ensures Opened(text[p..r]) >= 1
  {
    OpenedParts(text, p, q, r);
    assert text[q..r][0] == '(';
  }

  // ---- The parentheses that a command needs ----

  /** The pairs that Print puts, for a command as parseline, its loop over ampersands, parsepipe and parseexec read
      it. */
  function InLine<W>(t: Cmd<W>): nat
    decreases t, 4
  {
    if t.List? then InBacks(t.left) + InLine(t.right) else InBacks(t)
  }

  function InBacks<W>(t: Cmd<W>): nat
    decreases t, if t.List? then 8 else 3
  {
    if t.Back? then InBacks(t.cmd) else InPipe(t)
  }

  function InPipe<W>(t: Cmd<W>): nat
    decreases t, if t.List? || t.Back? then 7 else 2
  {
    if t.Pipe? then InExec(t.left) + InPipe(t.right) else InExec(t)
  }

  function InExec<W>(t: Cmd<W>): nat
    decreases t, if t.Exec? || t.Redir? then 1 else 6
  {
    if t.Exec? then 0 else if t.Redir? then InExec(t.cmd) else 1 + InLine(t)
  }

  /** What binds tighter needs no fewer, and one pair is always enough. */
  lemma Levels<W>(t: Cmd<W>)
    ensures InLine(t) <= InBacks(t) <= InPipe(t) <= InExec(t) <= 1 + InLine(t)
  {
  }

  lemma {:induction false} InWrap<W>(t: Cmd<W>, list: seq<Redirection<W>>)
    ensures InExec(Wrap(t, list)) == InExec(t)
    decreases |list|
  {
    if |list| > 0 {
      InWrap(t, list[..|list| - 1]);
    }
  }

  // ---- The parser needs them all ----

  lemma {:induction false} ArgsNeed(text: string, p: nat, args: seq<Span>, list: seq<Redirection<Span>>)
    requires p <= |text| && Good(text, Exec(args)) && GoodList(text, list)
    ensures var r := ParseArgs(text, p, args, list); r.Ok? ==> InExec(r.cmd) == 0
    decreases |text| - p
  {
    InWrap(Exec(args), list);
    if ParseArgs(text, p, args, list).Ok? && !Peek(text, p, "|)&;") {
      var (tok, word, p1) := GetToken(text, p);
      if tok == Word {
        var d := ParseRedirs(text, p1);
        ArgsNeed(text, d.pos, args + [word], list + d.list);
      }
    }
  }

  /** A command that parseexec reads from part of the text. */
  lemma {:induction false} ExecNeeds(text: string, p: nat)
    requires p <= |text|
    ensures var r := ParseExec(text, p); r.Ok? ==> InExec(r.cmd) <= Opened(text[p..r.pos])
    decreases |text| - p, 1
  {
    if Peek(text, p, "(") {
      BlockNeeds(text, p);
    } else {
      var d := ParseRedirs(text, p);
      if d.Redirs? { ArgsNeed(text, d.pos, [], d.list); }
    }
  }

  lemma {:induction false} BlockNeeds(text: string, p: nat)
    requires p <= |text| && Peek(text, p, "(")
    ensures var r := ParseBlock(text, p); r.Ok? ==> InExec(r.cmd) <= Opened(text[p..r.pos])
    decreases |text| - p, 0
  {
    var r, p1 := ParseBlock(text, p), GetToken(text, p).2;
    if r.Ok? {
      LineNeeds(text, p1);
      var line := ParseLine(text, p1);
      Levels(line.cmd);
      InWrap(line.cmd, ParseRedirs(text, GetToken(text, line.pos).2).list);
      OpenedOne(text, p, Skip(text, p), p1);
      OpenedParts(text, p, p1, r.pos);
      OpenedParts(text, p1, line.pos, r.pos);
    }
  }

  lemma {:induction false} PipeNeeds(text: string, p: nat)
    requires p <= |text|
    ensures var r := ParsePipe(text, p); r.Ok? ==> InPipe(r.cmd) <= Opened(text[p..r.pos])
    decreases |text| - p, 2
  {
    var r, one := ParsePipe(text, p), ParseExec(text, p);
    if r.Ok? {
      ExecNeeds(text, p);
      Levels(one.cmd);
      OpenedParts(text, p, one.pos, r.pos);
      if Peek(text, one.pos, "|") {
        var p1 := GetToken(text, one.pos).2;
        PipeNeeds(text, p1);
        OpenedParts(text, one.pos, p1, r.pos);
      }
    }
  }

  lemma {:induction false} BacksNeed(text: string, p: nat, cmd: Cmd<Span>)
    requires p <= |text| && Good(text, cmd)
    ensures InBacks(ParseBacks(text, p, cmd).0) == InBacks(cmd)
    decreases |text| - p
  {
    if Peek(text, p, "&") {
      BacksNeed(text, GetToken(text, p).2, Back(cmd));
    }
  }

  lemma {:induction false} LineNeeds(text: string, p: nat)
    requires p <= |text|
    ensures var r := ParseLine(text, p); r.Ok? ==> InLine(r.cmd) <= Opened(text[p..r.pos])
    decreases |text| - p, 3
  {
    var r, one := ParseLine(text, p), ParsePipe(text, p);
    if r.Ok? {
      PipeNeeds(text, p);
      var (cmd, p2) := ParseBacks(text, one.pos, one.cmd);
      BacksNeed(text, one.pos, one.cmd);
      Levels(one.cmd);
      Levels(cmd);
      OpenedParts(text, p, one.pos, r.pos);
      if Peek(text, p2, ";") {
        var p3 := GetToken(text, p2).2;
        LineNeeds(text, p3);
        OpenedParts(text, one.pos, p3, r.pos);
      }
    }
  }

  // ---- Print puts no more ----

  lemma {:induction false} NamedNeeds(text: string, c: Cmd<Span>)
    requires Good(text, c)
    ensures InLine(Named(text, c)) == InLine(c) && InBacks(Named(text, c)) == InBacks(c)
    ensures InPipe(Named(text, c)) == InPipe(c) && InExec(Named(text, c)) == InExec(c)
  {
    if c.Redir? {
      NamedNeeds(text, c.cmd);
    } else if c.Pipe? || c.List? {
      NamedNeeds(text, c.left);
      NamedNeeds(text, c.right);
    } else if c.Back? {
      NamedNeeds(text, c.cmd);
    }
    var t := Named(text, c);
    if c.Pipe? { assert InPipe(t) == InPipe(c); }
    if c.Pipe? || c.Back? { assert InBacks(t) == InBacks(c); }
    if !c.Exec? && !c.Redir? { assert InLine(t) == InLine(c); }
    assert InExec(t) == InExec(c);
    assert InPipe(t) == InPipe(c);
    assert InBacks(t) == InBacks(c);
  }

  lemma {:induction false} WordOpens(w: string)
    requires forall i :: 0 <= i < |w| ==> IsWordChar(w[i])
    ensures Opened(w) == 0
    decreases |w|
  {
    if w != "" { WordOpens(w[1..]); }
  }

  lemma {:induction false} WordsOpen(args: seq<string>)
    requires LegalWords(args)
    ensures Opened(PrintWords(args)) == 0
    decreases |args|
  {
    if |args| > 0 {
      WordOpens(args[0]);
      WordsOpen(args[1..]);
      OpenedConcat(args[0], " ");
      OpenedConcat(args[0] + " ", PrintWords(args[1..]));
    }
  }

  lemma {:induction false} MarksOpen(chain: seq<Redirection<string>>)
    requires LegalMarks(chain)
    ensures Opened(PrintMarks(chain)) == 0
    decreases |chain|
  {
    if |chain| > 0 {
      WordOpens(chain[0].file);
      MarksOpen(chain[1..]);
      OpenedConcat(Mark(chain[0].mode), chain[0].file);
      OpenedConcat(Mark(chain[0].mode) + chain[0].file, PrintMarks(chain[1..]));
    }
  }

  lemma {:induction false} CoreNeeds(t: Cmd<string>)
    ensures InExec(t) == InExec(Core(t))
  {
    if t.Redir? { CoreNeeds(t.cmd); }
  }

  lemma {:induction false} LineOpens(t: Cmd<string>)
    requires Legal(t)
    ensures Opened(Print(t)) == InLine(t)
    decreases t, 4
  {
    if t.List? {
      BacksOpen(t.left);
      LineOpens(t.right);
      OpenedConcat(PrintBacks(t.left), ";");
      OpenedConcat(PrintBacks(t.left) + ";", Print(t.right));
    } else {
      BacksOpen(t);
    }
  }

  lemma {:induction false} BacksOpen(t: Cmd<string>)
    requires Legal(t)
    ensures Opened(PrintBacks(t)) == InBacks(t)
    decreases t, if t.List? then 8 else 3
  {
    if t.Back? {
      BacksOpen(t.cmd);
      OpenedConcat(PrintBacks(t.cmd), "&");
    } else {
      PipeOpens(t);
    }
  }

  lemma {:induction false} PipeOpens(t: Cmd<string>)
    requires Legal(t)
    ensures Opened(PrintPipe(t)) == InPipe(t)
    decreases t, if t.List? || t.Back? then 7 else 2
  {
    if t.Pipe? {
      ExecOpens(t.left);
      PipeOpens(t.right);
      OpenedConcat(PrintExec(t.left), "|");
      OpenedConcat(PrintExec(t.left) + "|", PrintPipe(t.right));
    } else {
      ExecOpens(t);
    }
  }

  lemma {:induction false} ExecOpens(t: Cmd<string>)
    requires Legal(t)
    ensures Opened(PrintExec(t)) == InExec(t)
    decreases t, if t.Exec? || t.Redir? then 1 else 6
  {
    CoreChain(t);
    CoreNeeds(t);
    CoreOpens(Core(t));
    MarksOpen(Chain(t));
    OpenedConcat(PrintCore(Core(t)), PrintMarks(Chain(t)));
  }

  lemma {:induction false} CoreOpens(t: Cmd<string>)
    requires Legal(t) && !t.Redir?
    ensures Opened(PrintCore(t)) == InExec(t)
    decreases t, if t.Exec? then 0 else 5
  {
    if t.Exec? {
      WordsOpen(t.args);
    } else {
      LineOpens(t);
      OpenedConcat("(", Print(t));
      OpenedConcat("(" + Print(t), ")");
    }
  }

  /** Print is thrifty: whatever text parses to a command, it has at least as many parentheses as the text printed for
      that command. */
  lemma FewestParentheses(text: string)
    requires NoNul(text) && ParseCmd(text).Ok?
    ensures Opened(Print(Named(text, ParseCmd(text).cmd))) <= Opened(text)
  {
    var line := ParseLine(text, 0);
    LineNeeds(text, 0);
    OpenedParts(text, 0, line.pos, |text|);
    assert text[0..|text|] == text;
    NamedNeeds(text, line.cmd);
    NamedLegal(text, line.cmd);
    LineOpens(Named(text, line.cmd));
  }
}
