/** The parser as it runs: a cursor moved along the line, and the line cut into C strings in place. */
module ShellBuffer {
  import opened Shell
  import opened ShellPrint
  import opened ShellText

  class Parser {
    const text: string
    var s: nat

    constructor (text: string)
      ensures this.text == text && s == 0
    {
      this.text := text;
      s := 0;
    }

    /** Moves past white space. */
    method SkipSpace()
      requires s <= |text|
      modifies this
      ensures s == Skip(text, old(s))
    {
      while s < |text| && IsSpace(text[s])
        invariant s <= |text| && Skip(text, s) == Skip(text, old(s))
      {
        s := s + 1;
      }
    }

    method GetToken() returns (tok: Token, word: Span)
      requires s <= |text|
      modifies this
      ensures (tok, word, s) == Shell.GetToken(text, old(s))
    {
      SkipSpace();
      var q := s;
      if s == |text| {
        tok := End;
      } else if IsSymbol(text[s]) {
        tok := Symbol(text[s]);
        s := s + 1;
        if tok == Symbol('>') && s < |text| && text[s] == '>' {
          tok := Append2;
          s := s + 1;
        }
      } else {
        tok := Word;
        while s < |text| && IsWordChar(text[s])
          invariant q <= s <= |text| && WordEnd(text, s) == WordEnd(text, q)
        {
          s := s + 1;
        }
      }
      word := Span(q, s);
      if s < |text| {
        SkipSpace();
      }
    }

    method Peek(toks: string) returns (b: bool)
      requires s <= |text|
      modifies this
      ensures s == Skip(text, old(s)) && b == Shell.Peek(text, old(s), toks)
      ensures b == Shell.Peek(text, s, toks)
    {
      SkipSpace();
      SkipTwice(text, old(s));
      b := s < |text| && text[s] in toks;
    }

    /** parseredirs: the redirections that follow, or a panic when one has no file name. */
    method ParseRedirs() returns (r: Redirs)
      requires s <= |text|
      modifies this
      ensures r == Shell.ParseRedirs(text, old(s)) && (r.Redirs? ==> s == r.pos)
    {
      hide Shell.ParseRedirs, Shell.Peek, Shell.GetToken, Skip;
      var list := [];
      FromSkip(text, s);
      var more := Peek("<>");
      while more
        invariant s <= |text| && more == Shell.Peek(text, s, "<>") && Skip(text, s) == s
        invariant Shell.ParseRedirs(text, old(s)) == After(list, Shell.ParseRedirs(text, s))
        decreases |text| - s
      {
        ghost var was, p := list, s;
        var tok, _ := GetToken();
        var tok2, word := GetToken();
        if tok2 != Word {
          NoWord(text, p);
          return RedirsPanic;
        }
        var mode := if tok == Symbol('<') then Read else if tok == Append2 then Append else Write;
        list := list + [Redirection(word, mode)];
        AfterMore(text, p, was, Redirection(word, mode), s);
        FromSkip(text, s);
        more := Peek("<>");
      }
      NoMore(text, s, list);
      r := Redirs(list, s);
    }

    /** parseexec's loop: words and redirections up to the end of the command. */
    method ParseArgs(first: seq<Redirection<Span>>) returns (r: Result)
      requires s <= |text| && GoodList(text, first)
      modifies this
      ensures r == Shell.ParseArgs(text, old(s), [], first) && (r.Ok? ==> s == r.pos)
    {
      hide Shell.ParseArgs, Shell.ParseRedirs, Shell.Peek, Shell.GetToken, Skip, IsWord;
      var args, list := [], first;
      var stop := Peek("|)&;");
      ArgsFromSkip(text, old(s), args, list);
      while !stop
        invariant s <= |text| && stop == Shell.Peek(text, s, "|)&;") && Skip(text, s) == s
        invariant Good(text, Exec(args)) && GoodList(text, list)
        invariant Shell.ParseArgs(text, old(s), [], first) == Shell.ParseArgs(text, s, args, list)
        decreases |text| - s
      {
        ArgsTurn(text, s, args, list);
        var tok, word := GetToken();
        if tok == End {
          return Ok(Wrap(Exec(args), list), s);
        }
        if tok != Word || |args| + 1 >= MAXARGS {
          return Panic;
        }
        args := args + [word];
        var more := ParseRedirs();
        if more == RedirsPanic {
          return Panic;
        }
        list := list + more.list;
        ArgsFromSkip(text, s, args, list);
        stop := Peek("|)&;");
      }
      ArgsTurn(text, s, args, list);
      r := Ok(Wrap(Exec(args), list), s);
    }

    method ParseExec() returns (r: Result)
      requires s <= |text|
      modifies this
      ensures r == Shell.ParseExec(text, old(s)) && (r.Ok? ==> s == r.pos)
      decreases |text| - s, 1
    {
      hide Shell.ParseArgs, Shell.ParseRedirs, Shell.ParseBlock, Shell.Peek, Shell.GetToken, Skip, Good;
      FromSkip(text, s);
      if Shell.Peek(text, s, "(") {
        BlockFromSkip(text, s);
      }
      var block := Peek("(");
      if block {
        r := ParseBlock();
      } else {
        var first := ParseRedirs();
        if first == RedirsPanic {
          return Panic;
        }
        r := ParseArgs(first.list);
      }
    }

    method ParseBlock() returns (r: Result)
      requires s <= |text| && Shell.Peek(text, s, "(")
      modifies this
      ensures r == Shell.ParseBlock(text, old(s)) && (r.Ok? ==> s == r.pos)
      decreases |text| - s, 0
    {
      hide Shell.ParseRedirs, Shell.ParseLine, Shell.Peek, Skip, Shell.GetToken, Good;
      Advances(text, s);
      var _, _ := GetToken();
      r := ParseLine();
      if r == Panic {
        return;
      }
      TokenFromSkip(text, s);
      var closed := Peek(")");
      if !closed {
        return Panic;
      }
      var _, _ := GetToken();
      var list := ParseRedirs();
      if list == RedirsPanic {
        return Panic;
      }
      r := Ok(Wrap(r.cmd, list.list), s);
    }

    method ParsePipe() returns (r: Result)
      requires s <= |text|
      modifies this
      ensures r == Shell.ParsePipe(text, old(s)) && (r.Ok? ==> s == r.pos)
      decreases |text| - s, 2
    {
      hide Shell.ParseExec, Shell.Peek, Skip, Shell.GetToken, Good;
      r := ParseExec();
      if r == Panic {
        return;
      }
      TokenFromSkip(text, s);
      Advances(text, s);
      var bar := Peek("|");
      if !bar {
        return Ok(r.cmd, s);
      }
      var _, _ := GetToken();
      var right := ParsePipe();
      r := if right == Panic then Panic else Ok(Pipe(r.cmd, right.cmd), s);
    }

    method ParseLine() returns (r: Result)
      requires s <= |text|
      modifies this
      ensures r == Shell.ParseLine(text, old(s)) && (r.Ok? ==> s == r.pos)
      decreases |text| - s, 3
    {
      hide Shell.ParsePipe, Shell.Peek, Skip, Shell.GetToken, Good, ParseBacks;
      r := ParsePipe();
      if r == Panic {
        return;
      }
      var cmd := ParseAmpersands(r.cmd);
      TokenFromSkip(text, s);
      Advances(text, s);
      var semicolon := Peek(";");
      if !semicolon {
        return Ok(cmd, s);
      }
      var _, _ := GetToken();
      var right := ParseLine();
      r := if right == Panic then Panic else Ok(List(cmd, right.cmd), s);
    }

    /** parseline's loop. */
    method ParseAmpersands(c: Cmd<Span>) returns (cmd: Cmd<Span>)
      requires s <= |text| && Good(text, c)
      modifies this
      ensures (cmd, s) == ParseBacks(text, old(s), c)
    {
      hide Shell.GetToken, Shell.Peek, Skip, Good, ParseBacks;
      cmd := c;
      BacksTurn(text, s, cmd);
      var more := Peek("&");
      while more
        invariant s <= |text| && more == Shell.Peek(text, s, "&") && Skip(text, s) == s && Good(text, cmd)
        invariant ParseBacks(text, old(s), c) == ParseBacks(text, s, cmd)
        decreases |text| - s
      {
        BacksTurn(text, s, cmd);
        var _, _ := GetToken();
        cmd := Back(cmd);
        BacksTurn(text, s, cmd);
        more := Peek("&");
      }
      BacksTurn(text, s, cmd);
    }
  }

  // ---- What each turn of a loop leaves to be done ----

  /** The redirections already found, before those still to come. */
  function After(list: seq<Redirection<Span>>, rest: Redirs): Redirs {
    match rest
    case RedirsPanic => RedirsPanic
    case Redirs(more, p) => Redirs(list + more, p)
  }

  lemma FromSkip(text: string, p: nat)
    requires p <= |text|
    ensures Skip(text, Skip(text, p)) == Skip(text, p)
    ensures Shell.ParseRedirs(text, Skip(text, p)) == Shell.ParseRedirs(text, p)
    ensures Shell.ParseRedirs(text, p) == After([], Shell.ParseRedirs(text, p))
  {
    hide Shell.ParseRedirs, Skip;
    SkipTwice(text, p);
    RedirsFromSkip(text, p);
  }

  lemma ArgsFromSkip(text: string, p: nat, args: seq<Span>, list: seq<Redirection<Span>>)
    requires p <= |text| && Good(text, Exec(args)) && GoodList(text, list)
    ensures Skip(text, Skip(text, p)) == Skip(text, p)
    ensures Shell.ParseArgs(text, Skip(text, p), args, list) == Shell.ParseArgs(text, p, args, list)
  {
    hide Shell.GetToken, Skip, Shell.Peek, GoodList, Shell.ParseRedirs;
    TokenFromSkip(text, p);
  }

  /** A token that is there moves the cursor. */
  lemma Advances(text: string, p: nat)
    requires p <= |text|
    ensures Skip(text, p) < |text| ==> p < Shell.GetToken(text, p).2
    ensures forall toks :: Shell.Peek(text, p, toks) ==> Skip(text, p) < |text|
  {
  }

  /** One turn of parseline's loop. */
  lemma BacksTurn(text: string, p: nat, cmd: Cmd<Span>)
    requires p <= |text| && Good(text, cmd)
    ensures Good(text, Back(cmd)) && Skip(text, Skip(text, p)) == Skip(text, p)
    ensures ParseBacks(text, Skip(text, p), cmd) == ParseBacks(text, p, cmd)
    ensures Shell.Peek(text, p, "&") ==>
      var p1 := Shell.GetToken(text, p).2; p < p1 <= |text|
                                           && ParseBacks(text, p, cmd) == ParseBacks(text, p1, Back(cmd))
    ensures !Shell.Peek(text, p, "&") ==> ParseBacks(text, p, cmd) == (cmd, Skip(text, p))
  {
    hide Shell.GetToken, Shell.Peek, Skip, IsWord;
    TokenFromSkip(text, p);
    Advances(text, p);
  }

  /** One turn of parseexec's loop. */
  lemma ArgsTurn(text: string, p: nat, args: seq<Span>, list: seq<Redirection<Span>>)
    requires p <= |text| && Good(text, Exec(args)) && GoodList(text, list)
    ensures var (tok, word, p1) := Shell.GetToken(text, p);
      var r := Shell.ParseArgs(text, p, args, list);
      if Shell.Peek(text, p, "|)&;") then r == Ok(Wrap(Exec(args), list), Skip(text, p))
      else if tok == End then r == Ok(Wrap(Exec(args), list), p1)
      else if tok != Word || |args| + 1 >= MAXARGS then r == Panic
      else
        && p < p1 <= |text| && Good(text, Exec(args + [word]))
        && var d := Shell.ParseRedirs(text, p1);
          if d == RedirsPanic then r == Panic
          else GoodList(text, list + d.list) && r == Shell.ParseArgs(text, d.pos, args + [word], list + d.list)
  {
    hide Shell.GetToken, Skip, Shell.Peek, Shell.ParseRedirs;
  }

  lemma NoWord(text: string, p: nat)
    requires p <= |text| && Shell.Peek(text, p, "<>")
    requires Shell.GetToken(text, Shell.GetToken(text, p).2).0 != Word
    ensures Shell.ParseRedirs(text, p) == RedirsPanic
  {
  }

  lemma NoMore(text: string, p: nat, list: seq<Redirection<Span>>)
    requires p <= |text| && !Shell.Peek(text, p, "<>") && Skip(text, p) == p
    ensures After(list, Shell.ParseRedirs(text, p)) == Redirs(list, p)
  {
    assert list + [] == list;
  }

  lemma AfterMore(text: string, p: nat, list: seq<Redirection<Span>>, x: Redirection<Span>, q: nat)
    requires p <= |text| && Shell.Peek(text, p, "<>")
    requires var (tok, _, p1) := Shell.GetToken(text, p);
      var (tok2, word, p2) := Shell.GetToken(text, p1);
      tok2 == Word && q == p2
          && x == Redirection(word, if tok == Symbol('<') then Read else if tok == Append2 then Append else Write)
    ensures q <= |text| && After(list, Shell.ParseRedirs(text, p)) == After(list + [x], Shell.ParseRedirs(text, q))
  {
    hide Shell.GetToken, Shell.Peek, GoodList;
    if Shell.ParseRedirs(text, q).Redirs? {
      var more := Shell.ParseRedirs(text, q).list;
      assert list + ([x] + more) == (list + [x]) + more;
    }
  }
}
