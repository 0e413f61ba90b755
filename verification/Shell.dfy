/** The parser of user/sh.c as functions on the command line: tokens, and the mutually recursive parse functions, which
    give a tree of words or a panic.  The end of the text is its NUL. */
module Shell {
  const MAXARGS: nat := 10

  predicate IsSpace(c: char) { c == ' ' || c == '\t' || c == '\r' || c == '\n' || c == '\U{B}' }

  predicate IsSymbol(c: char) { c == '<' || c == '|' || c == '>' || c == '&' || c == ';' || c == '(' || c == ')' }

  predicate IsWordChar(c: char) { !IsSpace(c) && !IsSymbol(c) }

  /** What a C string holds before its end. */
  ghost predicate NoNul(text: string) { forall i :: 0 <= i < |text| ==> text[i] != '\0' }

  /** A word of the command line: text[q..eq]. */
  datatype Span = Span(q: nat, eq: nat)

  datatype Mode = Read | Write | Append

  /** A command whose words are W: places in the line, or the words themselves. */
  datatype Cmd<W> =
    | Exec(args: seq<W>)
    | Redir(cmd: Cmd, file: W, mode: Mode)
    | Pipe(left: Cmd, right: Cmd)
    | List(left: Cmd, right: Cmd)
    | Back(cmd: Cmd)

  /** s is a whole word of the text: word characters, and none after them. */
  ghost predicate IsWord(text: string, s: Span) {
    && s.q < s.eq <= |text|
    && (forall i :: s.q <= i < s.eq ==> IsWordChar(text[i]))
    && (s.eq < |text| ==> !IsWordChar(text[s.eq]))
  }

  /** Every word of c is a word of the text, and no command has too many. */
  ghost predicate Good(text: string, c: Cmd<Span>) {
    match c
    case Exec(args) => |args| < MAXARGS && forall k :: 0 <= k < |args| ==> IsWord(text, args[k])
    case Redir(u, f, _) => Good(text, u) && IsWord(text, f)
    case Pipe(l, r) => Good(text, l) && Good(text, r)
    case List(l, r) => Good(text, l) && Good(text, r)
    case Back(u) => Good(text, u)
  }

  ghost predicate GoodList(text: string, list: seq<Redirection<Span>>) {
    forall k :: 0 <= k < |list| ==> IsWord(text, list[k].file)
  }

  // ---- gettoken and peek ----

  /** The first place from p on that is no white space. */
  function Skip(text: string, p: nat): (r: nat)
    requires p <= |text|
    ensures p <= r <= |text| && (r < |text| ==> !IsSpace(text[r])) && forall i :: p <= i < r ==> IsSpace(text[i])
    decreases |text| - p
  {
    if p < |text| && IsSpace(text[p]) then Skip(text, p + 1) else p
  }

  /** The end of the word that p is in. */
  function WordEnd(text: string, p: nat): (r: nat)
    requires p <= |text|
    ensures p <= r <= |text| && (r < |text| ==> !IsWordChar(text[r])) && forall i :: p <= i < r ==> IsWordChar(text[i])
    decreases |text| - p
  {
    if p < |text| && IsWordChar(text[p]) then WordEnd(text, p + 1) else p
  }

  /** What gettoken returns: 0, a symbol, '+' for >>, or 'a' for a word. */
  datatype Token = End | Symbol(c: char) | Append2 | Word

  /** gettoken at p: the token, where it begins and ends, and where the next one begins. */
  function GetToken(text: string, p: nat): (r: (Token, Span, nat))
    requires p <= |text|
    ensures p <= r.1.q <= r.1.eq <= r.2 <= |text| && (r.0 != End ==> r.1.q < r.1.eq)
    ensures r.0 == Word ==> IsWord(text, r.1)
  {
    var q := Skip(text, p);
    if q == |text| then (End, Span(q, q), q)
    else if text[q] == '>' && q + 1 < |text| && text[q + 1] == '>' then (Append2, Span(q, q + 2), Skip(text, q + 2))
    else if IsSymbol(text[q]) then (Symbol(text[q]), Span(q, q + 1), Skip(text, q + 1))
    else var eq := WordEnd(text, q); (Word, Span(q, eq), Skip(text, eq))
  }

  /** peek: is the next character one of toks. */
  predicate Peek(text: string, p: nat, toks: string)
    requires p <= |text|
  {
    Skip(text, p) < |text| && text[Skip(text, p)] in toks
  }

  // ---- The parse functions ----

  datatype Result = Ok(cmd: Cmd<Span>, pos: nat) | Panic

  /** A redirection to be wrapped round a command. */
  datatype Redirection<W> = Redirection(file: W, mode: Mode)

  datatype Redirs = Redirs(list: seq<Redirection<Span>>, pos: nat) | RedirsPanic

  /** parseredirs' loop. */
  function ParseRedirs(text: string, p: nat): (r: Redirs)
    requires p <= |text|
    ensures r.Redirs? ==> p <= r.pos <= |text| && GoodList(text, r.list)
    decreases |text| - p
  {
    if !Peek(text, p, "<>") then Redirs([], Skip(text, p))
    else
      var (tok, _, p1) := GetToken(text, p);
      var (tok2, word, p2) := GetToken(text, p1);
      if tok2 != Word then RedirsPanic
      else
        var mode := if tok == Symbol('<') then Read else if tok == Append2 then Append else Write;
        match ParseRedirs(text, p2)
        case RedirsPanic => RedirsPanic
        case Redirs(rest, p3) => Redirs([Redirection(word, mode)] + rest, p3)
  }

  /** The commands that redircmd builds, the first redirection innermost. */
  function Wrap<W>(cmd: Cmd<W>, list: seq<Redirection<W>>): Cmd<W>
    decreases |list|
  {
    if |list| == 0 then cmd else Redir(Wrap(cmd, list[..|list| - 1]), list[|list| - 1].file, list[|list| - 1].mode)
  }

  lemma {:induction false} WrapGood(text: string, cmd: Cmd<Span>, list: seq<Redirection<Span>>)
    requires Good(text, cmd) && GoodList(text, list)
    ensures Good(text, Wrap(cmd, list))
    decreases |list|
  {
    if list != [] {
      WrapGood(text, cmd, list[..|list| - 1]);
    }
  }

  /** parseexec's loop over words and redirections. */
  function ParseArgs(text: string, p: nat, args: seq<Span>, list: seq<Redirection<Span>>): (r: Result)
    requires p <= |text| && Good(text, Exec(args)) && GoodList(text, list)
    ensures r.Ok? ==> p <= r.pos <= |text| && Good(text, r.cmd)
    decreases |text| - p
  {
    WrapGood(text, Exec(args), list);
    if Peek(text, p, "|)&;") then Ok(Wrap(Exec(args), list), Skip(text, p))
    else
      var (tok, word, p1) := GetToken(text, p);
      if tok == End then Ok(Wrap(Exec(args), list), p1)
      else if tok != Word then Panic
      else if |args| + 1 >= MAXARGS then Panic
      else
        match ParseRedirs(text, p1)
        case RedirsPanic => Panic
        case Redirs(more, p2) => ParseArgs(text, p2, args + [word], list + more)
  }

  function ParseExec(text: string, p: nat): (r: Result)
    requires p <= |text|
    ensures r.Ok? ==> p <= r.pos <= |text| && Good(text, r.cmd)
    decreases |text| - p, 1
  {
    if Peek(text, p, "(") then ParseBlock(text, p)
    else
      match ParseRedirs(text, p)
      case RedirsPanic => Panic
      case Redirs(list, p1) => ParseArgs(text, p1, [], list)
  }

  function ParseBlock(text: string, p: nat): (r: Result)
    requires p <= |text| && Peek(text, p, "(")
    ensures r.Ok? ==> p <= r.pos <= |text| && Good(text, r.cmd)
    decreases |text| - p, 0
  {
    var p1 := GetToken(text, p).2;
    match ParseLine(text, p1)
    case Panic => Panic
    case Ok(cmd, p2) =>
      if !Peek(text, p2, ")") then Panic
      else
        match ParseRedirs(text, GetToken(text, p2).2)
        case RedirsPanic => Panic
        case Redirs(list, p3) => WrapGood(text, cmd, list); Ok(Wrap(cmd, list), p3)
  }

  function ParsePipe(text: string, p: nat): (r: Result)
    requires p <= |text|
    ensures r.Ok? ==> p <= r.pos <= |text| && Good(text, r.cmd)
    decreases |text| - p, 2
  {
    match ParseExec(text, p)
    case Panic => Panic
    case Ok(cmd, p1) =>
      if !Peek(text, p1, "|") then Ok(cmd, Skip(text, p1))
      else
        match ParsePipe(text, GetToken(text, p1).2)
        case Panic => Panic
        case Ok(right, p2) => Ok(Pipe(cmd, right), p2)
  }

  /** parseline's loop over ampersands. */
  function ParseBacks(text: string, p: nat, cmd: Cmd<Span>): (r: (Cmd<Span>, nat))
    requires p <= |text| && Good(text, cmd)
    ensures p <= r.1 <= |text| && Good(text, r.0)
    decreases |text| - p
  {
    if Peek(text, p, "&") then ParseBacks(text, GetToken(text, p).2, Back(cmd)) else (cmd, Skip(text, p))
  }

  function ParseLine(text: string, p: nat): (r: Result)
    requires p <= |text|
    ensures r.Ok? ==> p <= r.pos <= |text| && Good(text, r.cmd)
    decreases |text| - p, 3
  {
    match ParsePipe(text, p)
    case Panic => Panic
    case Ok(cmd, p1) =>
      var (cmd2, p2) := ParseBacks(text, p1, cmd);
      if !Peek(text, p2, ";") then Ok(cmd2, Skip(text, p2))
      else
        match ParseLine(text, GetToken(text, p2).2)
        case Panic => Panic
        case Ok(right, p3) => Ok(List(cmd2, right), p3)
  }

  /** parsecmd without nulterminate: a line and nothing after it. */
  function ParseCmd(text: string): (r: Result)
    ensures r.Ok? ==> Good(text, r.cmd)
  {
    match ParseLine(text, 0)
    case Panic => Panic
    case Ok(cmd, p) => if Skip(text, p) != |text| then Panic else Ok(cmd, |text|)
  }
}
