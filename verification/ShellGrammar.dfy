/** The grammar of command lines, over the tokens of a line, and the parser against it: a text parses to a command if
    and only if its tokens derive that command. */
module ShellGrammar {
  import opened Shell
  import opened ShellText

  // ---- Tokens as values ----

  datatype Lexeme = Sign(c: char) | GtGt | Name(w: string)

  function LexemeOf(text: string, tok: Token, s: Span): Lexeme
    requires s.q <= s.eq <= |text|
  {
    match tok case Symbol(c) => Sign(c) case Append2 => GtGt case _ => Name(text[s.q..s.eq])
  }

  /** The tokens of the text from p on. */
  function Lexemes(text: string, p: nat): seq<Lexeme>
    requires p <= |text|
    decreases |text| - p
  {
    var (tok, s, p1) := GetToken(text, p);
    if tok == End then [] else [LexemeOf(text, tok, s)] + Lexemes(text, p1)
  }

  // ---- The grammar ----

  /** A word or a redirection of a simple command. */
  datatype Item = Arg(w: string) | Mark(r: Redirection<string>)

  /** line: pipe '&'* or pipe '&'* ';' line. pipe: exec or exec '|' pipe. exec: words and redirections in any order,
      or '(' line ')' and redirections. */
  datatype Line = One(pipe: Piped, amps: nat) | Two(pipe: Piped, amps: nat, next: Line)
  datatype Piped = Last(exec: Atom) | Then(exec: Atom, rest: Piped)
  datatype Atom = Simple(items: seq<Item>) | Block(line: Line, marks: seq<Redirection<string>>)

  // The tokens that a derivation spells out.

  function MarkTokens(r: Redirection<string>): seq<Lexeme> {
    [match r.mode case Read => Sign('<') case Write => Sign('>') case Append => GtGt, Name(r.file)]
  }

  function MarksTokens(marks: seq<Redirection<string>>): seq<Lexeme> {
    if marks == [] then [] else MarkTokens(marks[0]) + MarksTokens(marks[1..])
  }

  function ItemTokens(i: Item): seq<Lexeme> { match i case Arg(w) => [Name(w)] case Mark(r) => MarkTokens(r) }

  function ItemsTokens(items: seq<Item>): seq<Lexeme> {
    if items == [] then [] else ItemTokens(items[0]) + ItemsTokens(items[1..])
  }

  function AmpsTokens(n: nat): seq<Lexeme> { if n == 0 then [] else [Sign('&')] + AmpsTokens(n - 1) }

  function AtomTokens(d: Atom): seq<Lexeme> {
    match d
    case Simple(items) => ItemsTokens(items)
    case Block(line, marks) => [Sign('(')] + LineTokens(line) + [Sign(')')] + MarksTokens(marks)
  }

  function PipeTokens(d: Piped): seq<Lexeme> {
    match d
    case Last(a) => AtomTokens(a)
    case Then(a, rest) => AtomTokens(a) + [Sign('|')] + PipeTokens(rest)
  }

  function LineTokens(d: Line): seq<Lexeme> {
    match d
    case One(pipe, n) => PipeTokens(pipe) + AmpsTokens(n)
    case Two(pipe, n, next) => PipeTokens(pipe) + AmpsTokens(n) + [Sign(';')] + LineTokens(next)
  }

  // The command that a derivation stands for.

  function ArgOf(i: Item): seq<string> { if i.Arg? then [i.w] else [] }

  function Args(items: seq<Item>): seq<string> {
    if items == [] then [] else ArgOf(items[0]) + Args(items[1..])
  }

  function MarkOf(i: Item): seq<Redirection<string>> { if i.Mark? then [i.r] else [] }

  function Marks(items: seq<Item>): seq<Redirection<string>> {
    if items == [] then [] else MarkOf(items[0]) + Marks(items[1..])
  }

  function Backs(t: Cmd<string>, n: nat): Cmd<string> { if n == 0 then t else Back(Backs(t, n - 1)) }

  function AtomTree(d: Atom): Cmd<string> {
    match d
    case Simple(items) => Wrap(Exec(Args(items)), Marks(items))
    case Block(line, marks) => Wrap(LineTree(line), marks)
  }

  function PipeTree(d: Piped): Cmd<string> {
    match d
    case Last(a) => AtomTree(a)
    case Then(a, rest) => Pipe(AtomTree(a), PipeTree(rest))
  }

  function LineTree(d: Line): Cmd<string> {
    match d
    case One(pipe, n) => Backs(PipeTree(pipe), n)
    case Two(pipe, n, next) => List(Backs(PipeTree(pipe), n), LineTree(next))
  }

  // No simple command has too many words.

  predicate AtomFits(d: Atom) {
    match d case Simple(items) => |Args(items)| < MAXARGS case Block(line, _) => LineFits(line)
  }

  predicate PipeFits(d: Piped) {
    match d case Last(a) => AtomFits(a) case Then(a, rest) => AtomFits(a) && PipeFits(rest)
  }

  predicate LineFits(d: Line) {
    match d case One(pipe, _) => PipeFits(pipe) case Two(pipe, _, next) => PipeFits(pipe) && LineFits(next)
  }

  // ---- What peek and gettoken see of the tokens ----

  lemma NextToken(text: string, p: nat)
    requires p <= |text|
    ensures var (tok, s, p1) := GetToken(text, p);
      && (tok == End <==> Lexemes(text, p) == [])
      && (tok != End ==> Lexemes(text, p) == [LexemeOf(text, tok, s)] + Lexemes(text, p1))
  {
  }

  ghost predicate StartsWith(a: seq<Lexeme>, toks: string) {
    a != [] && ((a[0].Sign? && a[0].c in toks) || (a[0].GtGt? && '>' in toks))
  }

  lemma Peeks(text: string, p: nat, toks: string)
    requires p <= |text| && forall c :: c in toks ==> IsSymbol(c)
    ensures Peek(text, p, toks) <==> StartsWith(Lexemes(text, p), toks)
  {
  }

  lemma SkipSame(text: string, p: nat)
    requires p <= |text|
    ensures Lexemes(text, Skip(text, p)) == Lexemes(text, p)
  {
    hide GetToken, Skip;
    TokenFromSkip(text, p);
  }

  /** These tokens lead from p to q. */
  ghost predicate Reads(text: string, p: nat, toks: seq<Lexeme>, q: nat) {
    p <= |text| && q <= |text| && Lexemes(text, p) == toks + Lexemes(text, q)
  }

  lemma ReadsThen(text: string, p: nat, a: seq<Lexeme>, q: nat, b: seq<Lexeme>, r: nat)
    requires Reads(text, p, a, q) && Reads(text, q, b, r)
    ensures Reads(text, p, a + b, r)
  {
  }

  lemma ReadsNothing(text: string, p: nat)
    requires p <= |text|
    ensures Reads(text, p, [], Skip(text, p))
  {
    SkipSame(text, p);
  }

  /** A sign that peek sees. */
  lemma ReadsSign(text: string, p: nat, c: char)
    requires p <= |text| && IsSymbol(c) && c != '>' && Peek(text, p, [c])
    ensures Reads(text, p, [Sign(c)], GetToken(text, p).2)
  {
    NextToken(text, p);
  }

  lemma {:induction false} BacksTurn(t: Cmd<string>, n: nat)
    ensures Backs(Back(t), n) == Back(Backs(t, n))
  {
    if n > 0 { BacksTurn(t, n - 1); }
  }

  lemma {:induction false} TokensJoin(a: seq<Item>, b: seq<Item>)
    ensures ItemsTokens(a + b) == ItemsTokens(a) + ItemsTokens(b)
  {
    hide ItemTokens;
    if a == [] {
      assert a + b == b;
    } else {
      assert (a + b)[1..] == a[1..] + b;
      TokensJoin(a[1..], b);
      assert ItemTokens(a[0]) + (ItemsTokens(a[1..]) + ItemsTokens(b)) == ItemTokens(a[0]) + ItemsTokens(a[1..])
          + ItemsTokens(b);
    }
  }

  lemma {:induction false} ArgsJoin(a: seq<Item>, b: seq<Item>)
    ensures Args(a + b) == Args(a) + Args(b)
  {
    hide ArgOf;
    if a == [] {
      assert a + b == b;
    } else {
      assert (a + b)[1..] == a[1..] + b;
      ArgsJoin(a[1..], b);
      assert ArgOf(a[0]) + (Args(a[1..]) + Args(b)) == ArgOf(a[0]) + Args(a[1..]) + Args(b);
    }
  }

  lemma {:induction false} RedirsJoin(a: seq<Item>, b: seq<Item>)
    ensures Marks(a + b) == Marks(a) + Marks(b)
  {
    hide MarkOf;
    if a == [] {
      assert a + b == b;
    } else {
      assert (a + b)[1..] == a[1..] + b;
      RedirsJoin(a[1..], b);
      assert MarkOf(a[0]) + (Marks(a[1..]) + Marks(b)) == MarkOf(a[0]) + Marks(a[1..]) + Marks(b);
    }
  }

  lemma ItemsJoin(a: seq<Item>, b: seq<Item>)
    ensures ItemsTokens(a + b) == ItemsTokens(a) + ItemsTokens(b)
    ensures Args(a + b) == Args(a) + Args(b) && Marks(a + b) == Marks(a) + Marks(b)
  {
    TokensJoin(a, b);
    ArgsJoin(a, b);
    RedirsJoin(a, b);
  }

  /** Redirections as items. */
  function Items(marks: seq<Redirection<string>>): (r: seq<Item>)
    ensures |r| == |marks| && forall k :: 0 <= k < |marks| ==> r[k] == Mark(marks[k])
  {
    if marks == [] then [] else [Mark(marks[0])] + Items(marks[1..])
  }

  lemma {:induction false} ItemsOfMarks(marks: seq<Redirection<string>>)
    ensures ItemsTokens(Items(marks)) == MarksTokens(marks) && Args(Items(marks)) == [] && Marks(Items(marks)) == marks
  {
    if marks != [] { ItemsOfMarks(marks[1..]); }
  }

  /** A word, redirections, and more. */
  lemma ItemsFrom(w: string, marks: seq<Redirection<string>>, more: seq<Item>)
    ensures var items := [Arg(w)] + Items(marks) + more;
      && ItemsTokens(items) == [Name(w)] + MarksTokens(marks) + ItemsTokens(more)
      && Args(items) == [w] + Args(more) && Marks(items) == marks + Marks(more)
  {
    hide ItemsTokens, Args, Marks, Items, MarksTokens;
    var items := [Arg(w)] + Items(marks) + more;
    FromHead(items);
    assert items[1..] == Items(marks) + more;
    ItemsJoin(Items(marks), more);
    ItemsOfMarks(marks);
    assert [] + Args(more) == Args(more);
    assert [Name(w)] + (MarksTokens(marks) + ItemsTokens(more)) == [Name(w)] + MarksTokens(marks) + ItemsTokens(more);
  }

  lemma FromHead(items: seq<Item>)
    requires items != [] && items[0].Arg?
    ensures ItemsTokens(items) == [Name(items[0].w)] + ItemsTokens(items[1..])
    ensures Args(items) == [items[0].w] + Args(items[1..]) && Marks(items) == Marks(items[1..])
  {
    assert [] + Marks(items[1..]) == Marks(items[1..]);
  }

  lemma NamesJoin(text: string, a: seq<Span>, s: Span)
    requires IsWord(text, s) && forall k :: 0 <= k < |a| ==> IsWord(text, a[k])
    ensures Names(text, a + [s]) == Names(text, a) + [text[s.q..s.eq]]
  {
    hide IsWord;
    assert forall k :: 0 <= k < |a + [s]| ==> IsWord(text, (a + [s])[k]);
  }

  lemma MarksJoin(text: string, a: seq<Redirection<Span>>, b: seq<Redirection<Span>>)
    requires GoodList(text, a) && GoodList(text, b)
    ensures GoodList(text, a + b) && NamedMarks(text, a + b) == NamedMarks(text, a) + NamedMarks(text, b)
  {
    hide IsWord;
    assert GoodList(text, a + b);
  }
}
