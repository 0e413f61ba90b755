/** nulterminate: the line is cut in place, and every word of the command then reads as the C string it was. */
module ShellStrings {
  import opened Shell
  import opened ShellText
  import opened ShellBuffer

  /** Where the words of a command end. */
  ghost predicate IsEnd(c: Cmd<Span>, i: int) {
    match c
    case Exec(args) => exists k :: 0 <= k < |args| && args[k].eq == i
    case Redir(u, f, _) => IsEnd(u, i) || i == f.eq
    case Pipe(l, r) => IsEnd(l, i) || IsEnd(r, i)
    case List(l, r) => IsEnd(l, i) || IsEnd(r, i)
    case Back(u) => IsEnd(u, i)
  }

  /** after is before with a NUL at the end of each word of c, and nowhere else. */
  ghost predicate Cut(before: string, after: string, c: Cmd<Span>) {
    && |after| == |before|
    && forall i :: 0 <= i < |before| ==> after[i] == if IsEnd(c, i) then '\0' else before[i]
  }

  /** The C string at q is w. */
  ghost predicate ReadsAs(b: string, q: nat, w: string) {
    q + |w| < |b| && b[q..q + |w|] == w && NoNul(w) && b[q + |w|] == '\0'
  }

  /** Every word of c reads as the word of t in its place. */
  ghost predicate CommandReads(b: string, c: Cmd<Span>, t: Cmd<string>) {
    match (c, t)
    case (Exec(args), Exec(words)) => |args| == |words| && forall k :: 0 <= k < |args| ==>
          ReadsAs(b, args[k].q, words[k])
    case (Redir(u, f, m), Redir(v, w, n)) => CommandReads(b, u, v) && ReadsAs(b, f.q, w) && m == n
    case (Pipe(l, r), Pipe(v, w)) => CommandReads(b, l, v) && CommandReads(b, r, w)
    case (List(l, r), List(v, w)) => CommandReads(b, l, v) && CommandReads(b, r, w)
    case (Back(u), Back(v)) => CommandReads(b, u, v)
    case _ => false
  }

  /** No word of the text is cut: the end of one is never inside another. */
  lemma {:induction false} EndsOutside(text: string, c: Cmd<Span>, i: int)
    requires Good(text, c) && IsEnd(c, i)
    ensures 0 <= i <= |text| && (i < |text| ==> !IsWordChar(text[i]))
  {
    match c
    case Exec(args) =>
      var k :| 0 <= k < |args| && args[k].eq == i;
      assert IsWord(text, args[k]);
    case Redir(u, f, _) => if IsEnd(u, i) { EndsOutside(text, u, i); }
    case Pipe(l, r) => if IsEnd(l, i) { EndsOutside(text, l, i); } else { EndsOutside(text, r, i); }
    case List(l, r) => if IsEnd(l, i) { EndsOutside(text, l, i); } else { EndsOutside(text, r, i); }
    case Back(u) => EndsOutside(text, u, i);
  }

  lemma WordReads(text: string, before: string, b: string, whole: Cmd<Span>, s: Span)
    requires NoNul(text) && Good(text, whole) && text <= before && |text| < |before| && Cut(before, b, whole)
    requires IsWord(text, s) && IsEnd(whole, s.eq)
    ensures ReadsAs(b, s.q, text[s.q..s.eq])
  {
    forall i | s.q <= i < s.eq ensures b[i] == text[i] {
      if IsEnd(whole, i) {
        EndsOutside(text, whole, i);
      }
    }
    assert b[s.q..s.eq] == text[s.q..s.eq];
  }

  /** Once the whole command is cut, each part of it reads as its words. */
  lemma {:induction false} PartReads(text: string, before: string, b: string, whole: Cmd<Span>, c: Cmd<Span>)
    requires NoNul(text) && Good(text, whole) && text <= before && |text| < |before| && Cut(before, b, whole)
    requires Good(text, c) && forall i :: IsEnd(c, i) ==> IsEnd(whole, i)
    ensures CommandReads(b, c, Named(text, c))
    decreases c
  {
    match c
    case Exec(args) =>
      forall k | 0 <= k < |args| ensures ReadsAs(b, args[k].q, Names(text, args)[k]) {
        assert IsEnd(c, args[k].eq);
        WordReads(text, before, b, whole, args[k]);
      }
    case Redir(u, f, m) =>
      assert IsEnd(c, f.eq);
      WordReads(text, before, b, whole, f);
      assert forall i :: IsEnd(u, i) ==> IsEnd(c, i);
      PartReads(text, before, b, whole, u);
    case Pipe(l, r) =>
      assert forall i :: IsEnd(l, i) || IsEnd(r, i) ==> IsEnd(c, i);
      PartReads(text, before, b, whole, l);
      PartReads(text, before, b, whole, r);
    case List(l, r) =>
      assert forall i :: IsEnd(l, i) || IsEnd(r, i) ==> IsEnd(c, i);
      PartReads(text, before, b, whole, l);
      PartReads(text, before, b, whole, r);
    case Back(u) =>
      assert forall i :: IsEnd(u, i) ==> IsEnd(c, i);
      PartReads(text, before, b, whole, u);
  }

  /** nulterminate. */
  method NulTerminate(buf: array<char>, c: Cmd<Span>, ghost text: string)
    requires Good(text, c) && |text| < buf.Length
    modifies buf
    ensures Cut(old(buf[..]), buf[..], c)
    decreases c
  {
    ghost var was := buf[..];
    match c
    case Exec(args) =>
      var i := 0;
      while i < |args|
        invariant 0 <= i <= |args|
        invariant Cut(was, buf[..], Exec(args[..i]))
      {
        assert IsWord(text, args[i]);
        ghost var mid := buf[..];
        buf[args[i].eq] := '\0';
        CutMore(was, mid, buf[..], args[..i], args[i]);
        assert args[..i] + [args[i]] == args[..i + 1];
        i := i + 1;
      }
      assert args[..i] == args;
    case Redir(u, f, _) =>
      NulTerminate(buf, u, text);
      buf[f.eq] := '\0';
    case Pipe(l, r) =>
      NulTerminate(buf, l, text);
      NulTerminate(buf, r, text);
    case List(l, r) =>
      NulTerminate(buf, l, text);
      NulTerminate(buf, r, text);
    case Back(u) =>
      NulTerminate(buf, u, text);
  }

  lemma CutMore(was: string, mid: string, now: string, args: seq<Span>, s: Span)
    requires Cut(was, mid, Exec(args)) && s.eq < |mid| && now == mid[s.eq := '\0']
    ensures Cut(was, now, Exec(args + [s]))
  {
    var more := args + [s];
    assert more[|args|].eq == s.eq;
    forall i ensures IsEnd(Exec(more), i) == (IsEnd(Exec(args), i) || i == s.eq) {
      if IsEnd(Exec(args), i) {
        var k :| 0 <= k < |args| && args[k].eq == i;
        assert more[k].eq == i;
      }
    }
  }

  /** strlen. */
  method Strlen(buf: array<char>) returns (n: nat)
    requires '\0' in buf[..]
    ensures n < buf.Length && buf[n] == '\0' && NoNul(buf[..n])
  {
    n := 0;
    while buf[n] != '\0'
      invariant n < buf.Length && NoNul(buf[..n]) && '\0' in buf[n..]
      decreases buf.Length - n
    {
      assert buf[n..] == [buf[n]] + buf[n + 1..];
      n := n + 1;
    }
  }

  /** parsecmd on a buffer that holds a C string, of n characters: a panic changes nothing; otherwise the command is
      the one that the text parses to, only the ends of its words are overwritten, and each word then reads, in the
      buffer, as exactly the word of the text. */
  method ParseCmd(buf: array<char>) returns (r: Result, n: nat)
    requires '\0' in buf[..]
    modifies buf
    ensures n < buf.Length && old(buf[n]) == '\0' && NoNul(old(buf[..n]))
    ensures r == Shell.ParseCmd(old(buf[..n]))
    ensures r == Panic ==> buf[..] == old(buf[..])
    ensures r.Ok? ==>
      && Cut(old(buf[..]), buf[..], r.cmd)
      && CommandReads(buf[..], r.cmd, Named(old(buf[..n]), r.cmd))
  {
    hide Good, Cut, CommandReads, Named, Shell.ParseLine;
    n := Strlen(buf);
    var text := buf[..n];
    var parser := new Parser(text);
    r := parser.ParseLine();
    if r == Panic {
      return;
    }
    var _ := parser.Peek("");
    if parser.s != n {
      return Panic, n;
    }
    r := Ok(r.cmd, n);
    NulTerminate(buf, r.cmd, text);
    PartReads(text, old(buf[..]), buf[..], r.cmd, r.cmd);
  }
}
