/** Who begin_op lets in: how many operations can be outstanding at once, over every run. */
module LogAdmission {
  import opened BufferCache
  import opened LogMachine
  import opened LogInvariant
  import opened LogTheorems

  // ---- No more than the log has room for ----

  lemma OnlyBeginAdds(P: Params, s: State, e: Step, s': State)
    requires Next(P, s, e, s') && !e.SBegin?
    ensures s'.ops.Keys <= s.ops.Keys
  {
  }

  lemma BeginAddsOne(P: Params, s: State, p: Pid, s': State)
    requires Next(P, s, SBegin(p), s')
    ensures |s'.ops| == |s.ops| + 1 && (|s.ops| + 1) * P.maxOp <= P.logBlocks
  {
  }

  lemma AdmittedKept(P: Params, s: State, e: Step, s': State)
    requires Next(P, s, e, s') && |s.ops| * P.maxOp <= P.logBlocks
    ensures |s'.ops| * P.maxOp <= P.logBlocks
  {
    hide Next;
    if e.SBegin? {
      BeginAddsOne(P, s, e.p, s');
    } else {
      OnlyBeginAdds(P, s, e, s');
      Subsets(s'.ops.Keys, s.ops.Keys);
      Scaled(|s'.ops|, |s.ops|, P.maxOp);
    }
  }

  lemma Subsets(a: set<Pid>, b: set<Pid>)
    requires a <= b
    ensures |a| <= |b|
  {
    assert b == a + (b - a);
  }

  lemma Scaled(a: nat, b: nat, n: nat)
    requires a <= b
    ensures a * n <= b * n
  {
  }

  /** In every reachable state the reservations of all outstanding operations fit into the log together. */
  lemma {:induction false} MostAtOnce(P: Params, states: seq<State>, steps: seq<Step>, i: nat)
    requires Run(P, states, steps) && i < |states|
    ensures |states[i].ops| * P.maxOp <= P.logBlocks
  {
    hide Next;
    if i > 0 {
      MostAtOnce(P, states, steps, i - 1);
      AdmittedKept(P, states[i - 1], steps[i - 1], states[i]);
    }
  }

  // ---- And as many ----

  /** The run can go on to a state like s in which exactly these operations are outstanding and have logged nothing. */
  ghost predicate Opens(P: Params, states: seq<State>, steps: seq<Step>, who: set<Pid>) {
    exists more: seq<State>, ways: seq<Step> ::
      Run(P, states + more, steps + ways) && Open(states, more, who)
  }

  ghost predicate Open(states: seq<State>, more: seq<State>, who: set<Pid>) {
    && states != []
    && var s, t := states[|states| - 1], (states + more)[|states + more| - 1];
       t == s.(ops := t.ops) && t.ops.Keys == who && forall p :: p in who ==> t.ops[p] == 0
  }

  /** begin_op goes through for a process that is not in an operation if and only if no commit is running and the log
      has room for what is in it and a whole reservation for everyone, the newcomer included. */
  lemma BeginIff(P: Params, states: seq<State>, steps: seq<Step>, p: Pid)
    requires Run(P, states, steps) && p !in states[|states| - 1].ops
    ensures var s := states[|states| - 1];
      s.phase == Normal && |s.lh| + (|s.ops| + 1) * P.maxOp <= P.logBlocks <==>
      Run(P, states + [s.(ops := s.ops[p := 0])], steps + [SBegin(p)])
  {
    var s := states[|states| - 1];
    var s' := s.(ops := s.ops[p := 0]);
    if s.phase == Normal && |s.lh| + (|s.ops| + 1) * P.maxOp <= P.logBlocks {
      RunOn(P, states, steps, SBegin(p), s');
    }
    if Run(P, states + [s'], steps + [SBegin(p)]) {
      assert Next(P, (states + [s'])[|steps|], (steps + [SBegin(p)])[|steps|], (states + [s'])[|steps| + 1]);
    }
  }

  lemma RunOn(P: Params, states: seq<State>, steps: seq<Step>, e: Step, s': State)
    requires Run(P, states, steps) && Next(P, states[|states| - 1], e, s')
    ensures Run(P, states + [s'], steps + [e])
  {
    hide Next, Init;
    var longer, ways := states + [s'], steps + [e];
    forall i | 0 <= i < |ways| ensures Next(P, longer[i], ways[i], longer[i + 1]) {
      if i < |steps| { assert Next(P, states[i], steps[i], states[i + 1]); }
    }
  }

  /** From every reachable state with no operation outstanding and no commit running, any set of processes can begin one
      operation each before the first ends, if and only if their reservations fit into the log together. */
  lemma AllAtOnce(P: Params, states: seq<State>, steps: seq<Step>, who: set<Pid>)
    requires Run(P, states, steps)
    requires states[|states| - 1].ops == map[] && states[|states| - 1].phase == Normal
    ensures |who| * P.maxOp <= P.logBlocks <==> Opens(P, states, steps, who)
  {
    hide Run;
    if |who| * P.maxOp <= P.logBlocks { OpenAll(P, states, steps, who); }
    if Opens(P, states, steps, who) {
      var more: seq<State>, ways: seq<Step> :| Run(P, states + more, steps + ways) && Open(states, more, who);
      MostAtOnce(P, states + more, steps + ways, |states + more| - 1);
    }
  }

  lemma {:induction false} OpenAll(P: Params, states: seq<State>, steps: seq<Step>, who: set<Pid>)
    requires Run(P, states, steps) && |who| * P.maxOp <= P.logBlocks
    requires states[|states| - 1].ops == map[] && states[|states| - 1].phase == Normal
    ensures Opens(P, states, steps, who)
    decreases |who|
  {
    hide Next, Init;
    if who == {} {
      assert states + [] == states && steps + [] == steps;
      assert Run(P, states + [], steps + []) && Open(states, [], who);
    } else {
      var p :| p in who;
      Scaled(|who - {p}|, |who|, P.maxOp);
      OpenAll(P, states, steps, who - {p});
      OpenMore(P, states, steps, who - {p}, p);
      assert who - {p} + {p} == who;
    }
  }

  lemma OpenMore(P: Params, states: seq<State>, steps: seq<Step>, who: set<Pid>, p: Pid)
    requires Run(P, states, steps) && p !in who && (|who| + 1) * P.maxOp <= P.logBlocks && Opens(P, states, steps, who)
    requires states[|states| - 1].ops == map[] && states[|states| - 1].phase == Normal
    ensures Opens(P, states, steps, who + {p})
  {
    LogSpace(P, states, steps, |states| - 1);
    hide Run;
    var more: seq<State>, ways: seq<Step> :| Run(P, states + more, steps + ways) && Open(states, more, who);
    OpenOne(P, states, steps, who, p, more, ways);
  }

  lemma OpenOne(P: Params, states: seq<State>, steps: seq<Step>, who: set<Pid>, p: Pid, more: seq<State>,
                ways: seq<Step>)
    requires Run(P, states + more, steps + ways) && Open(states, more, who) && p !in who
    requires states[|states| - 1].lh == [] && states[|states| - 1].phase == Normal
    requires (|who| + 1) * P.maxOp <= P.logBlocks
    ensures Opens(P, states, steps, who + {p})
  {
    hide Next, Init, Run;
    var t := (states + more)[|states + more| - 1];
    var t' := t.(ops := t.ops[p := 0]);
    assert |t.ops| == |who| by { assert |t.ops| == |t.ops.Keys|; }
    BeginIff(P, states + more, steps + ways, p);
    OpenWith(states, more, who, p);
    hide Open;
    assert states + more + [t'] == states + (more + [t']) && steps + ways + [SBegin(p)] == steps + (ways + [SBegin(p)]);
    assert Run(P, states + (more + [t']), steps + (ways + [SBegin(p)]));
  }

  lemma OpenWith(states: seq<State>, more: seq<State>, who: set<Pid>, p: Pid)
    requires Open(states, more, who) && p !in who
    ensures var t := (states + more)[|states + more| - 1];
      Open(states, more + [t.(ops := t.ops[p := 0])], who + {p})
  {
    var t := (states + more)[|states + more| - 1];
    var t' := t.(ops := t.ops[p := 0]);
    assert (states + (more + [t']))[|states + (more + [t'])| - 1] == t';
  }
}
