/** What nobody else changes of a process: the size of its image and the text it is attached to. */
module ProcStand {
  import opened Common
  import opened ResourceMap
  import opened Space
  import opened Pages
  import opened ProcMem
  import opened ProcSteps
  import opened ProcSwap
  import opened ProcOps
  import opened ProcText
  import opened ProcExec
  import opened ProcRun
  import opened ProcLaws

  /** Process p is as big as it was, and its text too. */
  predicate Stands(s: Sys, s': Sys, p: nat) {
    && p < |s.procs| && p < |s'.procs| && |s'.texts| == |s.texts| && (Alive(s.procs[p]) ==> Alive(s'.procs[p]))
    && s'.procs[p].size == s.procs[p].size && s'.procs[p].text == s.procs[p].text
    && (s.procs[p].text.Some? && s.procs[p].text.value < |s.texts| ==>
          var t := s.procs[p].text.value; s'.texts[t].size == s.texts[t].size)
  }

  lemma StandsTrans(a: Sys, b: Sys, c: Sys, p: nat)
    requires Stands(a, b, p) && Stands(b, c, p)
    ensures Stands(a, c, p)
  {
  }

  lemma StandsSwap(s: Sys, q: nat, n: nat, p: nat)
    requires TextInTable(s, q) && n >= s.procs[q].size && XSwap(s, q, n).Some? && p < |s.procs| && (p != q || n == s.procs[q].size)
    ensures Stands(s, XSwap(s, q, n).value, p)
  {
    hide Alloc, Join, Put, Get;
  }

  lemma StandsSwapIn(s: Sys, q: nat, p: nat)
    requires TextInTable(s, q) && SwapIn(s, q).Some? && p < |s.procs|
    ensures Stands(s, SwapIn(s, q).value, p)
  {
    hide Alloc, Join, Put, Get;
  }

  lemma StandsFork(s: Sys, c: nat, u: UArea, p: nat)
    requires Enabled(s, Fork(c, u)) && NewProc(s, c, u).Some? && p < |s.procs| && Alive(s.procs[p])
    ensures Stands(s, NewProc(s, c, u).value, p)
  {
    hide Alloc, Put, Get;
  }

  lemma StandsXFree(s: Sys, p: nat)
    requires TextInTable(s, s.live.procp) && p < |s.procs| && p != s.live.procp
    ensures Stands(s, XFree(s), p)
  {
    hide Join, Put, Get;
  }

  lemma StandsExit(s: Sys, p: nat)
    requires TextInTable(s, s.live.procp) && p < |s.procs| && p != s.live.procp
    ensures Stands(s, Exit(s), p)
  {
    hide Join, Put, Get;
  }

  lemma StandsEnter(s: Sys, ip: nat, sticky: bool, n: nat, p: nat)
    requires Good(s) && s.live.procp < |s.procs| && XAlloc(s, ip, sticky, n).Some? && p < |s.procs| && p != s.live.procp && Alive(s.procs[p])
    ensures Stands(s, XAlloc(s, ip, sticky, n).value, p)
  {
    hide CoreShared, SwapShared, Counted, HomesKept, TextsKept, Alloc, Join, Put, Get, Lookup, Unused, XSwap, UseText;
    var q, t, v := s.live.procp, Lookup(s.texts, ip), Unused(s.texts);
    if t < |s.texts| {
      var a := Attach(s, q, t);
      assert Stands(s, a, p);
      StandsIn(s, a, t, p);
    } else if v < |s.texts| {
      var a := Attach(NewText(s, v, ip, sticky, n).value, q, v);
      assert Stands(s, a, p);
      StandsIn(s, a, v, p);
    }
  }

  lemma StandsIn(s: Sys, a: Sys, t: nat, p: nat)
    requires Stands(s, a, p) && TextInTable(a, a.live.procp) && t < |a.texts| && Enter(a, t).Some?
    ensures Stands(s, Enter(a, t).value, p)
  {
    hide XSwap, Alloc, Put, Get;
    if UseText(a, t).None? {
      StandsSwap(a, a.live.procp, a.procs[a.live.procp].size, p);
      StandsTrans(s, a, Enter(a, t).value, p);
    }
  }

  lemma StandsExpand(s: Sys, n: nat, p: nat)
    requires TextInTable(s, s.live.procp) && s.procs[s.live.procp].size > 0 && ExpandTo(s, n).Some? && p < |s.procs| && p != s.live.procp
    ensures Stands(s, ExpandTo(s, n).value, p)
  {
    hide Alloc, Join, Put, Get, XSwap;
    var q := s.live.procp;
    if n > s.procs[q].size && Move(s, n) == None {
      StandsSwap(s, q, n, p);
    }
  }

  /** An operation by which the running process changes its own size or text, or ends. */
  predicate SelfMade(op: Op) {
    op.Expand? || op.Exits? || op.LeaveText? || op.EnterText?
  }

  lemma {:induction false} StandsStep(s: Sys, op: Op, p: nat)
    requires Good(s) && Enabled(s, op) && Step(s, op).Some? && p < |s.procs| && Alive(s.procs[p])
    requires p == s.live.procp ==> !SelfMade(op)
    ensures Stands(s, Step(s, op).value, p)
  {
    hide Good, XSwap, SwapIn, ExpandTo, NewProc, XFree, XAlloc, Join, Put, Get;
    match op
    case Switch(q) =>
    case Fork(c, u) => StandsFork(s, c, u, p);
    case Expand(n) => StandsExpand(s, n, p);
    case SwapOut(q) => StandsSwap(s, q, s.procs[q].size, p);
    case SwapBack(q) => StandsSwapIn(s, q, p);
    case Exits => StandsExit(s, p);
    case LeaveText => StandsXFree(s, p);
    case EnterText(ip, sticky, n) => StandsEnter(s, ip, sticky, n, p);
    case Waits(_) | ReadText(_) | Patch(_, _) | Store(_, _) | Untext(_) | Works(_, _, _) =>
  }

  /** Over a run in which it does not run. */
  lemma {:induction false} StandsRun(s: Sys, ops: seq<Op>, p: nat, u: UArea)
    requires Good(s) && After(s, ops).Some? && Waiting(s, p, u) && Switch(p) !in ops
    ensures Stands(s, After(s, ops).value, p)
    decreases |ops|
  {
    if ops != [] {
      var s1 := Step(s, ops[0]).value;
      StepGood(s, ops[0]);
      WaitingStep(s, ops[0], p, u);
      StandsStep(s, ops[0], p);
      StandsRun(s1, ops[1..], p, u);
      StandsTrans(s, s1, After(s, ops).value, p);
    }
  }
}
