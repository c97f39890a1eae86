/** The sizes a process is mapped by fit its image and its text, in every run: what makes the maps of
    sureg() safe (kernel/utab.c, kernel/slp.c, kernel/sys1.c). */
module UserFit {
  import opened Common
  import opened ResourceMap
  import opened Space
  import opened Pages
  import opened ProcMem
  import opened ProcSteps
  import opened ProcSwap
  import opened ProcOps
  import opened ProcText
  import opened ProcExec
  import opened ProcRun
  import opened ProcLaws
  import opened ProcStand
  import opened UserMap
  import opened UserBreak

  predicate SameSizes(u: UArea, u': UArea) {
    u'.tsize == u.tsize && u'.dsize == u.dsize && u'.ssize == u.ssize
  }

  /** The u-area of process p: the live one, or the one saved for it. */
  function UOf(s: Sys, p: nat): UArea {
    if p == s.live.procp && InCore(s, p) then s.live else if p in s.home then s.home[p] else s.live
  }

  /** The sizes in u are those of the image of p, and within its text. */
  predicate SizesFit(s: Sys, p: nat, u: UArea)
    requires p < |s.procs|
  {
    && u.tsize + u.dsize <= USTKPAGE && s.procs[p].size == 1 + u.dsize + u.ssize
    && match s.procs[p].text
       case None => u.tsize == 0
       case Some(t) => t < |s.texts| && u.tsize <= s.texts[t].size
  }

  predicate Fitted(s: Sys, p: nat) {
    p < |s.procs| && Alive(s.procs[p]) && SizesFit(s, p, UOf(s, p))
  }

  /** A process that fits and is in core is ready to be mapped. */
  lemma FittedReady(s: Sys, p: nat)
    requires Fitted(s, p) && InCore(s, p)
    ensures Snug(s, p, UOf(s, p)) && Ready(s, p, UOf(s, p))
  {
  }

  /** The operation, if p does it, changes neither its size nor its text, and not its sizes either. */
  predicate Steady(s: Sys, op: Op, p: nat) {
    p == s.live.procp ==> !SelfMade(op) && (op.Fork? || op.Works? ==> SameSizes(s.live, op.u))
  }

  // ----- one step ------------------------------------------------------------------------------

  /** The u-area of a process that is not the current one stays, or becomes live as it was saved. */
  lemma {:induction false} UOfOther(s: Sys, op: Op, p: nat)
    requires Good(s) && Enabled(s, op) && Step(s, op).Some? && p < |s.procs| && Alive(s.procs[p]) && p != s.live.procp
    ensures UOf(Step(s, op).value, p) == UOf(s, p)
  {
    assert HomeKept(s, p) by { SavedHome(s, p); }
    hide Good, HomeKept, Step;
    if op == Switch(p) {
      SwitchedTo(s, p);
    } else {
      assert Waiting(s, p, s.home[p]) by { SavedHome(s, p); }
      WaitingStep(s, op, p, s.home[p]);
    }
  }

  lemma SavedHome(s: Sys, p: nat)
    requires Good(s) && p < |s.procs| && Alive(s.procs[p]) && !IsLive(s, p)
    ensures HomeKept(s, p) && p in s.home
  {
  }

  lemma SwitchedTo(s: Sys, p: nat)
    requires Good(s) && Enabled(s, Switch(p)) && p != s.live.procp
    ensures UOf(Step(s, Switch(p)).value, p) == UOf(s, p)
  {
    assert p in s.home by { SavedHome(s, p); }
    ResumeKeeps(s, Loaded(s), p);
    ResumeFrame(s, p);
    hide Good, Resume;
  }

  /** The current process keeps its sizes. */
  lemma {:induction false} UOfCurrent(s: Sys, op: Op)
    requires Good(s) && Enabled(s, op) && Step(s, op).Some? && Steady(s, op, s.live.procp)
    requires s.live.procp < |s.procs| && Alive(s.procs[s.live.procp])
    ensures SameSizes(UOf(s, s.live.procp), UOf(Step(s, op).value, s.live.procp))
  {
    hide Good, XSwap, SwapIn, NewProc, Resume, Put, Get, Join;
    var p := s.live.procp;
    match op
    case Switch(q) => SwitchedAway(s, q);
    case Fork(c, u) => ForkCurrent(s, c, u);
    case SwapOut(q) => OutCurrent(s, q);
    case SwapBack(q) => BackCurrent(s, q);
    case Waits(_) | ReadText(_) | Patch(_, _) | Store(_, _) | Untext(_) | Works(_, _, _) =>
  }

  lemma SwitchedAway(s: Sys, q: nat)
    requires Good(s) && Enabled(s, Switch(q)) && s.live.procp < |s.procs| && Alive(s.procs[s.live.procp])
    ensures UOf(Step(s, Switch(q)).value, s.live.procp) == UOf(s, s.live.procp)
  {
    var p := s.live.procp;
    ResumeKeeps(s, Loaded(s), q);
    ResumeFrame(s, q);
    if !InCore(s, p) {
      assert p in s.home && s.uhome == NOUHOME by { SavedHome(s, p); }
    } else if q == p {
      assert s.uhome == s.procs[p].addr;
    }
    hide Good, Put, Get;
  }

  lemma ForkCurrent(s: Sys, c: nat, u: UArea)
    requires Good(s) && Enabled(s, Fork(c, u)) && NewProc(s, c, u).Some? && SameSizes(s.live, u)
    ensures SameSizes(UOf(s, s.live.procp), UOf(NewProc(s, c, u).value, s.live.procp))
  {
    hide Good, Alloc, Put, Get;
  }

  lemma OutCurrent(s: Sys, q: nat)
    requires Good(s) && Enabled(s, SwapOut(q)) && XSwap(s, q, s.procs[q].size).Some?
    ensures UOf(XSwap(s, q, s.procs[q].size).value, s.live.procp) == UOf(s, s.live.procp)
  {
    assert InCore(s, 0);
    hide Good, Alloc, Join, Put, Get;
  }

  lemma BackCurrent(s: Sys, q: nat)
    requires Good(s) && Enabled(s, SwapBack(q)) && SwapIn(s, q).Some?
    ensures UOf(SwapIn(s, q).value, s.live.procp) == UOf(s, s.live.procp)
  {
    assert InCore(s, 0);
    hide Good, Alloc, Join, Put, Get;
  }

  /** A process that fits goes on fitting, whatever anybody does, as long as it does nothing to its own size
      and text. */
  lemma {:induction false} FittedStep(s: Sys, op: Op, p: nat)
    requires Good(s) && Enabled(s, op) && Step(s, op).Some? && Fitted(s, p) && Steady(s, op, p)
    ensures Fitted(Step(s, op).value, p)
  {
    hide Good, Step, UOf;
    StandsStep(s, op, p);
    if p == s.live.procp {
      UOfCurrent(s, op);
    } else {
      UOfOther(s, op, p);
    }
  }

  /** A child fits as its parent does. */
  lemma ForkFitted(s: Sys, c: nat, u: UArea)
    requires Good(s) && Enabled(s, Fork(c, u)) && NewProc(s, c, u).Some? && SameSizes(s.live, u) && Fitted(s, s.live.procp)
    ensures Fitted(NewProc(s, c, u).value, c)
  {
    hide Good, Alloc, Put;
  }

  // ----- whole runs ----------------------------------------------------------------------------

  predicate SteadyRun(s: Sys, ops: seq<Op>, p: nat)
    requires After(s, ops).Some?
    decreases |ops|
  {
    ops == [] || (Steady(s, ops[0], p) && SteadyRun(Step(s, ops[0]).value, ops[1..], p))
  }

  /** Over any run. */
  lemma {:induction false} FittedRun(s: Sys, ops: seq<Op>, p: nat)
    requires Good(s) && After(s, ops).Some? && Fitted(s, p) && SteadyRun(s, ops, p)
    ensures var s' := After(s, ops).value; Fitted(s', p) && (InCore(s', p) ==> Ready(s', p, UOf(s', p)))
    decreases |ops|
  {
    if ops == [] {
      if InCore(s, p) { FittedReady(s, p); }
    } else {
      StepGood(s, ops[0]);
      FittedStep(s, ops[0], p);
      FittedRun(Step(s, ops[0]).value, ops[1..], p);
    }
  }

  /** sbreak and grow leave the process fitting. */
  lemma ResizedFitted(s: Sys, s': Sys, nd: nat, ns: nat)
    requires Resized(s, s', nd, ns)
    ensures Fitted(s', s.live.procp) && UOf(s', s.live.procp) == s'.live
  {
    hide Good, PagesKept;
  }

  /** So does estabur, when the image and the text have been made to measure, as exec does. */
  lemma EstablishedFitted(s: Sys, nt: nat, nd: nat, ns: nat, maxmem: nat)
    requires Running(s) && Fits(nt, nd, ns, maxmem) && s.procs[s.live.procp].size == 1 + nd + ns
    requires match s.procs[s.live.procp].text
             case None => nt == 0
             case Some(t) => t < |s.texts| && nt <= s.texts[t].size
    ensures Fitted(s.(live := s.live.(tsize := nt, dsize := nd, ssize := ns)), s.live.procp)
  {
  }

  lemma BootFitted(n: nat, m: nat, u: UArea)
    requires u.procp == 0 && SameSizes(u, UArea(0, 0, 0, 0, 0))
    ensures Fitted(Boot(n, m, u), 0)
  {
  }

  /** Whatever the run, two processes in core that fit see a common page only at the same place of a text they
      share. */
  lemma {:induction false} NobodyElsesPages(s: Sys, ops: seq<Op>, p: nat, v: nat, q: nat, x: nat)
    requires Good(s) && After(s, ops).Some? && p != q && Fitted(s, p) && Fitted(s, q) && SteadyRun(s, ops, p) && SteadyRun(s, ops, q)
    requires InCore(After(s, ops).value, p) && InCore(After(s, ops).value, q) && v < NPAGE && x < NPAGE
    ensures var s' := After(s, ops).value;
      && Ready(s', p, UOf(s', p)) && Ready(s', q, UOf(s', q))
      && (PageOf(s', p, UOf(s', p), v) == PageOf(s', q, UOf(s', q), x) != 0 ==>
            s'.procs[p].text.Some? && s'.procs[q].text == s'.procs[p].text && v == x && v < UOf(s', p).tsize)
  {
    hide Good, Ready, UOf, Step;
    FittedRun(s, ops, p);
    FittedRun(s, ops, q);
    RunGood(s, ops);
    var s' := After(s, ops).value;
    if PageOf(s', p, UOf(s', p), v) == PageOf(s', q, UOf(s', q), x) != 0 {
      SharedOnlyThroughText(s', p, UOf(s', p), v, q, UOf(s', q), x);
    }
  }
}
