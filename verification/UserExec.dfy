/** exec(): getxfile() commits the process to new sizes, leaves its text, takes the room it needs, attaches the
    new text and reads it and the data in (kernel/sys1.c, kernel/text.c).  It may be swapped out on the way,
    twice, and sleeps while it reads. */
module UserExec {
  import opened Common
  import opened ResourceMap
  import opened Space
  import opened Pages
  import opened ProcMem
  import opened ProcSteps
  import opened ProcSwap
  import opened ProcOps
  import opened ProcText
  import opened ProcExec
  import opened ProcRun
  import opened ProcLaws
  import opened ProcStand
  import opened UserMap
  import opened Kernel
  import opened UserBreak
  import opened UserFit

  // ----- the sizes of texts --------------------------------------------------------------------

  /** What the header of a file says of its text; the file cannot change while it is in use as a text. */
  type Headers = nat -> nat

  ghost predicate FromHeaders(x: TextSeg, head: Headers) {
    x.used ==> x.size == head(x.inode)
  }

  /** Every text has the size its file says. */
  ghost predicate TextSizes(s: Sys, head: Headers) {
    forall t :: 0 <= t < |s.texts| ==> FromHeaders(s.texts[t], head)
  }

  /** Text entries keep their file and their size as long as they are used. */
  ghost predicate EntriesKept(s: Sys, s': Sys) {
    && |s'.texts| == |s.texts|
    && forall t :: 0 <= t < |s.texts| && s'.texts[t].used ==>
         s.texts[t].used && s'.texts[t].inode == s.texts[t].inode && s'.texts[t].size == s.texts[t].size
  }

  lemma EntriesSwap(s: Sys, p: nat, n: nat)
    requires TextInTable(s, p) && n >= s.procs[p].size && XSwap(s, p, n).Some?
    ensures EntriesKept(s, XSwap(s, p, n).value)
  {
    hide Alloc, Join, Put, Get, EntriesKept;
    SwapTexts(s, p, n);
    if s.procs[p].text.Some? {
      EntriesDrop(s, s.procs[p].text.value);
      EntriesSame(s, XccDec(s, s.procs[p].text.value), XSwap(s, p, n).value);
    } else {
      EntriesSelf(s, XSwap(s, p, n).value);
    }
  }

  lemma SwapTexts(s: Sys, p: nat, n: nat)
    requires TextInTable(s, p) && n >= s.procs[p].size && XSwap(s, p, n).Some?
    ensures XSwap(s, p, n).value.texts == match s.procs[p].text case None => s.texts case Some(t) => XccDec(s, t).texts
  {
    hide Alloc, Join, Put, Get;
  }

  lemma EntriesDrop(s: Sys, t: nat)
    requires t < |s.texts|
    ensures EntriesKept(s, XccDec(s, t))
  {
    hide Join, Put, Get;
  }

  lemma EntriesSame(s: Sys, s1: Sys, s2: Sys)
    requires EntriesKept(s, s1) && s2.texts == s1.texts
    ensures EntriesKept(s, s2)
  {
  }

  lemma EntriesSelf(s: Sys, s': Sys)
    requires s'.texts == s.texts
    ensures EntriesKept(s, s')
  {
  }

  lemma EntriesSwapIn(s: Sys, p: nat)
    requires TextInTable(s, p) && SwapIn(s, p).Some?
    ensures EntriesKept(s, SwapIn(s, p).value)
  {
    hide Alloc, Join, Put, Get;
  }

  lemma EntriesFork(s: Sys, c: nat, u: UArea)
    requires Enabled(s, Fork(c, u)) && NewProc(s, c, u).Some?
    ensures EntriesKept(s, NewProc(s, c, u).value)
  {
    hide Alloc, Put, Get;
  }

  lemma EntriesFree(s: Sys)
    requires TextInTable(s, s.live.procp)
    ensures EntriesKept(s, XFree(s)) && EntriesKept(s, Exit(s))
  {
    hide Join, Put, Get;
  }

  lemma EntriesExpand(s: Sys, n: nat)
    requires TextInTable(s, s.live.procp) && s.procs[s.live.procp].size > 0 && ExpandTo(s, n).Some?
    ensures EntriesKept(s, ExpandTo(s, n).value)
  {
    hide Alloc, Join, Put, Get, XSwap;
    if n > s.procs[s.live.procp].size && Move(s, n) == None {
      EntriesSwap(s, s.live.procp, n);
    }
  }

  lemma EntriesIn(s: Sys, t: nat)
    requires TextInTable(s, s.live.procp) && t < |s.texts| && Enter(s, t).Some?
    ensures EntriesKept(s, Enter(s, t).value)
  {
    hide Alloc, Put, Get, XSwap;
    if UseText(s, t).None? {
      EntriesSwap(s, s.live.procp, s.procs[s.live.procp].size);
    }
  }

  lemma {:induction false} SizesEnter(s: Sys, ip: nat, sticky: bool, n: nat, head: Headers)
    requires TextSizes(s, head) && s.live.procp < |s.procs| && XAlloc(s, ip, sticky, n).Some? && n == head(ip)
    ensures TextSizes(XAlloc(s, ip, sticky, n).value, head)
  {
    hide Alloc, Enter, Lookup, Unused;
    var p, t, v := s.live.procp, Lookup(s.texts, ip), Unused(s.texts);
    if t < |s.texts| {
      EntriesIn(Attach(s, p, t), t);
    } else if v < |s.texts| {
      var a := Attach(NewText(s, v, ip, sticky, n).value, p, v);
      assert FromHeaders(a.texts[v], head);
      EntriesIn(a, v);
    }
  }

  predicate Honest(op: Op, head: Headers) {
    op.EnterText? ==> op.n == head(op.ip)
  }

  lemma {:induction false} SizesStep(s: Sys, op: Op, head: Headers)
    requires Good(s) && Enabled(s, op) && Step(s, op).Some? && TextSizes(s, head) && Honest(op, head)
    ensures TextSizes(Step(s, op).value, head)
  {
    hide Good, XSwap, SwapIn, ExpandTo, NewProc, XFree, XAlloc, Exit, Join, Put, Get;
    match op
    case Fork(c, u) => EntriesFork(s, c, u);
    case Expand(n) => EntriesExpand(s, n);
    case SwapOut(q) => EntriesSwap(s, q, s.procs[q].size);
    case SwapBack(q) => EntriesSwapIn(s, q);
    case Exits | LeaveText => EntriesFree(s);
    case EnterText(ip, sticky, n) => SizesEnter(s, ip, sticky, n, head);
    case Switch(_) | Waits(_) | ReadText(_) | Patch(_, _) | Store(_, _) | Untext(_) | Works(_, _, _) =>
  }

  // ----- while it waits and reads ---------------------------------------------------------------

  /** A run in which p itself changes neither its size nor its text, and all enter texts as their files say. */
  predicate Quiet(s: Sys, ops: seq<Op>, p: nat, head: Headers)
    requires After(s, ops).Some?
    decreases |ops|
  {
    ops == [] ||
    ((p == s.live.procp ==> !SelfMade(ops[0])) && Honest(ops[0], head) && Quiet(Step(s, ops[0]).value, ops[1..], p, head))
  }

  lemma {:induction false} QuietRun(s: Sys, ops: seq<Op>, p: nat, head: Headers)
    requires Good(s) && After(s, ops).Some? && Quiet(s, ops, p, head) && TextSizes(s, head) && p < |s.procs| && Alive(s.procs[p])
    ensures var s' := After(s, ops).value; Good(s') && TextSizes(s', head) && Stands(s, s', p)
    decreases |ops|
  {
    if ops != [] {
      var s1 := Step(s, ops[0]).value;
      hide Good, Step, Enabled, TextSizes, Stands;
      StepGood(s, ops[0]);
      SizesStep(s, ops[0], head);
      StandsStep(s, ops[0], p);
      assert p < |s1.procs| && Alive(s1.procs[p]) by { StandsAlive(s, s1, p); }
      QuietRun(s1, ops[1..], p, head);
      StandsTrans(s, s1, After(s, ops).value, p);
    } else {
      StandsSelf(s, p);
    }
  }

  lemma StandsAlive(s: Sys, s': Sys, p: nat)
    requires Stands(s, s', p) && Alive(s.procs[p])
    ensures p < |s'.procs| && Alive(s'.procs[p])
  {
  }

  lemma StandsSelf(s: Sys, p: nat)
    requires p < |s.procs|
    ensures Stands(s, s, p)
  {
  }

  // ----- getxfile ------------------------------------------------------------------------------

  function Sizes(s: Sys, nt: nat, nd: nat, ns: nat): Sys {
    s.(live := s.live.(tsize := nt, dsize := nd, ssize := ns))
  }

  /** estabur, xfree and expand, the u-area's saved context becoming r.  None: out of swap space. */
  function Commit(s: Sys, nt: nat, nd: nat, ns: nat, r: int): Option<Sys>
    requires TextInTable(s, s.live.procp)
  {
    var s1 := XFree(Sizes(s, nt, nd, ns));
    if TextInTable(s1, s1.live.procp) && s1.procs[s1.live.procp].size > 0 then
      ExpandTo(s1.(live := s1.live.(rest := r)), 1 + nd + ns)
    else None
  }

  /** xalloc, which does nothing for a file without a text. */
  function Obtain(s: Sys, ip: nat, sticky: bool, nt: nat): Option<Sys>
    requires s.live.procp < |s.procs|
  {
    if nt == 0 then Some(s) else XAlloc(s, ip, sticky, nt)
  }

  /** There is an entry for the text of ip, or one to be had. */
  predicate Entry(s: Sys, ip: nat) {
    Lookup(s.texts, ip) < |s.texts| || Unused(s.texts) < |s.texts|
  }

  lemma SizesGood(s: Sys, u: UArea, head: Headers)
    requires Good(s) && Running(s) && u.procp == s.live.procp && TextSizes(s, head)
    ensures Good(s.(live := u)) && Running(s.(live := u)) && TextSizes(s.(live := u), head)
  {
    hide Good;
    LiveGood(s, u);
  }

  lemma ExpandedSize(s: Sys, n: nat)
    requires TextInTable(s, s.live.procp) && s.procs[s.live.procp].size > 0 && ExpandTo(s, n).Some? && Alive(s.procs[s.live.procp])
    ensures var s', p := ExpandTo(s, n).value, s.live.procp;
      p < |s'.procs| && Alive(s'.procs[p]) && s'.procs[p].size == n && s'.procs[p].text == s.procs[p].text
  {
    hide Alloc, Join, Put, Get;
  }

  /** Committed: the process has no text and the room it needs, in core or out. */
  lemma {:induction false} CommitRoom(s: Sys, nt: nat, nd: nat, ns: nat, r: int, head: Headers)
    requires Good(s) && Running(s) && s.live.procp != 0 && TextSizes(s, head) && TextInTable(s, s.live.procp)
    requires Commit(s, nt, nd, ns, r).Some?
    ensures var s', p := Commit(s, nt, nd, ns, r).value, s.live.procp;
      && Good(s') && TextSizes(s', head) && p < |s'.procs| && Alive(s'.procs[p])
      && s'.procs[p].size == 1 + nd + ns && s'.procs[p].text == None
  {
    hide Good, XFree, ExpandTo, TextSizes;
    var s0, p := Sizes(s, nt, nd, ns), s.live.procp;
    SizesGood(s, s0.live, head);
    RunningFacts(s0);
    StepGood(s0, LeaveText);
    SizesStep(s0, LeaveText, head);
    LeftText(s0);
    var s1 := XFree(s0);
    var s2 := s1.(live := s1.live.(rest := r));
    SizesGood(s1, s2.live, head);
    RunningFacts(s2);
    StepGood(s2, Expand(1 + nd + ns));
    SizesStep(s2, Expand(1 + nd + ns), head);
    ExpandedSize(s2, 1 + nd + ns);
  }

  lemma LeftText(s: Sys)
    requires Good(s) && Running(s) && TextInTable(s, s.live.procp)
    ensures var s' := XFree(s); Running(s') && s'.live == s.live && s'.procs[s.live.procp] == s.procs[s.live.procp].(text := None)
  {
    hide XFree, Inv;
    XFreeKeeps(s, Loaded(s));
  }

  lemma InEntry(s: Sys, t: nat)
    requires TextInTable(s, s.live.procp) && t < |s.texts| && Enter(s, t).Some? && Alive(s.procs[s.live.procp])
    ensures Stands(s, Enter(s, t).value, s.live.procp)
  {
    hide Alloc, Put, Get, XSwap;
    if UseText(s, t).None? {
      StandsSwap(s, s.live.procp, s.procs[s.live.procp].size, s.live.procp);
    }
  }

  /** xalloc attaches a text of the file's size exactly if there is an entry for it. */
  lemma {:induction false} Obtained(s: Sys, ip: nat, sticky: bool, nt: nat, head: Headers)
    requires s.live.procp < |s.procs| && Alive(s.procs[s.live.procp]) && s.procs[s.live.procp].text == None
    requires TextSizes(s, head) && nt == head(ip) && XAlloc(s, ip, sticky, nt).Some?
    ensures var s', p := XAlloc(s, ip, sticky, nt).value, s.live.procp;
      && p < |s'.procs| && s'.procs[p].size == s.procs[p].size && (s'.procs[p].text.Some? <==> Entry(s, ip))
      && (s'.procs[p].text.Some? ==> s'.procs[p].text.value < |s'.texts| && s'.texts[s'.procs[p].text.value].size == nt)
  {
    hide Alloc, Enter, Lookup, Unused;
    var p, t, v := s.live.procp, Lookup(s.texts, ip), Unused(s.texts);
    if t < |s.texts| {
      InEntry(Attach(s, p, t), t);
      assert FromHeaders(s.texts[t], head);
    } else if v < |s.texts| {
      InEntry(Attach(NewText(s, v, ip, sticky, nt).value, p, v), v);
    }
  }

  lemma ObtainSteps(s: Sys, ip: nat, sticky: bool, nt: nat, head: Headers)
    requires Good(s) && Running(s) && s.live.procp != 0 && s.procs[s.live.procp].text == None && nt > 0
    requires TextSizes(s, head) && nt == head(ip) && XAlloc(s, ip, sticky, nt).Some?
    ensures Good(XAlloc(s, ip, sticky, nt).value) && TextSizes(XAlloc(s, ip, sticky, nt).value, head)
    ensures var p := s.live.procp; p < |XAlloc(s, ip, sticky, nt).value.procs| && Alive(XAlloc(s, ip, sticky, nt).value.procs[p])
  {
    hide Good, XAlloc, TextSizes;
    RunningFacts(s);
    StepGood(s, EnterText(ip, sticky, nt));
    SizesStep(s, EnterText(ip, sticky, nt), head);
    StillThere(s, ip, sticky, nt);
  }

  lemma StillThere(s: Sys, ip: nat, sticky: bool, n: nat)
    requires s.live.procp < |s.procs| && Alive(s.procs[s.live.procp]) && s.procs[s.live.procp].text == None && XAlloc(s, ip, sticky, n).Some?
    ensures var s', p := XAlloc(s, ip, sticky, n).value, s.live.procp; p < |s'.procs| && Alive(s'.procs[p])
  {
    hide Alloc, Enter, Lookup, Unused;
    var p, t, v := s.live.procp, Lookup(s.texts, ip), Unused(s.texts);
    if t < |s.texts| {
      InEntry(Attach(s, p, t), t);
    } else if v < |s.texts| {
      InEntry(Attach(NewText(s, v, ip, sticky, n).value, p, v), v);
    }
  }

  /** getxfile from the sizes it has found to its last estabur, whatever others do while it is out of core or
      reads: the process fits its new sizes exactly if the file has no text or there was an entry for it.  If
      there was none, the process has been sent a kill signal and has no text, but its sizes say it has. */
  lemma {:induction false} ExecFits(s: Sys, nt: nat, nd: nat, ns: nat, maxmem: nat, r: int, back: seq<Op>, ip: nat, sticky: bool, reading: seq<Op>, head: Headers)
    requires Good(s) && Running(s) && s.live.procp != 0 && TextInTable(s, s.live.procp) && Fits(nt, nd, ns, maxmem)
    requires TextSizes(s, head) && (nt > 0 ==> nt == head(ip)) && Commit(s, nt, nd, ns, r).Some?
    requires var s1, p := Commit(s, nt, nd, ns, r).value, s.live.procp;
      && After(s1, back).Some? && Quiet(s1, back, p, head) && IsLive(After(s1, back).value, p)
      && Obtain(After(s1, back).value, ip, sticky, nt).Some?
    requires var s3, p := Obtain(After(Commit(s, nt, nd, ns, r).value, back).value, ip, sticky, nt).value, s.live.procp;
      After(s3, reading).Some? && Quiet(s3, reading, p, head) && IsLive(After(s3, reading).value, p)
    ensures var s2, p := After(Commit(s, nt, nd, ns, r).value, back).value, s.live.procp;
      var s' := Sizes(After(Obtain(s2, ip, sticky, nt).value, reading).value, nt, nd, ns);
      && Good(s') && TextSizes(s', head) && s'.live.procp == p && (Fitted(s', p) <==> nt == 0 || Entry(s2, ip))
      && (!Fitted(s', p) ==> s'.procs[p].text == None)
  {
    hide Good, Commit, Quiet, XAlloc, After, TextSizes, Entry;
    var p, s1 := s.live.procp, Commit(s, nt, nd, ns, r).value;
    CommitRoom(s, nt, nd, ns, r, head);
    QuietRun(s1, back, p, head);
    var s2 := After(s1, back).value;
    if nt > 0 {
      Obtained(s2, ip, sticky, nt, head);
      ObtainSteps(s2, ip, sticky, nt, head);
    }
    var s3 := Obtain(s2, ip, sticky, nt).value;
    QuietRun(s3, reading, p, head);
    var s4 := After(s3, reading).value;
    SizesGood(s4, Sizes(s4, nt, nd, ns).live, head);
    if nt == 0 || Entry(s2, ip) {
      EstablishedFitted(s4, nt, nd, ns, maxmem);
    }
  }
}
