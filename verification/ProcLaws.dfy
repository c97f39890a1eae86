/** What holds over whole runs: u-areas come back as they were saved, texts come back as they were
    left, counts count, and the state the kernel boots into is a good one. */
module ProcLaws {
  import opened Common
  import opened ResourceMap
  import opened Space
  import opened Pages
  import opened ProcMem
  import opened ProcSteps
  import opened ProcSwap
  import opened ProcOps
  import opened ProcText
  import opened ProcExec
  import opened ProcRun

  // ----- u-areas -------------------------------------------------------------------------------

  /** Process p is waiting with u saved for it. */
  predicate Waiting(s: Sys, p: nat, u: UArea) {
    p < |s.procs| && Alive(s.procs[p]) && p != s.live.procp && p in s.home && s.home[p] == u
  }

  lemma WaitingSwap(s: Sys, q: nat, n: nat, p: nat, u: UArea)
    requires TextInTable(s, q) && n >= s.procs[q].size && XSwap(s, q, n).Some? && Waiting(s, p, u)
    ensures Waiting(XSwap(s, q, n).value, p, u)
  {
    hide Alloc, Join, Put, Get;
  }

  lemma WaitingExpand(s: Sys, n: nat, p: nat, u: UArea)
    requires TextInTable(s, s.live.procp) && s.procs[s.live.procp].size > 0 && ExpandTo(s, n).Some? && Waiting(s, p, u)
    ensures Waiting(ExpandTo(s, n).value, p, u)
  {
    hide Alloc, Join, Put, Get, XSwap;
    var q := s.live.procp;
    if n > s.procs[q].size && Move(s, n) == None {
      WaitingSwap(s, q, n, p, u);
    }
  }

  lemma WaitingFork(s: Sys, c: nat, v: UArea, p: nat, u: UArea)
    requires Enabled(s, Fork(c, v)) && NewProc(s, c, v).Some? && Waiting(s, p, u)
    ensures Waiting(NewProc(s, c, v).value, p, u)
  {
    hide Alloc, Put, Get;
  }

  lemma WaitingXFree(s: Sys, p: nat, u: UArea)
    requires TextInTable(s, s.live.procp) && Waiting(s, p, u)
    ensures Waiting(XFree(s), p, u) && XFree(s).live == s.live && |XFree(s).procs| == |s.procs|
  {
    hide Join, Put, Get;
  }

  lemma WaitingEnter(s: Sys, ip: nat, sticky: bool, n: nat, p: nat, u: UArea)
    requires s.live.procp < |s.procs| && XAlloc(s, ip, sticky, n).Some? && Waiting(s, p, u)
    ensures Waiting(XAlloc(s, ip, sticky, n).value, p, u)
  {
    hide Alloc, Join, Put, Get, Lookup, Unused, XSwap;
    var q, t, v := s.live.procp, Lookup(s.texts, ip), Unused(s.texts);
    if t < |s.texts| {
      var a := Attach(s, q, t);
      if UseText(a, t) == None {
        WaitingSwap(a, q, a.procs[q].size, p, u);
      }
    } else if v < |s.texts| {
      var a := Attach(NewText(s, v, ip, sticky, n).value, q, v);
      if UseText(a, v) == None {
        WaitingSwap(a, q, a.procs[q].size, p, u);
      }
    }
  }

  lemma WaitingSwapIn(s: Sys, q: nat, p: nat, u: UArea)
    requires TextInTable(s, q) && SwapIn(s, q).Some? && Waiting(s, p, u)
    ensures Waiting(SwapIn(s, q).value, p, u)
  {
    hide Alloc, Join, Put, Get;
  }

  lemma WaitingRest(s: Sys, op: Op, p: nat, u: UArea)
    requires Enabled(s, op) && Step(s, op).Some? && Waiting(s, p, u)
    requires op.Waits? || op.ReadText? || op.Patch? || op.Store? || op.Untext? || op.Works?
    ensures Waiting(Step(s, op).value, p, u)
  {
    hide Join, Put, Get;
  }

  lemma {:induction false} WaitingSwitch(s: Sys, q: nat, p: nat, u: UArea)
    requires Good(s) && InCore(s, q) && Waiting(s, p, u) && p != q
    ensures Waiting(Resume(s, q), p, u)
  {
    ResumeKeeps(s, Loaded(s), q);
    hide Good, Inv, Put, Get;
  }

  lemma {:induction false} WaitingStep(s: Sys, op: Op, p: nat, u: UArea)
    requires Good(s) && Enabled(s, op) && Step(s, op).Some? && Waiting(s, p, u) && op != Switch(p)
    ensures Waiting(Step(s, op).value, p, u)
  {
    hide Good, Resume, XSwap, SwapIn, ExpandTo, NewProc, XFree, XAlloc;
    match op
    case Switch(q) => WaitingSwitch(s, q, p, u);
    case Expand(n) => WaitingExpand(s, n, p, u);
    case Fork(c, v) => WaitingFork(s, c, v, p, u);
    case SwapOut(q) => WaitingSwap(s, q, s.procs[q].size, p, u);
    case SwapBack(q) => WaitingSwapIn(s, q, p, u);
    case Exits => WaitingXFree(s, p, u);
    case LeaveText => WaitingXFree(s, p, u);
    case EnterText(ip, sticky, n) => WaitingEnter(s, ip, sticky, n, p, u);
    case Waits(_) | ReadText(_) | Patch(_, _) | Store(_, _) | Untext(_) | Works(_, _, _) => WaitingRest(s, op, p, u);
  }

  /** However the image of a process is swapped, copied and moved while others run, the u-area it
      resumes with is the one it last saved. */
  lemma {:induction false} ResumesAsSaved(s: Sys, ops: seq<Op>, p: nat, u: UArea)
    requires Good(s) && After(s, ops).Some? && Waiting(s, p, u) && Switch(p) !in ops
    ensures var s' := After(s, ops).value;
            Waiting(s', p, u) && (InCore(s', p) ==> Resume(s', p).live == u)
    decreases |ops|
  {
    if ops == [] {
      if InCore(s, p) {
        ResumeKeeps(s, Loaded(s), p);
      }
    } else {
      StepGood(s, ops[0]);
      WaitingStep(s, ops[0], p, u);
      ResumesAsSaved(Step(s, ops[0]).value, ops[1..], p, u);
    }
  }

  // ----- texts ---------------------------------------------------------------------------------

  /** The operation is one that puts something into text t. */
  predicate Writes(s: Sys, op: Op, t: nat) {
    (op.ReadText? || op.Patch? || op.Store?) && s.live.procp < |s.procs| && s.procs[s.live.procp].text == Some(t)
  }

  /** No operation of the run puts anything into text t. */
  predicate Unwritten(s: Sys, ops: seq<Op>, t: nat)
    requires After(s, ops).Some?
    decreases |ops|
  {
    ops == [] || (!Writes(s, ops[0], t) && Unwritten(Step(s, ops[0]).value, ops[1..], t))
  }

  lemma XSwapContent(s: Sys, p: nat, n: nat)
    requires TextInTable(s, p) && n >= s.procs[p].size && XSwap(s, p, n).Some?
    ensures XSwap(s, p, n).value.content == s.content
  {
    hide Alloc, Join, Put, Get;
  }

  lemma MoveContent(s: Sys, op: Op)
    requires Enabled(s, op) && Step(s, op).Some? && (op.Switch? || op.Fork? || op.Expand? || op.SwapOut? || op.SwapBack?)
    ensures Step(s, op).value.content == s.content
  {
    hide Alloc, Join, Put, Get, XSwap;
    var p := s.live.procp;
    if op.SwapOut? {
      XSwapContent(s, op.p, s.procs[op.p].size);
    } else if op.Expand? && op.n > s.procs[p].size && Move(s, op.n) == None {
      XSwapContent(s, p, op.n);
    }
  }

  lemma EnterContent(s: Sys, ip: nat, sticky: bool, n: nat)
    requires s.live.procp < |s.procs| && XAlloc(s, ip, sticky, n).Some?
    ensures XAlloc(s, ip, sticky, n).value.content == s.content
  {
    hide Alloc, Join, Put, Get, Lookup, Unused, XSwap;
    var q, t, v := s.live.procp, Lookup(s.texts, ip), Unused(s.texts);
    if t < |s.texts| {
      var a := Attach(s, q, t);
      if UseText(a, t) == None {
        XSwapContent(a, q, a.procs[q].size);
      }
    } else if v < |s.texts| {
      var a := Attach(NewText(s, v, ip, sticky, n).value, q, v);
      if UseText(a, v) == None {
        XSwapContent(a, q, a.procs[q].size);
      }
    }
  }

  lemma XFreeContent(s: Sys)
    requires TextInTable(s, s.live.procp)
    ensures XFree(s).content == s.content
  {
    hide Join, Put, Get;
  }

  lemma {:induction false} ContentStep(s: Sys, op: Op, t: nat)
    requires Enabled(s, op) && Step(s, op).Some? && !Writes(s, op, t)
    ensures var s' := Step(s, op).value;
            (t in s'.content <==> t in s.content) && (t in s.content ==> s'.content[t] == s.content[t])
  {
    hide Join, Put, Get, Resume, XSwap, SwapIn, ExpandTo, NewProc, XFree, XAlloc;
    match op
    case Switch(_) | Fork(_, _) | Expand(_) | SwapOut(_) | SwapBack(_) => MoveContent(s, op);
    case Exits | LeaveText => XFreeContent(s);
    case EnterText(ip, sticky, n) => EnterContent(s, ip, sticky, n);
    case Waits(_) | ReadText(_) | Patch(_, _) | Store(_, _) | Untext(_) | Works(_, _, _) =>
  }

  /** No store without a mark since the text came into core. */
  predicate Clean(s: Sys, t: nat)
    requires t < |s.texts|
  {
    s.texts[t].writ || t !in s.touched
  }

  /** A text keeps its contents through every swap-out and swap-in, whoever runs it: until something
      is put into it again, it is in core with the contents it had. */
  lemma {:induction false} TextComesBack(s: Sys, ops: seq<Op>, t: nat)
    requires Good(s) && After(s, ops).Some? && TextUsed(s, t) && s.texts[t].ready && t in s.content
    requires Unwritten(s, ops, t)
    ensures var s' := After(s, ops).value;
            && t < |s'.texts| && t in s'.content && s'.content[t] == s.content[t]
            && (TextIn(s', t) && s'.texts[t].ready && Clean(s', t) ==> Get(s'.core, s'.texts[t].caddr, s'.texts[t].size) == s.content[t])
    decreases |ops|
  {
    RunGood(s, ops);
    ContentRun(s, ops, t);
    var s' := After(s, ops).value;
    TableSizes(s');
    if TextIn(s', t) && s'.texts[t].ready {
      KeptText(s', t);
    }
  }

  lemma {:induction false} ContentRun(s: Sys, ops: seq<Op>, t: nat)
    requires After(s, ops).Some? && Unwritten(s, ops, t) && t in s.content
    ensures var s' := After(s, ops).value; t in s'.content && s'.content[t] == s.content[t]
    decreases |ops|
  {
    if ops != [] {
      ContentStep(s, ops[0], t);
      ContentRun(Step(s, ops[0]).value, ops[1..], t);
    }
  }

  // ----- stores into texts ---------------------------------------------------------------------

  /** Texts that came into core came clean, and no text was stored into. */
  ghost predicate Fresher(s: Sys, s': Sys) {
    && |s'.texts| == |s.texts| && s'.touched <= s.touched
    && (forall t: nat :: TextIn(s', t) && !TextIn(s, t) ==> t !in s'.touched)
  }

  lemma FresherTrans(a: Sys, b: Sys, c: Sys)
    requires Fresher(a, b) && Fresher(b, c)
    ensures Fresher(a, c)
  {
    hide TextIn;
  }

  lemma FresherDrop(s: Sys, t: nat)
    requires t < |s.texts|
    ensures Fresher(s, XccDec(s, t))
  {
    hide Put, Get, Join;
  }

  lemma FresherUse(s: Sys, t: nat)
    requires t < |s.texts| && UseText(s, t).Some?
    ensures Fresher(s, UseText(s, t).value)
  {
    hide Put, Get, Alloc;
  }

  lemma FresherSwap(s: Sys, p: nat, n: nat)
    requires TextInTable(s, p) && n >= s.procs[p].size && XSwap(s, p, n).Some?
    ensures Fresher(s, XSwap(s, p, n).value)
  {
    hide Put, Get, Alloc, Join, XccDec, TextIn;
    var d := if s.procs[p].text.Some? then XccDec(s, s.procs[p].text.value) else s;
    if s.procs[p].text.Some? { FresherDrop(s, s.procs[p].text.value); }
    assert Fresher(d, XSwap(s, p, n).value) by { SameTexts(d, XSwap(s, p, n).value); }
    FresherTrans(s, d, XSwap(s, p, n).value);
  }

  lemma SameTexts(s: Sys, s': Sys)
    requires s'.texts == s.texts && s'.touched == s.touched
    ensures Fresher(s, s')
  {
  }

  lemma FresherSwapIn(s: Sys, p: nat)
    requires TextInTable(s, p) && SwapIn(s, p).Some?
    ensures Fresher(s, SwapIn(s, p).value)
  {
    hide Put, Get, Alloc, Join, UseText, TextIn;
    var r := ReadIn(s, p).value;
    SameTexts(s, r);
    if s.procs[p].text.Some? {
      FresherUse(r, s.procs[p].text.value);
      FresherTrans(s, r, SwapIn(s, p).value);
    }
  }

  lemma FresherFork(s: Sys, c: nat, u: UArea)
    requires Good(s) && Enabled(s, Fork(c, u)) && NewProc(s, c, u).Some?
    ensures Fresher(s, NewProc(s, c, u).value)
  {
    hide Put, Get, Alloc, CoreShared, SwapShared, HomesKept, TextsKept, Counted;
    var p := s.live.procp;
    if s.procs[p].text.Some? {
      assert TextIn(s, s.procs[p].text.value) by { UsersHaveText(s, Loaded(s), p); }
    }
  }

  lemma FresherXFree(s: Sys)
    requires TextInTable(s, s.live.procp)
    ensures Fresher(s, XFree(s))
  {
    hide Put, Get, Join;
  }

  lemma FresherEnter(s: Sys, ip: nat, sticky: bool, n: nat)
    requires s.live.procp < |s.procs| && XAlloc(s, ip, sticky, n).Some?
    ensures Fresher(s, XAlloc(s, ip, sticky, n).value)
  {
    hide Alloc, Join, Put, Get, Lookup, Unused, XSwap, UseText;
    var q, t, v := s.live.procp, Lookup(s.texts, ip), Unused(s.texts);
    if t < |s.texts| {
      var a := Attach(s, q, t);
      assert Fresher(s, a);
      FresherIn(s, a, t);
    } else if v < |s.texts| {
      var a := Attach(NewText(s, v, ip, sticky, n).value, q, v);
      assert Fresher(s, a);
      FresherIn(s, a, v);
    }
  }

  lemma FresherIn(s: Sys, a: Sys, t: nat)
    requires Fresher(s, a) && TextInTable(a, a.live.procp) && t < |a.texts| && Enter(a, t).Some?
    ensures Fresher(s, Enter(a, t).value)
  {
    hide TextIn, UseText, XSwap;
    if UseText(a, t).Some? {
      FresherUse(a, t);
    } else {
      FresherSwap(a, a.live.procp, a.procs[a.live.procp].size);
    }
    FresherTrans(s, a, Enter(a, t).value);
  }

  /** Every operation but a store. */
  lemma {:induction false} FresherStep(s: Sys, op: Op)
    requires Good(s) && Enabled(s, op) && Step(s, op).Some? && !op.Store?
    ensures Fresher(s, Step(s, op).value)
  {
    hide Good, Join, Put, Get, XSwap, SwapIn, NewProc, XFree, XAlloc, Resume, Move, Shrink;
    match op
    case Switch(q) => SameTexts(s, Step(s, op).value) by { ResumeTexts(s, q); }
    case Fork(c, u) => FresherFork(s, c, u);
    case Expand(n) => FresherExpand(s, n);
    case SwapOut(p) => FresherSwap(s, p, s.procs[p].size);
    case SwapBack(p) => FresherSwapIn(s, p);
    case Exits | LeaveText => FresherXFree(s);
    case EnterText(ip, sticky, n) => FresherEnter(s, ip, sticky, n);
    case Waits(_) | ReadText(_) | Patch(_, _) | Untext(_) | Works(_, _, _) =>
  }

  lemma ResumeTexts(s: Sys, q: nat)
    requires q < |s.procs|
    ensures Resume(s, q).texts == s.texts && Resume(s, q).touched == s.touched
  {
    hide Put, Get;
  }

  lemma FresherExpand(s: Sys, n: nat)
    requires TextInTable(s, s.live.procp) && s.procs[s.live.procp].size > 0 && ExpandTo(s, n).Some?
    ensures Fresher(s, ExpandTo(s, n).value)
  {
    hide Join, Put, Get, XSwap, Alloc;
    var p := s.live.procp;
    if n > s.procs[p].size && Move(s, n) == None {
      FresherSwap(s, p, n);
    }
  }

  /** Text t is out of core at some point of the run. */
  predicate Leaves(s: Sys, ops: seq<Op>, t: nat)
    requires After(s, ops).Some?
    decreases |ops|
  {
    !TextIn(s, t) || (ops != [] && Leaves(Step(s, ops[0]).value, ops[1..], t))
  }

  /** Once out of core, a text that nobody stores into is clean whenever it is in core. */
  lemma {:induction false} StaysClean(s: Sys, ops: seq<Op>, t: nat)
    requires Good(s) && After(s, ops).Some? && Unwritten(s, ops, t) && t < NTEXT
    requires TextIn(s, t) && t in s.touched ==> Leaves(s, ops, t)
    ensures var s' := After(s, ops).value; TextIn(s', t) ==> t !in s'.touched
    decreases |ops|
  {
    if ops != [] {
      var op, s1 := ops[0], Step(s, ops[0]).value;
      StepGood(s, op);
      if op.Store? {
        StoreElsewhere(s, op, t);
      } else {
        FresherStep(s, op);
      }
      StaysClean(s1, ops[1..], t);
    }
  }

  lemma StoreElsewhere(s: Sys, op: Op, t: nat)
    requires Enabled(s, op) && op.Store? && !Writes(s, op, t)
    ensures var s' := Step(s, op).value; (t in s'.touched <==> t in s.touched) && (TextIn(s', t) <==> TextIn(s, t))
  {
    hide Put, Get;
  }

  /** A text that leaves core and comes back, with nobody storing into it meanwhile, is the text that left
      exactly when XWRIT marked it or it was the same as its copy in the paging store: a store without a
      mark is lost, and nothing else ever is. */
  lemma {:induction false} ComesBackIff(s: Sys, ops: seq<Op>, t: nat)
    requires Good(s) && After(s, ops).Some? && TextIn(s, t) && s.texts[t].ready && Unwritten(s, ops, t) && Leaves(s, ops, t)
    requires var s' := After(s, ops).value; TextIn(s', t) && s'.texts[t].ready
    ensures var s', x := After(s, ops).value, s.texts[t];
      && t in s.content && Get(s'.core, s'.texts[t].caddr, s'.texts[t].size) == s.content[t]
      && (Get(s'.core, s'.texts[t].caddr, s'.texts[t].size) == Get(s.core, x.caddr, x.size) <==>
          x.writ || Get(s.core, x.caddr, x.size) == Get(s.swap, x.daddr, x.size))
  {
    hide Step, Get;
    TableSizes(s);
    assert TextKept(s, t) by { KeptHere(s, t); }
    TextComesBack(s, ops, t);
    StaysClean(s, ops, t);
  }

  lemma KeptHere(s: Sys, t: nat)
    requires Good(s) && TextUsed(s, t) && s.texts[t].ready
    ensures TextKept(s, t)
  {
    hide Get;
  }

  // ----- counts --------------------------------------------------------------------------------

  /** The processes attached to text t. */
  function Users(ps: seq<Proc>, t: nat): set<nat> {
    set p: nat | p < |ps| && Attached(ps[p], t)
  }

  function CoreUsers(ps: seq<Proc>, t: nat): set<nat> {
    set p: nat | p < |ps| && Attached(ps[p], t) && ps[p].load
  }

  lemma {:induction false} RefsAre(ps: seq<Proc>, t: nat)
    ensures Refs(ps, t) == |Users(ps, t)|
  {
    if ps != [] {
      var n := |ps| - 1;
      RefsAre(ps[..n], t);
      assert Users(ps, t) == if Attached(ps[n], t) then Users(ps[..n], t) + {n} else Users(ps[..n], t);
    }
  }

  lemma {:induction false} RefsInAre(ps: seq<Proc>, users: set<nat>, t: nat)
    requires forall p: nat :: p < |ps| ==> (p in users <==> Alive(ps[p]) && ps[p].load)
    ensures RefsIn(ps, users, t) == |CoreUsers(ps, t)|
  {
    if ps != [] {
      var n := |ps| - 1;
      RefsInAre(ps[..n], users, t);
      assert CoreUsers(ps, t) == if Attached(ps[n], t) && ps[n].load then CoreUsers(ps[..n], t) + {n} else CoreUsers(ps[..n], t);
    }
  }

  /** In every state a run reaches, x_count is the number of processes attached to a text and x_ccount
      the number of those in core; the text holds core exactly when somebody in core uses it. */
  lemma {:induction false} CountsCount(s: Sys, ops: seq<Op>, t: nat)
    requires Good(s) && After(s, ops).Some? && TextUsed(After(s, ops).value, t)
    ensures var s' := After(s, ops).value;
            && s'.texts[t].count == |Users(s'.procs, t)| && s'.texts[t].ccount == |CoreUsers(s'.procs, t)|
            && ((exists x :: CoreHeld(s', Text(t), x)) <==> CoreUsers(s'.procs, t) != {})
  {
    RunGood(s, ops);
    var s' := After(s, ops).value;
    hide CoreShared, SwapShared, HomesKept, TextsKept, Refs, RefsIn;
    assert TextCounted(s'.procs, s'.texts[t], Loaded(s'), t);
    RefsAre(s'.procs, t);
    RefsInAre(s'.procs, Loaded(s'), t);
    var x := s'.texts[t];
    assert x.size > 0;
    assert Inside(x.caddr, x.size, x.caddr);
    assert TextIn(s', t) ==> CoreHeld(s', Text(t), x.caddr);
    assert CoreUsers(s'.procs, t) == {} <==> |CoreUsers(s'.procs, t)| == 0;
  }

  // ----- the beginning -------------------------------------------------------------------------

  /** The state main() sets up: process 0 with its u-area home in page 32, n pages above it free, and
      m pages of swap space. */
  function Boot(n: nat, m: nat, u: UArea): Sys {
    Sys(32, Clear(33 + n), if n == 0 then [] else [Run(n, 33)], 1, Clear(1 + m), if m == 0 then [] else [Run(m, 1)],
        seq(NPROC, p => if p == 0 then Proc(Runs, true, 32, 1, None) else Proc(Null, false, 0, 0, None)),
        seq(NTEXT, t => TextSeg(false, 0, false, 0, 0, 0, 0, 0, false, false)),
        u, 32, map[], map[], {})
  }

  lemma {:induction false} NoRefs(ps: seq<Proc>, t: nat)
    requires forall p: nat :: p < |ps| ==> ps[p].text == None
    ensures Refs(ps, t) == 0
  {
    if ps != [] {
      NoRefs(ps[..|ps| - 1], t);
    }
  }

  lemma {:induction false} BootCore(n: nat, m: nat, u: UArea)
    ensures CoreShared(Boot(n, m, u)) && SwapShared(Boot(n, m, u))
  {
    var s := Boot(n, m, u);
    assert n > 0 ==> s.coremap[0] == Run(n, 33);
    assert m > 0 ==> s.swapmap[0] == Run(m, 1);
    assert forall o, x :: CoreHolding(s)(o, x) <==> o == Image(0) && x == 32;
    assert CoreHolding(s)(Image(0), 32);
    assert forall o, x :: !SwapHolding(s)(o, x);
    forall x ensures Free(s.coremap, x) <==> 33 <= x < 33 + n {
      assert 33 <= x < 33 + n ==> Covers(s.coremap[0], x);
    }
    forall x ensures Free(s.swapmap, x) <==> 1 <= x < 1 + m {
      assert 1 <= x < 1 + m ==> Covers(s.swapmap[0], x);
    }
  }

  lemma {:induction false} BootGood(n: nat, m: nat, u: UArea)
    requires u.procp == 0
    ensures Good(Boot(n, m, u))
  {
    var s := Boot(n, m, u);
    BootCore(n, m, u);
    hide CoreShared, SwapShared, Refs, RefsIn;
    forall t: nat | t < NTEXT ensures TextCounted(s.procs, s.texts[t], Loaded(s), t) {
      NoRefs(s.procs, t);
    }
  }

  /** From boot on, in any run, uhome is safe, space is conserved and counts are exact. */
  lemma {:induction false} AlwaysGood(n: nat, m: nat, u: UArea, ops: seq<Op>)
    requires u.procp == 0 && After(Boot(n, m, u), ops).Some?
    ensures Good(After(Boot(n, m, u), ops).value) && HomeIsOwn(After(Boot(n, m, u), ops).value)
  {
    BootGood(n, m, u);
    RunGood(Boot(n, m, u), ops);
  }
}
