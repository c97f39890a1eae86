/** Whole runs of the kernel's memory operations, in any order. */
module ProcRun {
  import opened Common
  import opened ResourceMap
  import opened Space
  import opened Pages
  import opened ProcMem
  import opened ProcSteps
  import opened ProcSwap
  import opened ProcOps
  import opened ProcText
  import opened ProcExec

  /** What the kernel and the processes do to memory.  Each is taken as one step, though swap() sleeps inside
      those that move images and texts: the kernel keeps others off what is in transit with SLOCK, XLOCK and
      SIDL, which are not modelled. */
  datatype Op =
    | Switch(q: nat)                                  // resume() of a process in core
    | Fork(child: nat, u: UArea)                      // newproc()
    | Expand(n: nat)                                  // expand()
    | SwapOut(p: nat)                                 // sched() picks a victim
    | SwapBack(p: nat)                                // sched() brings a process in
    | Exits                                           // exit()
    | Waits(z: nat)                                   // wait() finds a zombie
    | LeaveText                                       // xfree()
    | EnterText(ip: nat, sticky: bool, n: nat)        // xalloc()
    | ReadText(b: seq<Page>)                          // xalloc() reads a new text from its file
    | Patch(k: nat, w: Page)                          // ptrace() writes into the text
    | Store(k: nat, w: Page)                          // the running process stores into its text
    | Untext(t: nat)                                  // xuntext()
    | Works(u: UArea, k: nat, w: Page)                // the running process changes itself

  /** The processes in core. */
  function Loaded(s: Sys): set<nat> {
    set p: nat | p < |s.procs| && InCore(s, p)
  }

  /** The invariant at the points between operations: exactly the processes in core are counted. */
  ghost predicate Good(s: Sys) {
    Inv(s, Loaded(s))
  }

  /** expand(n): shrink in place, move, or go out to wait for room. */
  function ExpandTo(s: Sys, n: nat): Option<Sys>
    requires TextInTable(s, s.live.procp) && s.procs[s.live.procp].size > 0
  {
    var p := s.live.procp;
    if n <= s.procs[p].size then Some(Shrink(s, n))
    else
      match Move(s, n)
      case Some(s') => Some(s')
      case None => if p == 0 then None else XSwap(s, p, n)
  }

  /** The text of the running process, if there is one. */
  predicate HasText(s: Sys) {
    s.live.procp < |s.procs| && s.procs[s.live.procp].text.Some? && TextIn(s, s.procs[s.live.procp].text.value)
  }

  /** When the operation can happen: what the code tests or is called under. */
  predicate Enabled(s: Sys, op: Op) {
    && TextInTable(s, s.live.procp)
    && (op.Switch? || op.SwapOut? || op.SwapBack? || op.Untext? || (Running(s) && s.procs[s.live.procp].size > 0))
    && match op
       case Switch(q) => InCore(s, q)
       case Fork(c, u) => c < |s.procs| && s.procs[c].stat == Null && u.procp == s.live.procp
       case Expand(n) => n > 0
       case SwapOut(p) => s.live.procp == 0 && InCore(s, p) && p != 0 && TextInTable(s, p)
       case SwapBack(p) => s.live.procp == 0 && Out(s, p) && TextInTable(s, p)
       case Exits => s.live.procp != 0
       case Waits(z) => z < |s.procs| && s.procs[z].stat == Zombie
       case LeaveText => true
       case EnterText(ip, sticky, n) => s.live.procp != 0 && s.procs[s.live.procp].text == None && n > 0
       case ReadText(b) => HasText(s) && |b| == s.texts[s.procs[s.live.procp].text.value].size
       case Patch(k, w) =>
         && HasText(s)
         && var x := s.texts[s.procs[s.live.procp].text.value];
            k < x.size && x.count == 1 && !x.sticky
       case Store(k, w) =>
         && HasText(s)
         && var x := s.texts[s.procs[s.live.procp].text.value];
            k < x.size && x.ready
       case Untext(t) => TextUsed(s, t)
       case Works(u, k, w) => u.procp == s.live.procp && 0 < k < s.procs[s.live.procp].size
  }

  /** What the operation does.  None: panic, out of swap space; or no room to swap in. */
  function Step(s: Sys, op: Op): Option<Sys>
    requires Enabled(s, op)
  {
    match op
    case Switch(q) => Some(Resume(s, q))
    case Fork(c, u) => NewProc(s, c, u)
    case Expand(n) => ExpandTo(s, n)
    case SwapOut(p) => XSwap(s, p, s.procs[p].size)
    case SwapBack(p) => SwapIn(s, p)
    case Exits => Some(Exit(s))
    case Waits(z) => Some(Reap(s, z))
    case LeaveText => Some(XFree(s))
    case EnterText(ip, sticky, n) => XAlloc(s, ip, sticky, n)
    case ReadText(b) => Some(LoadText(s, s.procs[s.live.procp].text.value, b))
    case Patch(k, w) => Some(PatchText(s, s.procs[s.live.procp].text.value, k, w))
    case Store(k, w) => Some(StoreText(s, s.procs[s.live.procp].text.value, k, w))
    case Untext(t) => Some(XUntext(s, t))
    case Works(u, k, w) => Some(Work(s, u, k, w))
  }

  /** The state after a run; None when some operation cannot happen or panics. */
  function After(s: Sys, ops: seq<Op>): Option<Sys>
    decreases |ops|
  {
    if ops == [] then Some(s)
    else if !Enabled(s, ops[0]) then None
    else
      match Step(s, ops[0])
      case None => None
      case Some(s') => After(s', ops[1..])
  }

  // ----- every operation keeps the invariant ---------------------------------------------------

  /** Only p's place changed. */
  predicate OnlyProc(s: Sys, s': Sys, p: nat) {
    |s'.procs| == |s.procs| && forall i: nat :: i < |s.procs| && i != p ==> s'.procs[i] == s.procs[i]
  }

  lemma {:induction false} LoadedStep(s: Sys, s': Sys, p: nat, users: set<nat>)
    requires OnlyProc(s, s', p) && p < |s.procs|
    requires users == if InCore(s', p) then Loaded(s) + {p} else Loaded(s) - {p}
    ensures Loaded(s') == users
  {
    assert forall i: nat :: i in Loaded(s') <==> i in users;
  }

  lemma ResumeFrame(s: Sys, q: nat)
    requires q < |s.procs|
    ensures Resume(s, q).procs == s.procs
  {
  }

  lemma {:induction false} SwitchGood(s: Sys, q: nat)
    requires Good(s) && InCore(s, q)
    ensures Good(Resume(s, q))
  {
    ResumeKeeps(s, Loaded(s), q);
    hide Inv, Resume;
    ResumeFrame(s, q);
    assert Loaded(Resume(s, q)) == Loaded(s);
  }

  lemma CreateFrame(s: Sys, c: nat, u: UArea)
    requires s.live.procp < |s.procs| && c < |s.procs| && TextInTable(s, s.live.procp) && NewProc(s, c, u).Some?
    ensures var s' := NewProc(s, c, u).value; OnlyProc(s, s', c) && s'.procs[c].stat == Runs
  {
    hide Alloc, Put, Get;
  }

  lemma {:induction false} ForkGood(s: Sys, c: nat, u: UArea)
    requires Good(s) && Enabled(s, Fork(c, u)) && NewProc(s, c, u).Some?
    ensures Good(NewProc(s, c, u).value)
  {
    hide Inv, NewProc;
    TableSizes(s);
    NewProcKeeps(s, Loaded(s), c, u);
    CreateFrame(s, c, u);
    var s' := NewProc(s, c, u).value;
    var users := if s'.procs[c].load then Loaded(s) + {c} else Loaded(s);
    assert c !in Loaded(s);
    assert users == if InCore(s', c) then Loaded(s) + {c} else Loaded(s) - {c};
    LoadedStep(s, s', c, users);
  }

  lemma XSwapFrame(s: Sys, p: nat, n: nat)
    requires TextInTable(s, p) && n >= s.procs[p].size && XSwap(s, p, n).Some?
    ensures var s' := XSwap(s, p, n).value; OnlyProc(s, s', p) && !s'.procs[p].load && s'.live == s.live
  {
    hide Alloc, Put, Get, Join;
  }

  lemma {:induction false} SwapOutGood(s: Sys, p: nat, n: nat)
    requires Good(s) && InCore(s, p) && p != 0 && TextInTable(s, p) && n >= s.procs[p].size && XSwap(s, p, n).Some?
    ensures Good(XSwap(s, p, n).value)
  {
    XSwapKeeps(s, Loaded(s), p, n);
    XSwapFrame(s, p, n);
    hide Inv, XSwap;
    LoadedStep(s, XSwap(s, p, n).value, p, Loaded(s) - {p});
  }

  lemma {:induction false} ExpandGood(s: Sys, n: nat)
    requires Good(s) && Enabled(s, Expand(n)) && ExpandTo(s, n).Some?
    ensures Good(ExpandTo(s, n).value)
  {
    hide Inv, XSwap, Alloc, Put, Get, Join;
    var p, s' := s.live.procp, ExpandTo(s, n).value;
    if n <= s.procs[p].size {
      ShrinkKeeps(s, Loaded(s), n);
      LoadedStep(s, s', p, Loaded(s));
    } else if Move(s, n).Some? {
      MoveKeeps(s, Loaded(s), n);
      LoadedStep(s, s', p, Loaded(s));
    } else {
      SwapOutGood(s, p, n);
    }
  }

  lemma SwapInFrame(s: Sys, p: nat)
    requires TextInTable(s, p) && SwapIn(s, p).Some?
    ensures var s' := SwapIn(s, p).value; OnlyProc(s, s', p) && s'.procs[p].load && s'.procs[p].stat == s.procs[p].stat
  {
    hide Alloc, Put, Get, Join;
  }

  lemma {:induction false} SwapBackGood(s: Sys, p: nat)
    requires Good(s) && Enabled(s, SwapBack(p)) && SwapIn(s, p).Some?
    ensures Good(SwapIn(s, p).value)
  {
    NotLive(s, p);
    SwapInKeeps(s, Loaded(s), p);
    SwapInFrame(s, p);
    hide Inv, SwapIn;
    LoadedStep(s, SwapIn(s, p).value, p, Loaded(s) + {p});
  }

  lemma NotLive(s: Sys, p: nat)
    requires Good(s) && s.live.procp == 0 && Out(s, p)
    ensures p != s.live.procp
  {
    hide CoreShared, SwapShared, Counted, HomesKept, TextsKept;
  }

  lemma {:induction false} ExitGood(s: Sys)
    requires Good(s) && Enabled(s, Exits)
    ensures Good(Exit(s))
  {
    var p := s.live.procp;
    XFreeKeeps(s, Loaded(s));
    ExitKeeps(s, Loaded(s));
    hide Inv, XFree;
    LoadedStep(s, Exit(s), p, Loaded(s) - {p});
  }

  lemma {:induction false} ReapGood(s: Sys, z: nat)
    requires Good(s) && z < NPROC && s.procs[z].stat == Zombie
    ensures Good(Reap(s, z))
  {
    ReapKeeps(s, Loaded(s), z);
    hide Inv;
    assert Loaded(s) - {z} == Loaded(s);
    LoadedStep(s, Reap(s, z), z, Loaded(s));
  }

  lemma {:induction false} LeaveGood(s: Sys)
    requires Good(s) && Enabled(s, LeaveText)
    ensures Good(XFree(s))
  {
    XFreeKeeps(s, Loaded(s));
    hide Inv, XFree;
    LoadedStep(s, XFree(s), s.live.procp, Loaded(s));
  }

  lemma EnterFrame(s: Sys, ip: nat, sticky: bool, n: nat)
    requires s.live.procp < |s.procs| && XAlloc(s, ip, sticky, n).Some?
    ensures var s', p := XAlloc(s, ip, sticky, n).value, s.live.procp;
            OnlyProc(s, s', p) && s'.procs[p].stat == s.procs[p].stat
  {
    hide Alloc, Put, Get, Join, Lookup, Unused;
  }

  lemma {:induction false} EnterGood(s: Sys, ip: nat, sticky: bool, n: nat)
    requires Good(s) && Enabled(s, EnterText(ip, sticky, n)) && XAlloc(s, ip, sticky, n).Some?
    ensures Good(XAlloc(s, ip, sticky, n).value)
  {
    hide Inv, XAlloc, Lookup, Unused;
    var s', p := XAlloc(s, ip, sticky, n).value, s.live.procp;
    XAllocKeeps(s, Loaded(s), ip, sticky, n);
    EnterFrame(s, ip, sticky, n);
    assert Loaded(s) + {p} == Loaded(s);
    LoadedStep(s, s', p, if s'.procs[p].load then Loaded(s) else Loaded(s) - {p});
  }

  /** An operation that leaves the process table alone. */
  lemma SameLoaded(s: Sys, s': Sys)
    requires s'.procs == s.procs
    ensures Loaded(s') == Loaded(s)
  {
    assert forall p: nat :: InCore(s', p) <==> InCore(s, p);
  }

  lemma {:induction false} RestGood(s: Sys, op: Op)
    requires Good(s) && Enabled(s, op) && (op.ReadText? || op.Patch? || op.Store? || op.Untext? || op.Works?)
    ensures Good(Step(s, op).value)
  {
    hide Inv, Join, Put, Get;
    match op
    case ReadText(b) => LoadTextKeeps(s, Loaded(s), s.procs[s.live.procp].text.value, b); SameLoaded(s, Step(s, op).value);
    case Patch(k, w) => PatchTextKeeps(s, Loaded(s), s.procs[s.live.procp].text.value, k, w); SameLoaded(s, Step(s, op).value);
    case Store(k, w) => StoreTextKeeps(s, Loaded(s), s.procs[s.live.procp].text.value, k, w); SameLoaded(s, Step(s, op).value);
    case Untext(t) => XUntextKeeps(s, Loaded(s), t); SameLoaded(s, Step(s, op).value);
    case Works(u, k, w) => WorkKeeps(s, Loaded(s), u, k, w); SameLoaded(s, Step(s, op).value);
  }

  /** Every operation, whatever arm it takes, keeps the invariant. */
  lemma {:induction false} StepGood(s: Sys, op: Op)
    requires Good(s) && Enabled(s, op) && Step(s, op).Some?
    ensures Good(Step(s, op).value)
  {
    TableSizes(s);
    hide Good, Resume, NewProc, ExpandTo, XSwap, SwapIn, Exit, Reap, XFree, XAlloc, LoadText, PatchText, StoreText, XUntext, Work;
    match op
    case Switch(q) => SwitchGood(s, q);
    case Fork(c, u) => ForkGood(s, c, u);
    case Expand(n) => ExpandGood(s, n);
    case SwapOut(p) => SwapOutGood(s, p, s.procs[p].size);
    case SwapBack(p) => SwapBackGood(s, p);
    case Exits => ExitGood(s);
    case Waits(z) => ReapGood(s, z);
    case LeaveText => LeaveGood(s);
    case EnterText(ip, sticky, n) => EnterGood(s, ip, sticky, n);
    case ReadText(_) | Patch(_, _) | Store(_, _) | Untext(_) | Works(_, _, _) => RestGood(s, op);
  }

  lemma TableSizes(s: Sys)
    requires Good(s)
    ensures |s.procs| == NPROC && |s.texts| == NTEXT
  {
  }

  /** What the invariant says at any point of any run: uhome is nothing, or the head of an allocated
      image that belongs to the process whose u-area is live. */
  predicate HomeIsOwn(s: Sys) {
    || s.uhome == NOUHOME
    || (IsLive(s, s.live.procp) && s.uhome == s.procs[s.live.procp].addr && !Free(s.coremap, s.uhome))
  }

  /** Safety of whole runs. */
  lemma {:induction false} RunGood(s: Sys, ops: seq<Op>)
    requires Good(s) && After(s, ops).Some?
    ensures Good(After(s, ops).value) && HomeIsOwn(After(s, ops).value)
    decreases |ops|
  {
    if ops == [] {
      if s.uhome != NOUHOME {
        FlushHitsOwnImage(s, Loaded(s));
      }
    } else {
      StepGood(s, ops[0]);
      RunGood(Step(s, ops[0]).value, ops[1..]);
    }
  }
}
