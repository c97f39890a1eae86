/** Whose memory is whose: nothing the kernel or another process does changes the memory of a process
    that is not running, wherever it is moved. */
module ProcImages {
  import opened Common
  import opened ResourceMap
  import opened Space
  import opened Pages
  import opened ProcMem
  import opened ProcSteps
  import opened ProcSwap
  import opened ProcOps
  import opened ProcText
  import opened ProcExec
  import opened ProcRun
  import opened ProcLaws

  /** The data and stack of process p, in core or in the paging store: its image above the u page. */
  function Body(s: Sys, p: nat): seq<Page>
    requires p < |s.procs|
  {
    var q := s.procs[p];
    Get(if q.load then s.core else s.swap, q.addr + 1, if q.size == 0 then 0 else q.size - 1)
  }

  /** Process p is where it was. */
  predicate Stays(s: Sys, s': Sys, p: nat) {
    && p < |s.procs| && p < |s'.procs| && s'.procs[p].load == s.procs[p].load
    && s'.procs[p].addr == s.procs[p].addr && s'.procs[p].size == s.procs[p].size
  }

  lemma {:induction false} Undisturbed(s: Sys, s': Sys, users: set<nat>, o: Owner, p: nat)
    requires Inv(s, users) && Stays(s, s', p) && Alive(s.procs[p]) && Image(p) != o
    requires CoreSame(s, s', o) && SwapSame(s, s', o)
    ensures Body(s', p) == Body(s, p)
  {
    hide CoreShared, SwapShared, Counted, HomesKept, TextsKept;
    var q := s.procs[p];
    ImageRange(s, p);
    forall k: nat | k < q.size - 1 ensures Body(s', p)[k] == Body(s, p)[k] {
      if q.load {
        assert CoreHeld(s, Image(p), q.addr + 1 + k);
      } else {
        assert SwapHeld(s, Image(p), q.addr + 1 + k);
      }
    }
  }

  /** A page that is some image's u page is in nobody's body. */
  lemma {:induction false} HeadWritten(s: Sys, s': Sys, users: set<nat>, h: nat, b: seq<Page>, p: nat)
    requires Inv(s, users) && InCore(s, h) && p < NPROC && Alive(s.procs[p]) && |b| == 1
    requires s'.core == Put(s.core, s.procs[h].addr, b) && s'.swap == s.swap && Stays(s, s', p)
    ensures Body(s', p) == Body(s, p)
  {
    hide CoreShared, SwapShared, Counted, HomesKept, TextsKept;
    if p == h {
      assert Body(s', p) == Body(s, p);
    } else {
      ImageRange(s, h);
      WriteCore(s, s', Image(h), s.procs[h].addr, b);
      Undisturbed(s, s', users, Image(h), p);
    }
  }

  lemma {:induction false} FlushBody(s: Sys, users: set<nat>, p: nat)
    requires Inv(s, users) && p < NPROC && Alive(s.procs[p])
    ensures Body(Flush(s), p) == Body(s, p)
  {
    hide CoreShared, SwapShared, Counted, HomesKept, TextsKept, Put, Get;
    if s.uhome != NOUHOME {
      FlushHitsOwnImage(s, users);
      HeadWritten(s, Flush(s), users, s.live.procp, [Home(s.live)], p);
    }
  }

  lemma {:induction false} SwitchBody(s: Sys, users: set<nat>, q: nat, p: nat)
    requires Inv(s, users) && InCore(s, q) && p < NPROC && Alive(s.procs[p])
    ensures p < |Resume(s, q).procs| && Body(Resume(s, q), p) == Body(s, p)
  {
    hide CoreShared, SwapShared, Counted, HomesKept, TextsKept, Put, Get;
    FlushBody(s, users, p);
  }

  lemma {:induction false} DropBody(s: Sys, users: set<nat>, t: nat, p: nat)
    requires Inv(s, users) && TextUsed(s, t) && p < NPROC && Alive(s.procs[p])
    ensures Body(XccDec(s, t), p) == Body(s, p)
  {
    hide CoreShared, SwapShared, Counted, HomesKept, TextsKept, Join;
    var s', x := XccDec(s, t), s.texts[t];
    if x.ccount == 1 && x.writ {
      WriteSwap(s, s', Text(t), x.daddr, Get(s.core, x.caddr, x.size));
    }
    Undisturbed(s, s', users, Text(t), p);
  }

  lemma XccDecTables(s: Sys, t: nat)
    requires t < |s.texts|
    ensures XccDec(s, t).procs == s.procs && |XccDec(s, t).texts| == |s.texts|
    ensures XccDec(s, t).live == s.live && XccDec(s, t).uhome == s.uhome
  {
    hide Put, Get, Join;
  }

  lemma {:induction false} UseBody(s: Sys, users: set<nat>, t: nat, p: nat)
    requires Inv(s, users) && TextUsed(s, t) && p < NPROC && Alive(s.procs[p]) && UseText(s, t).Some?
    ensures Body(UseText(s, t).value, p) == Body(s, p)
  {
    UseShares(s, users, t);
    hide CoreShared, SwapShared, Counted, HomesKept, TextsKept, Alloc, Put, Get;
    Undisturbed(s, UseText(s, t).value, users, Text(t), p);
  }

  /** An image written out is padded with zero pages to its new size; the others stay. */
  lemma {:induction false} OutBody(s: Sys, users: set<nat>, q: nat, n: nat, p: nat)
    requires Inv(s, users) && InCore(s, q) && n >= s.procs[q].size && p < NPROC && Alive(s.procs[p]) && WriteOut(s, q, n).Some?
    ensures var s' := WriteOut(s, q, n).value;
            p < |s'.procs| && Body(s', p) == Body(s, p) + Clear(if p == q then n - s.procs[q].size else 0)
  {
    hide CoreShared, SwapShared, Counted, HomesKept, TextsKept, Alloc, Join, Put, Get;
    var s', d := WriteOut(s, q, n).value, s.procs[q];
    if p == q {
      OutWrites(s, users, q, n);
      Tail(s'.swap, s'.procs[p].addr, n, s.core, d.addr, d.size);
    } else {
      OutShares(s, users, q, n);
      Undisturbed(s, s', users, Image(q), p);
      assert Body(s, p) + Clear(0) == Body(s, p);
    }
  }

  lemma {:induction false} Tail(mem: seq<Page>, a: nat, n: nat, mem': seq<Page>, a': nat, n': nat)
    requires 0 < n' <= n && Get(mem, a, n) == Get(mem', a', n') + Clear(n - n')
    ensures Get(mem, a + 1, n - 1) == Get(mem', a' + 1, n' - 1) + Clear(n - n')
  {
    var x, y := Get(mem, a, n), Get(mem', a', n');
    hide Clear;
    assert Get(mem, a + 1, n - 1) == x[1..];
    assert Get(mem', a' + 1, n' - 1) == y[1..];
    assert (y + Clear(n - n'))[1..] == y[1..] + Clear(n - n');
  }

  lemma {:induction false} InBody(s: Sys, users: set<nat>, q: nat, p: nat)
    requires Inv(s, users) && Out(s, q) && p < NPROC && Alive(s.procs[p]) && ReadIn(s, q).Some?
    ensures p < |ReadIn(s, q).value.procs| && Body(ReadIn(s, q).value, p) == Body(s, p)
  {
    hide CoreShared, SwapShared, Counted, HomesKept, TextsKept, Alloc, Join, Put, Get;
    InShares(s, users, q);
    var s', d := ReadIn(s, q).value, s.procs[q];
    if p == q {
      assert Get(s.swap, d.addr, d.size) + Clear(0) == Get(s.swap, d.addr, d.size);
      Tail(s'.core, s'.procs[p].addr, d.size, s.swap, d.addr, d.size);
      assert Body(s, p) + Clear(0) == Body(s, p);
    } else {
      Undisturbed(s, s', users, Image(q), p);
    }
  }

  /** Swapping out keeps every body, and pads the one going out. */
  lemma {:induction false} XSwapBody(s: Sys, users: set<nat>, q: nat, n: nat, p: nat)
    requires Inv(s, users) && InCore(s, q) && n >= s.procs[q].size && XSwap(s, q, n).Some?
    requires q in users || s.procs[q].text == None || s.texts[s.procs[q].text.value].ccount == 0
    requires p < NPROC && Alive(s.procs[p])
    ensures var s' := XSwap(s, q, n).value;
            p < |s'.procs| && Body(s', p) == Body(s, p) + Clear(if p == q then n - s.procs[q].size else 0)
  {
    hide CoreShared, SwapShared, Counted, HomesKept, TextsKept, Alloc, Join, HomePage, WriteOut, Body, Put, Get;
    var text := s.procs[q].text;
    if text.Some? && q in users {
      DropKeeps(s, users, q, text.value);
      DropBody(s, users, text.value, p);
      FlushThenOut(XccDec(s, text.value), users - {q}, q, n, p);
    } else {
      FlushThenOut(s, users, q, n, p);
    }
  }

  lemma {:induction false} FlushThenOut(s: Sys, users: set<nat>, q: nat, n: nat, p: nat)
    requires Inv(s, users) && InCore(s, q) && n >= s.procs[q].size && p < NPROC && Alive(s.procs[p])
    ensures var f := if s.procs[q].addr == s.uhome then Flush(s) else s;
            WriteOut(f, q, n).Some? ==>
              var s' := WriteOut(f, q, n).value;
              p < |s'.procs| && Body(s', p) == Body(s, p) + Clear(if p == q then n - s.procs[q].size else 0)
  {
    hide CoreShared, SwapShared, Counted, HomesKept, TextsKept, Alloc, Join, HomePage, WriteOut, Body, Put, Get;
    var f := if s.procs[q].addr == s.uhome then Flush(s) else s;
    if s.procs[q].addr == s.uhome && s.uhome != NOUHOME {
      FlushKeeps(s, users);
      FlushBody(s, users, p);
    }
    if WriteOut(f, q, n).Some? {
      OutBody(f, users, q, n, p);
    }
  }

  lemma {:induction false} SwapInBody(s: Sys, users: set<nat>, q: nat, p: nat)
    requires Inv(s, users) && Out(s, q) && q != s.live.procp && SwapIn(s, q).Some? && p < NPROC && Alive(s.procs[p])
    ensures p < |SwapIn(s, q).value.procs| && Body(SwapIn(s, q).value, p) == Body(s, p)
  {
    hide CoreShared, SwapShared, Counted, HomesKept, TextsKept, Alloc, Join, HomePage, Body, Put, Get, UseText;
    InKeeps(s, users, q);
    InBody(s, users, q, p);
    if s.procs[q].text.Some? {
      UseBody(ReadIn(s, q).value, users, s.procs[q].text.value, p);
    }
  }

  /** Forking keeps every body, and the child's is a copy of the parent's. */
  lemma {:induction false} CreateBody(s: Sys, users: set<nat>, c: nat, b: seq<Page>, text: Option<nat>, inCore: bool, p: nat)
    requires Inv(s, users) && c < NPROC && s.procs[c].stat == Null && b != []
    requires text.Some? ==> TextIn(s, text.value)
    requires Create(s, c, b, text, inCore).Some? && p < NPROC && (Alive(s.procs[p]) || p == c)
    ensures var s' := Create(s, c, b, text, inCore).value;
            p < |s'.procs| && Body(s', p) == if p == c then b[1..] else Body(s, p)
  {
    hide CoreShared, SwapShared, Counted, HomesKept, TextsKept, Alloc, Put, Get;
    var s' := Create(s, c, b, text, inCore).value;
    if inCore {
      CreateInCore(s, users, c, b, text);
    } else {
      CreateOut(s, users, c, b, text);
    }
    if p == c {
      Above(if inCore then s'.core else s'.swap, s'.procs[c].addr, |b|);
    } else {
      Undisturbed(s, s', users, Image(c), p);
    }
  }

  lemma Above(mem: seq<Page>, a: nat, n: nat)
    requires n > 0
    ensures Get(mem, a + 1, n - 1) == Get(mem, a, n)[1..]
  {
  }

  lemma {:induction false} ForkBody(s: Sys, users: set<nat>, c: nat, u: UArea, p: nat)
    requires Inv(s, users) && Running(s) && c < NPROC && s.procs[c].stat == Null && u.procp == s.live.procp
    requires s.live.procp in users && NewProc(s, c, u).Some? && p < NPROC && (Alive(s.procs[p]) || p == c)
    ensures var s' := NewProc(s, c, u).value;
            p < |s'.procs| && Body(s', p) == Body(s, if p == c then s.live.procp else p)
  {
    hide CoreShared, SwapShared, Counted, HomesKept, TextsKept, Alloc, Put, Get;
    var h, f := s.live.procp, Simulate(s, c, u);
    var q := s.procs[h];
    SimulateKeeps(s, users, c, u);
    HeadWritten(s, f, users, h, [Home(u.(procp := c))], if p == c then h else p);
    if q.text.Some? {
      UsersHaveText(s, users, h);
    }
    var b := Get(f.core, q.addr, q.size);
    CreateBody(f, users, c, b, q.text, Alloc(f.coremap, q.size).Some?, p);
    Above(f.core, q.addr, q.size);
  }

  lemma GetPrefix(mem: seq<Page>, a: nat, n: nat, m: nat)
    requires m <= n
    ensures Get(mem, a, n)[..m] == Get(mem, a, m)
  {
  }

  /** Growing by moving keeps what was there; the new pages hold whatever the core held. */
  lemma {:induction false} GrownBody(s: Sys, users: set<nat>, n: nat)
    requires Inv(s, users) && Running(s) && n >= s.procs[s.live.procp].size > 0 && Move(s, n).Some?
    ensures var s', h := Move(s, n).value, s.live.procp;
            h < |s'.procs| && |Body(s, h)| <= |Body(s', h)| == n - 1 && Body(s', h)[..|Body(s, h)|] == Body(s, h)
  {
    hide Inv, Alloc, Join, Put, Get, CoreSame;
    MoveCopies(s, users, n);
    var s' := Move(s, n).value;
    GetPrefix(s'.core, s'.uhome + 1, n - 1, s.procs[s.live.procp].size - 1);
  }

  lemma {:induction false} MoveBody(s: Sys, users: set<nat>, n: nat, p: nat)
    requires Inv(s, users) && Running(s) && n >= s.procs[s.live.procp].size > 0 && Move(s, n).Some?
    requires p < NPROC && Alive(s.procs[p]) && p != s.live.procp
    ensures p < |Move(s, n).value.procs| && Body(Move(s, n).value, p) == Body(s, p)
  {
    hide CoreShared, SwapShared, Counted, HomesKept, TextsKept, Alloc, Join, Put, Get;
    MoveCopies(s, users, n);
    Undisturbed(s, Move(s, n).value, users, Image(s.live.procp), p);
  }

  lemma {:induction false} ShrinkBody(s: Sys, users: set<nat>, n: nat, p: nat)
    requires Inv(s, users) && Running(s) && 0 < n <= s.procs[s.live.procp].size && p < NPROC && Alive(s.procs[p])
    ensures var s', h := Shrink(s, n), s.live.procp;
            p < |s'.procs| && Body(s', p) == if p == h then Body(s, p)[..n - 1] else Body(s, p)
  {
    hide CoreShared, SwapShared, Counted, HomesKept, TextsKept, Join;
    if p == s.live.procp {
      assert Body(Shrink(s, n), p) == Body(s, p)[..n - 1];
    }
  }

  lemma {:induction false} XFreeBody(s: Sys, users: set<nat>, p: nat)
    requires Inv(s, users) && Running(s) && s.live.procp in users && p < NPROC && Alive(s.procs[p])
    ensures TextInTable(s, s.live.procp) && p < |XFree(s).procs| && Body(XFree(s), p) == Body(s, p)
  {
    hide CoreShared, SwapShared, Counted, HomesKept, TextsKept, Join, Put, Get, XccDec;
    var h := s.live.procp;
    if s.procs[h].text.Some? {
      var t := s.procs[h].text.value;
      SomeCount(s, users, h, t);
      DropBody(s, users, t, p);
      DetachLater(s, h, t);
      XccDecTables(s, t);
    }
  }

  lemma {:induction false} EnterBody(s: Sys, users: set<nat>, t: nat, p: nat)
    requires Inv(s, users) && Running(s) && s.live.procp !in users && p < NPROC && Alive(s.procs[p])
    requires Attached(s.procs[s.live.procp], t) && Enter(s, t).Some?
    ensures p < |Enter(s, t).value.procs| && Body(Enter(s, t).value, p) == Body(s, p)
  {
    hide CoreShared, SwapShared, Counted, HomesKept, TextsKept, AtHome, Alloc, Join, Put, Get, Body;
    var h := s.live.procp;
    if UseText(s, t).Some? {
      UseBody(s, users, t, p);
    } else {
      XSwapBody(s, users, h, s.procs[h].size, p);
      assert Body(s, p) + Clear(0) == Body(s, p);
    }
  }

  lemma {:induction false} XAllocBody(s: Sys, users: set<nat>, ip: nat, sticky: bool, n: nat, p: nat)
    requires Inv(s, users) && Running(s) && s.live.procp != 0 && s.live.procp in users && n > 0
    requires s.procs[s.live.procp].text == None && XAlloc(s, ip, sticky, n).Some? && p < NPROC && Alive(s.procs[p])
    ensures var s' := XAlloc(s, ip, sticky, n).value; p < |s'.procs| && Body(s', p) == Body(s, p)
  {
    hide CoreShared, SwapShared, Counted, HomesKept, TextsKept, AtHome, Alloc, Join, Enter, Lookup, Unused, Put, Get;
    var h, t, u := s.live.procp, Lookup(s.texts, ip), Unused(s.texts);
    NotCounted(s, users, users - {h}, h);
    if t < |s.texts| {
      AttachKeeps(s, users - {h}, h, t);
      EnterBody(Attach(s, h, t), users - {h}, t, p);
    } else if u < |s.texts| {
      NewTextKeeps(s, users - {h}, u, ip, sticky, n);
      var r := NewText(s, u, ip, sticky, n).value;
      AttachKeeps(r, users - {h}, h, u);
      EnterBody(Attach(r, h, u), users - {h}, u, p);
    }
  }

  /** Writing into a text, or into one's own image, touches no other image. */
  lemma {:induction false} StoreBody(s: Sys, op: Op, p: nat)
    requires Good(s) && Enabled(s, op) && p < NPROC && Alive(s.procs[p])
    requires op.ReadText? || op.Patch? || op.Store? || (op.Works? && p != s.live.procp)
    ensures var s' := Step(s, op).value; p < |s'.procs| && Body(s', p) == Body(s, p)
  {
    hide CoreShared, SwapShared, Counted, HomesKept, TextsKept, Put, Get;
    var s' := Step(s, op).value;
    match op
    case ReadText(b) =>
      var t := s.procs[s.live.procp].text.value;
      WriteCore(s, s', Text(t), s.texts[t].caddr, b);
      Undisturbed(s, s', Loaded(s), Text(t), p);
    case Patch(_, _) | Store(_, _) =>
      var t := s.procs[s.live.procp].text.value;
      WriteCore(s, s', Text(t), s.texts[t].caddr + op.k, [op.w]);
      Undisturbed(s, s', Loaded(s), Text(t), p);
    case Works(u, k, w) =>
      WriteCore(s, s', Image(s.live.procp), s.procs[s.live.procp].addr + k, [w]);
      Undisturbed(s, s', Loaded(s), Image(s.live.procp), p);
  }

  lemma {:induction false} ExpandBody(s: Sys, n: nat, p: nat)
    requires Good(s) && Enabled(s, Expand(n)) && ExpandTo(s, n).Some? && p < NPROC && Alive(s.procs[p]) && p != s.live.procp
    ensures var s' := ExpandTo(s, n).value; p < |s'.procs| && Body(s', p) == Body(s, p)
  {
    hide CoreShared, SwapShared, Counted, HomesKept, TextsKept, Alloc, Join, Put, Get, Body, XSwap;
    var h := s.live.procp;
    if n <= s.procs[h].size {
      ShrinkBody(s, Loaded(s), n, p);
    } else if Move(s, n).Some? {
      MoveBody(s, Loaded(s), n, p);
    } else {
      XSwapBody(s, Loaded(s), h, n, p);
      assert Body(s, p) + Clear(0) == Body(s, p);
    }
  }

  lemma {:induction false} SwapOutBody(s: Sys, q: nat, p: nat)
    requires Good(s) && Enabled(s, SwapOut(q)) && Step(s, SwapOut(q)).Some? && p < NPROC && Alive(s.procs[p])
    ensures var s' := Step(s, SwapOut(q)).value; p < |s'.procs| && Body(s', p) == Body(s, p)
  {
    TableSizes(s);
    hide Inv, XSwap, Body, Clear;
    XSwapBody(s, Loaded(s), q, s.procs[q].size, p);
    assert Body(s, p) + Clear(0) == Body(s, p);
  }

  lemma {:induction false} ExitBody(s: Sys, p: nat)
    requires Good(s) && Enabled(s, Exits) && p < NPROC && Alive(s.procs[p]) && p != s.live.procp
    ensures p < |Exit(s).procs| && Body(Exit(s), p) == Body(s, p)
  {
    hide Inv, XFree, Join, Get;
    XFreeBody(s, Loaded(s), p);
    XFreeKeeps(s, Loaded(s));
  }

  lemma TableBody(s: Sys, op: Op, p: nat)
    requires Enabled(s, op) && p < |s.procs| && (op.Waits? || op.Untext?)
    ensures var s' := Step(s, op).value; p < |s'.procs| && Body(s', p) == Body(s, p)
  {
    hide Join, Get;
  }

  /** No operation changes the memory of a process that is not running. */
  lemma {:induction false} StepBody(s: Sys, op: Op, p: nat)
    requires Good(s) && Enabled(s, op) && Step(s, op).Some? && p < NPROC && Alive(s.procs[p]) && p != s.live.procp
    ensures var s' := Step(s, op).value; p < |s'.procs| && Body(s', p) == Body(s, p)
  {
    TableSizes(s);
    hide Inv, Resume, NewProc, ExpandTo, XSwap, SwapIn, Exit, Reap, XFree, XAlloc, LoadText, PatchText, StoreText, XUntext, Work, Body;
    match op
    case Switch(q) => SwitchBody(s, Loaded(s), q, p);
    case Fork(c, u) => ForkBody(s, Loaded(s), c, u, p);
    case Expand(n) => ExpandBody(s, n, p);
    case SwapOut(q) => SwapOutBody(s, q, p);
    case SwapBack(q) => NotLive(s, q); SwapInBody(s, Loaded(s), q, p);
    case Exits => ExitBody(s, p);
    case LeaveText => XFreeBody(s, Loaded(s), p);
    case EnterText(ip, sticky, n) => XAllocBody(s, Loaded(s), ip, sticky, n, p);
    case ReadText(_) | Patch(_, _) | Store(_, _) | Works(_, _, _) => StoreBody(s, op, p);
    case Waits(_) | Untext(_) => TableBody(s, op, p);
  }

  /** However a process that is not running is swapped and moved meanwhile, when it runs again its
      memory is as it was. */
  lemma {:induction false} ComesBackWhole(s: Sys, ops: seq<Op>, p: nat, u: UArea)
    requires Good(s) && After(s, ops).Some? && Waiting(s, p, u) && Switch(p) !in ops
    ensures var s' := After(s, ops).value;
            && Waiting(s', p, u) && Body(s', p) == Body(s, p)
            && (InCore(s', p) ==> p < |Resume(s', p).procs| && Body(Resume(s', p), p) == Body(s, p))
    decreases |ops|
  {
    TableSizes(s);
    hide Inv, Resume, Step, Enabled, Body;
    if ops == [] {
      if InCore(s, p) {
        SwitchBody(s, Loaded(s), p, p);
      }
    } else {
      StepGood(s, ops[0]);
      WaitingStep(s, ops[0], p, u);
      StepBody(s, ops[0], p);
      ComesBackWhole(Step(s, ops[0]).value, ops[1..], p, u);
    }
  }
}
