/** xalloc: attaching to a shared text; the contents of texts; and a process's own stores. */
module ProcExec {
  import opened Common
  import opened ResourceMap
  import opened Space
  import opened Pages
  import opened ProcMem
  import opened ProcSteps
  import opened ProcSwap
  import opened ProcOps
  import opened ProcText

  // ----- xalloc --------------------------------------------------------------------------------

  /** The first entry for an inode, or |x|. */
  function Lookup(x: seq<TextSeg>, ip: nat): (t: nat)
    ensures t <= |x|
    ensures t < |x| ==> x[t].used && x[t].inode == ip
    ensures forall k :: 0 <= k < t ==> !(x[k].used && x[k].inode == ip)
  {
    if x == [] || (x[0].used && x[0].inode == ip) then 0 else 1 + Lookup(x[1..], ip)
  }

  /** The first unused entry, or |x|. */
  function Unused(x: seq<TextSeg>): (t: nat)
    ensures t <= |x|
    ensures t < |x| ==> !x[t].used
    ensures forall k :: 0 <= k < t ==> x[k].used
  {
    if x == [] || !x[0].used then 0 else 1 + Unused(x[1..])
  }

  function Attach(s: Sys, p: nat, t: nat): Sys
    requires p < |s.procs| && t < |s.texts|
  {
    s.(procs := s.procs[p := s.procs[p].(text := Some(t))], texts := s.texts[t := s.texts[t].(count := s.texts[t].count + 1)])
  }

  /** A new entry of n pages, its swap space allocated, nobody attached.  None: out of swap space. */
  function NewText(s: Sys, t: nat, ip: nat, sticky: bool, n: nat): Option<Sys>
    requires t < |s.texts|
  {
    match Alloc(s.swapmap, n)
    case None => None
    case Some(g) =>
      Some(s.(swapmap := g.left,
              texts := s.texts[t := TextSeg(true, ip, sticky, 0, 0, g.addr, s.texts[t].caddr, n, false, false)]))
  }

  /** xexpand or the plain count: the current process, attached to t, gets it into core, or is
      swapped out to wait for room.  None: out of swap space. */
  function Enter(s: Sys, t: nat): Option<Sys>
    requires TextInTable(s, s.live.procp) && t < |s.texts|
  {
    match UseText(s, t)
    case Some(s') => Some(s')
    case None => XSwap(s, s.live.procp, s.procs[s.live.procp].size)
  }

  /** xalloc for a text of n pages.  None: out of swap space. */
  function XAlloc(s: Sys, ip: nat, sticky: bool, n: nat): Option<Sys>
    requires s.live.procp < |s.procs|
  {
    var p, t, u := s.live.procp, Lookup(s.texts, ip), Unused(s.texts);
    if t < |s.texts| then Enter(Attach(s, p, t), t)
    else if u == |s.texts| then Some(s)
    else
      match NewText(s, u, ip, sticky, n)
      case None => None
      case Some(s') => Enter(Attach(s', p, u), u)
  }

  lemma {:induction false} AttachKeeps(s: Sys, users: set<nat>, p: nat, t: nat)
    requires Inv(s, users) && p < NPROC && p !in users && Alive(s.procs[p]) && s.procs[p].text == None && TextUsed(s, t)
    ensures Inv(Attach(s, p, t), users)
  {
    hide Shared, Counted, HomesKept, TextsKept, Refs, RefsIn, HomePage, Get;
    var s' := Attach(s, p, t);
    SameHolding(s.coremap, s.lo, |s.core|, CoreHolding(s), CoreHolding(s'));
    SameHolding(s.swapmap, s.slo, |s.swap|, SwapHolding(s), SwapHolding(s'));
    CountStep(s, s', users, users, p);
    HomesFrame(s, s', Text(t));
    if s.texts[t].ready {
      KeptText(s, t);
    }
    TextsFrame(s, s', Text(t));
  }

  lemma {:induction false} NewTextKeeps(s: Sys, users: set<nat>, t: nat, ip: nat, sticky: bool, n: nat)
    requires Inv(s, users) && t < NTEXT && !s.texts[t].used && n > 0 && NewText(s, t, ip, sticky, n).Some?
    ensures Inv(NewText(s, t, ip, sticky, n).value, users)
  {
    hide Shared, Counted, HomesKept, TextsKept, Refs, RefsIn, Alloc;
    var s' := NewText(s, t, ip, sticky, n).value;
    SameHolding(s.coremap, s.lo, |s.core|, CoreHolding(s), CoreHolding(s'));
    Hand(s.swapmap, s.slo, |s.swap|, SwapHolding(s), SwapHolding(s'), Text(t), n);
    NobodyAttached(s, users, t);
    CountStep(s, s', users, users, 0);
    HomesFrame(s, s', Text(t));
    TextsFrame(s, s', Text(t));
  }

  lemma {:induction false} NobodyAttached(s: Sys, users: set<nat>, t: nat)
    requires Geometry(s) && Counted(s, users) && t < NTEXT && !s.texts[t].used
    ensures forall p: nat :: p < NPROC ==> !Attached(s.procs[p], t)
  {
    hide Refs, RefsIn;
    assert TextCounted(s.procs, s.texts[t], users, t);
    forall p: nat | p < NPROC ensures !Attached(s.procs[p], t) {
      RefsSome(s.procs, users, p, t);
    }
  }

  /** Whether it stays in core or goes out, the process is counted where it should be. */
  lemma {:induction false} EnterKeeps(s: Sys, users: set<nat>, t: nat)
    requires Inv(s, users) && Running(s) && s.live.procp != 0 && s.live.procp !in users
    requires Attached(s.procs[s.live.procp], t) && Enter(s, t).Some?
    ensures var s' := Enter(s, t).value;
            && Inv(s', if s'.procs[s.live.procp].load then users + {s.live.procp} else users)
            && (s'.procs[s.live.procp].load <==> UseText(s, t).Some?)
  {
    hide CoreShared, SwapShared, Counted, HomesKept, TextsKept, AtHome, Alloc, Join;
    var p := s.live.procp;
    if UseText(s, t).Some? {
      UseKeeps(s, users, p, t);
    } else {
      XSwapKeeps(s, users, p, s.procs[p].size);
      assert users - {p} == users;
    }
  }

  lemma {:induction false} XAllocKeeps(s: Sys, users: set<nat>, ip: nat, sticky: bool, n: nat)
    requires Inv(s, users) && Running(s) && s.live.procp != 0 && s.live.procp in users && n > 0
    requires s.procs[s.live.procp].text == None && XAlloc(s, ip, sticky, n).Some?
    ensures var s', p := XAlloc(s, ip, sticky, n).value, s.live.procp;
            && |s'.procs| == NPROC && Inv(s', if s'.procs[p].load then users else users - {p})
  {
    hide CoreShared, SwapShared, Counted, HomesKept, TextsKept, AtHome, Alloc, Join, Enter, Lookup, Unused;
    var p, t, u := s.live.procp, Lookup(s.texts, ip), Unused(s.texts);
    NotCounted(s, users, users - {p}, p);
    if t < |s.texts| {
      AttachKeeps(s, users - {p}, p, t);
      EnterKeeps(Attach(s, p, t), users - {p}, t);
    } else if u < |s.texts| {
      NewTextKeeps(s, users - {p}, u, ip, sticky, n);
      var r := NewText(s, u, ip, sticky, n).value;
      AttachKeeps(r, users - {p}, p, u);
      EnterKeeps(Attach(r, p, u), users - {p}, u);
    }
    assert users - {p} + {p} == users;
  }

  // ----- what texts contain --------------------------------------------------------------------

  /** The end of xalloc for a new text: its contents are read from the file, and XWRIT set. */
  function LoadText(s: Sys, t: nat, b: seq<Page>): Sys
    requires t < |s.texts|
  {
    s.(core := Put(s.core, s.texts[t].caddr, b), content := s.content[t := b],
       texts := s.texts[t := s.texts[t].(writ := true, ready := true)])
  }

  lemma {:induction false} LoadTextKeeps(s: Sys, users: set<nat>, t: nat, b: seq<Page>)
    requires Inv(s, users) && TextIn(s, t) && |b| == s.texts[t].size
    ensures Inv(LoadText(s, t, b), users)
  {
    hide Shared, Counted, HomesKept, TextsKept, HomePage;
    var s' := LoadText(s, t, b);
    SameHolding(s.coremap, s.lo, |s.core|, CoreHolding(s), CoreHolding(s'));
    SameHolding(s.swapmap, s.slo, |s.swap|, SwapHolding(s), SwapHolding(s'));
    CountStep(s, s', users, users, 0);
    WriteCore(s, s', Text(t), s.texts[t].caddr, b);
    TextRange(s, t);
    assert Get(s'.core, s.texts[t].caddr, |b|) == b;
    HomesFrame(s, s', Text(t));
    TextsFrame(s, s', Text(t));
  }

  /** ptrace's write into the text of the traced process: page k becomes w, and XWRIT is set. */
  function PatchText(s: Sys, t: nat, k: nat, w: Page): Sys
    requires t < |s.texts|
  {
    var x := s.texts[t];
    s.(core := Put(s.core, x.caddr + k, [w]), content := s.content[t := Put(Get(s.core, x.caddr, x.size), k, [w])],
       texts := s.texts[t := x.(writ := true)])
  }

  lemma {:induction false} PatchTextKeeps(s: Sys, users: set<nat>, t: nat, k: nat, w: Page)
    requires Inv(s, users) && TextIn(s, t) && k < s.texts[t].size
    ensures Inv(PatchText(s, t, k, w), users)
  {
    hide Shared, Counted, HomesKept, TextsKept, HomePage;
    var s' := PatchText(s, t, k, w);
    SameHolding(s.coremap, s.lo, |s.core|, CoreHolding(s), CoreHolding(s'));
    SameHolding(s.swapmap, s.slo, |s.swap|, SwapHolding(s), SwapHolding(s'));
    CountStep(s, s', users, users, 0);
    WriteCore(s, s', Text(t), s.texts[t].caddr + k, [w]);
    TextRange(s, t);
    assert Get(s'.core, s.texts[t].caddr, s.texts[t].size) == s'.content[t];
    HomesFrame(s, s', Text(t));
    TextsFrame(s, s', Text(t));
  }

  /** A plain store into the text of the running process: no page protection stops it and no mark is set.
      Page k of text t becomes w. */
  function StoreText(s: Sys, t: nat, k: nat, w: Page): Sys
    requires t < |s.texts|
  {
    var x := s.texts[t];
    var stored := s.(core := Put(s.core, x.caddr + k, [w]));
    if x.writ then stored.(content := s.content[t := Put(Get(s.core, x.caddr, x.size), k, [w])])
    else stored.(touched := s.touched + {t})
  }

  lemma {:induction false} StoreTextKeeps(s: Sys, users: set<nat>, t: nat, k: nat, w: Page)
    requires Inv(s, users) && TextIn(s, t) && s.texts[t].ready && k < s.texts[t].size
    ensures Inv(StoreText(s, t, k, w), users)
  {
    hide Shared, Counted, HomesKept, TextsKept, HomePage;
    var s' := StoreText(s, t, k, w);
    SameHolding(s.coremap, s.lo, |s.core|, CoreHolding(s), CoreHolding(s'));
    SameHolding(s.swapmap, s.slo, |s.swap|, SwapHolding(s), SwapHolding(s'));
    CountStep(s, s', users, users, 0);
    WriteCore(s, s', Text(t), s.texts[t].caddr + k, [w]);
    TextRange(s, t);
    KeptText(s, t);
    assert s.texts[t].writ ==> Get(s'.core, s.texts[t].caddr, s.texts[t].size) == s'.content[t];
    HomesFrame(s, s', Text(t));
    TextsFrame(s, s', Text(t));
  }

  /** xuntext: an entry nobody is attached to goes. */
  function XUntext(s: Sys, t: nat): Sys
    requires t < |s.texts|
  {
    var x := s.texts[t];
    if x.count != 0 then s
    else s.(texts := s.texts[t := x.(used := false)], swapmap := Join(s.swapmap, x.size, x.daddr))
  }

  lemma {:induction false} XUntextKeeps(s: Sys, users: set<nat>, t: nat)
    requires Inv(s, users) && TextUsed(s, t)
    ensures Inv(XUntext(s, t), users)
  {
    hide Shared, Counted, HomesKept, TextsKept, Join, Refs, RefsIn;
    var s', x := XUntext(s, t), s.texts[t];
    if x.count == 0 {
      NoneAttached(s, users, t);
      HeldRange(s.swapmap, s.slo, |s.swap|, SwapHolding(s), Text(t), x.daddr, x.size);
      SameHolding(s.coremap, s.lo, |s.core|, CoreHolding(s), CoreHolding(s'));
      Give(s.swapmap, s.slo, |s.swap|, SwapHolding(s), SwapHolding(s'), Text(t), x.daddr, x.size);
      CountStep(s, s', users, users, 0);
      HomesFrame(s, s', Text(t));
      TextsFrame(s, s', Text(t));
    }
  }

  lemma {:induction false} NoneAttached(s: Sys, users: set<nat>, t: nat)
    requires Geometry(s) && Counted(s, users) && TextUsed(s, t) && s.texts[t].count == 0
    ensures s.texts[t].ccount == 0 && forall p: nat :: p < NPROC ==> !Attached(s.procs[p], t)
  {
    hide Refs, RefsIn;
    assert TextCounted(s.procs, s.texts[t], users, t);
    RefsSome(s.procs, users, 0, t);
    forall p: nat | p < NPROC ensures !Attached(s.procs[p], t) {
      RefsSome(s.procs, users, p, t);
    }
  }

  // ----- what a process does to itself ---------------------------------------------------------

  /** The running process works: its u-area changes, and page k of its image becomes w. */
  function Work(s: Sys, u: UArea, k: nat, w: Page): Sys
    requires s.live.procp < |s.procs|
  {
    s.(live := u, core := Put(s.core, s.procs[s.live.procp].addr + k, [w]))
  }

  lemma {:induction false} WorkKeeps(s: Sys, users: set<nat>, u: UArea, k: nat, w: Page)
    requires Inv(s, users) && Running(s) && u.procp == s.live.procp && k < s.procs[s.live.procp].size
    ensures Inv(Work(s, u, k, w), users)
  {
    hide CoreShared, SwapShared, Counted, HomesKept, TextsKept;
    var s', o := Work(s, u, k, w), Image(s.live.procp);
    SameClaims(s, s', users);
    WriteCore(s, s', o, s.procs[s.live.procp].addr + k, [w]);
    HomesFrame(s, s', o);
    TextsFrame(s, s', o);
  }
}
