/** The memory of the processes: who holds which core and swap space, where each process's u-area is
    kept, and which text segments are in core (kernel/text.c, kernel/slp.c, kernel/sys1.c).

    Core, swap space and images are counted in pages: every size and address the kernel uses here is
    a whole number of pages.  swap() is a transfer between core and an abstract paging store. */
module ProcMem {
  import opened Common
  import opened ResourceMap
  import opened Space
  import opened Pages

  const NPROC: nat := 150
  const NTEXT: nat := 40

  /** uhome when the live u-area has no image. */
  const NOUHOME: nat := 0

  datatype Stat = Null | Sleep | Wait | Runs | Idle | Zombie | Stop

  /** struct proc: load is SLOAD, text the index of p_textp. */
  datatype Proc = Proc(stat: Stat, load: bool, addr: nat, size: nat, text: Option<nat>)

  /** struct text: used is x_iptr != NULL, writ is XWRIT, ready is the absence of XLOAD, sticky is
      ISVTX in the mode of the inode. */
  datatype TextSeg = TextSeg(used: bool, inode: nat, sticky: bool, count: nat, ccount: nat,
                             daddr: nat, caddr: nat, size: nat, writ: bool, ready: bool)

  /** The kernel's memory state.  Three histories go with it: home, the u-area last saved for each
      process; content, what was last put into each text by loading it, by ptrace, or by a store while
      XWRIT was set; and touched, the texts stored into without XWRIT since they came into core. */
  datatype Sys = Sys(
    lo: nat, core: seq<Page>, coremap: seq<Run>,
    slo: nat, swap: seq<Page>, swapmap: seq<Run>,
    procs: seq<Proc>, texts: seq<TextSeg>,
    live: UArea, uhome: nat,
    home: map<nat, UArea>, content: map<nat, seq<Page>>, touched: set<nat>)

  // ----- who holds what ------------------------------------------------------------------------

  predicate Alive(p: Proc) {
    p.stat != Null && p.stat != Zombie
  }

  predicate InCore(s: Sys, p: nat) {
    p < |s.procs| && Alive(s.procs[p]) && s.procs[p].load
  }

  predicate Out(s: Sys, p: nat) {
    p < |s.procs| && Alive(s.procs[p]) && !s.procs[p].load
  }

  predicate TextIn(s: Sys, t: nat) {
    t < |s.texts| && s.texts[t].used && s.texts[t].ccount > 0
  }

  predicate TextUsed(s: Sys, t: nat) {
    t < |s.texts| && s.texts[t].used
  }

  predicate CoreHeld(s: Sys, o: Owner, x: int) {
    match o
    case Image(p) => InCore(s, p) && Inside(s.procs[p].addr, s.procs[p].size, x)
    case Text(t) => TextIn(s, t) && Inside(s.texts[t].caddr, s.texts[t].size, x)
  }

  predicate SwapHeld(s: Sys, o: Owner, x: int) {
    match o
    case Image(p) => Out(s, p) && Inside(s.procs[p].addr, s.procs[p].size, x)
    case Text(t) => TextUsed(s, t) && Inside(s.texts[t].daddr, s.texts[t].size, x)
  }

  function CoreHolding(s: Sys): Holding {
    (o, x) => CoreHeld(s, o, x)
  }

  function SwapHolding(s: Sys): Holding {
    (o, x) => SwapHeld(s, o, x)
  }

  // ----- reference counts ----------------------------------------------------------------------

  predicate Attached(p: Proc, t: nat) {
    Alive(p) && p.text == Some(t)
  }

  /** How many of the processes are attached to text t. */
  function Refs(ps: seq<Proc>, t: nat): nat {
    if ps == [] then 0 else Refs(ps[..|ps| - 1], t) + if Attached(ps[|ps| - 1], t) then 1 else 0
  }

  /** How many of those in users are. */
  function RefsIn(ps: seq<Proc>, users: set<nat>, t: nat): nat {
    if ps == [] then 0
    else
      var n := |ps| - 1;
      RefsIn(ps[..n], users, t) + if n in users && Attached(ps[n], t) then 1 else 0
  }

  function Bit(b: bool): int {
    if b then 1 else 0
  }

  lemma {:induction false} RefsUpdate(ps: seq<Proc>, p: nat, q: Proc, u: set<nat>, u': set<nat>, t: nat)
    requires p < |ps| && forall i :: i != p ==> (i in u <==> i in u')
    ensures Refs(ps[p := q], t) == Refs(ps, t) - Bit(Attached(ps[p], t)) + Bit(Attached(q, t))
    ensures RefsIn(ps[p := q], u', t) ==
            RefsIn(ps, u, t) - Bit(p in u && Attached(ps[p], t)) + Bit(p in u' && Attached(q, t))
    decreases |ps|
  {
    var n := |ps| - 1;
    if p < n {
      assert ps[p := q][..n] == ps[..n][p := q];
      RefsUpdate(ps[..n], p, q, u, u', t);
    } else {
      assert ps[p := q][..n] == ps[..n];
      RefsElsewhere(ps[..n], u, u', t);
    }
  }

  lemma {:induction false} RefsElsewhere(ps: seq<Proc>, u: set<nat>, u': set<nat>, t: nat)
    requires forall i :: i < |ps| ==> (i in u <==> i in u')
    ensures RefsIn(ps, u, t) == RefsIn(ps, u', t)
  {
    if ps != [] {
      RefsElsewhere(ps[..|ps| - 1], u, u', t);
    }
  }

  lemma {:induction false} RefsSome(ps: seq<Proc>, u: set<nat>, p: nat, t: nat)
    requires p < |ps|
    ensures Attached(ps[p], t) ==> Refs(ps, t) > 0
    ensures p in u && Attached(ps[p], t) ==> RefsIn(ps, u, t) > 0
    ensures RefsIn(ps, u, t) <= Refs(ps, t)
    decreases |ps|
  {
    var n := |ps| - 1;
    if p < n {
      RefsSome(ps[..n], u, p, t);
    } else if n > 0 {
      RefsSome(ps[..n], u, n - 1, t);
    }
  }

  // ----- the invariant -------------------------------------------------------------------------

  predicate Geometry(s: Sys) {
    && |s.procs| == NPROC && |s.texts| == NTEXT && s.live.procp < NPROC && 0 < s.lo && 0 < s.slo
    && InCore(s, 0)
    && (forall p :: 0 <= p < NPROC && Alive(s.procs[p]) ==> s.procs[p].size > 0)
    && (forall p :: 0 <= p < NPROC && Alive(s.procs[p]) && s.procs[p].text.Some? ==> TextUsed(s, s.procs[p].text.value))
    && (forall t :: 0 <= t < NTEXT && s.texts[t].used ==> s.texts[t].size > 0)
  }

  ghost predicate CoreShared(s: Sys) {
    Shared(s.coremap, s.lo, |s.core|, CoreHolding(s))
  }

  ghost predicate SwapShared(s: Sys) {
    Shared(s.swapmap, s.slo, |s.swap|, SwapHolding(s))
  }

  /** x_count counts the processes attached to a text, x_ccount those of them in users. */
  ghost predicate Counted(s: Sys, users: set<nat>) {
    forall t :: 0 <= t < |s.texts| ==> TextCounted(s.procs, s.texts[t], users, t)
  }

  predicate TextCounted(ps: seq<Proc>, x: TextSeg, users: set<nat>, t: nat) {
    if x.used then x.count == Refs(ps, t) && x.ccount == RefsIn(ps, users, t) else Refs(ps, t) == 0
  }

  /** uhome names the image of the process whose u-area is live, or nothing when that process has
      no image in core. */
  predicate AtHome(s: Sys) {
    s.uhome == if InCore(s, s.live.procp) then s.procs[s.live.procp].addr else NOUHOME
  }

  /** The first page of the image of process p, where its u-area is kept while it is not live. */
  predicate HomePage(s: Sys, p: nat, page: Page) {
    || (InCore(s, p) && s.procs[p].addr < |s.core| && s.core[s.procs[p].addr] == page)
    || (Out(s, p) && s.procs[p].addr < |s.swap| && s.swap[s.procs[p].addr] == page)
  }

  /** The u-area of p is live and its image is in core: the copy in the image is stale. */
  predicate IsLive(s: Sys, p: nat) {
    p == s.live.procp && InCore(s, p)
  }

  predicate HomeKept(s: Sys, p: nat) {
    p in s.home && s.home[p].procp == p && HomePage(s, p, Home(s.home[p]))
  }

  ghost predicate HomesKept(s: Sys) {
    forall p: nat :: p < |s.procs| && Alive(s.procs[p]) && !IsLive(s, p) ==> HomeKept(s, p)
  }

  /** A text in core has its contents there, unless it was stored into without a mark, and one that is not
      in core, or that XWRIT does not mark, has them in the paging store. */
  predicate TextKept(s: Sys, t: nat)
    requires t < |s.texts|
  {
    var x := s.texts[t];
    && t in s.content
    && (TextIn(s, t) && (x.writ || t !in s.touched) ==> Get(s.core, x.caddr, x.size) == s.content[t])
    && (!TextIn(s, t) || !x.writ ==> Get(s.swap, x.daddr, x.size) == s.content[t])
  }

  /** Every text that has been loaded keeps what was put into it. */
  ghost predicate TextsKept(s: Sys) {
    forall t: nat :: TextUsed(s, t) && s.texts[t].ready ==> TextKept(s, t)
  }

  /** What every step keeps; users are the processes counted in x_ccount. */
  ghost predicate Inv(s: Sys, users: set<nat>) {
    && Geometry(s) && CoreShared(s) && SwapShared(s) && Counted(s, users)
    && AtHome(s) && HomesKept(s) && TextsKept(s)
  }

  // ----- frames --------------------------------------------------------------------------------

  /** Nothing changed in the core that anybody but o held. */
  ghost predicate CoreSame(s: Sys, s': Sys, o: Owner) {
    |s'.core| == |s.core| && forall o', x: nat :: o' != o && CoreHeld(s, o', x) && x < |s.core| ==> s'.core[x] == s.core[x]
  }

  ghost predicate SwapSame(s: Sys, s': Sys, o: Owner) {
    |s'.swap| == |s.swap| && forall o', x: nat :: o' != o && SwapHeld(s, o', x) && x < |s.swap| ==> s'.swap[x] == s.swap[x]
  }

  /** Process p kept its image and its saved u-area. */
  predicate ProcSame(s: Sys, s': Sys, p: nat) {
    && p < |s.procs| && p < |s'.procs|
    && (Alive(s'.procs[p]) && !IsLive(s', p) ==>
          && Alive(s.procs[p]) && !IsLive(s, p) && s'.procs[p].load == s.procs[p].load
          && s'.procs[p].addr == s.procs[p].addr
          && (p in s.home ==> p in s'.home && s'.home[p] == s.home[p]))
  }

  /** Text t kept its place and its marks. */
  predicate TextSame(s: Sys, s': Sys, t: nat) {
    && t < |s.texts| && t < |s'.texts|
    && (TextUsed(s', t) && s'.texts[t].ready ==>
          && TextUsed(s, t) && s.texts[t].ready && s'.texts[t].writ == s.texts[t].writ && (TextIn(s', t) <==> TextIn(s, t))
          && s'.texts[t].daddr == s.texts[t].daddr && s'.texts[t].caddr == s.texts[t].caddr
          && s'.texts[t].size == s.texts[t].size
          && (t in s.content ==> t in s'.content && s'.content[t] == s.content[t])
          && (t in s.touched ==> t in s'.touched))
  }

  lemma {:induction false} HomesFrame(s: Sys, s': Sys, o: Owner)
    requires Geometry(s) && HomesKept(s) && CoreSame(s, s', o) && SwapSame(s, s', o) && |s'.procs| == NPROC
    requires forall p: nat :: p < NPROC && Image(p) != o ==> ProcSame(s, s', p)
    requires o.Image? && o.p < NPROC && Alive(s'.procs[o.p]) && !IsLive(s', o.p) ==> HomeKept(s', o.p)
    ensures HomesKept(s')
  {
    forall p: nat | p < |s'.procs| && Alive(s'.procs[p]) && !IsLive(s', p) ensures HomeKept(s', p) {
      if Image(p) != o {
        assert ProcSame(s, s', p);
        var a := s.procs[p].addr;
        assert Inside(a, s.procs[p].size, a);
        assert HomeKept(s, p);
        assert InCore(s, p) ==> CoreHeld(s, Image(p), a);
        assert Out(s, p) ==> SwapHeld(s, Image(p), a);
      }
    }
  }

  lemma {:induction false} TextsFrame(s: Sys, s': Sys, o: Owner)
    requires TextsKept(s) && CoreSame(s, s', o) && SwapSame(s, s', o) && |s'.texts| == |s.texts|
    requires CoreShared(s) && SwapShared(s)
    requires forall t: nat :: t < |s.texts| && Text(t) != o ==> TextSame(s, s', t)
    requires o.Text? && TextUsed(s', o.t) && s'.texts[o.t].ready ==> TextKept(s', o.t)
    ensures TextsKept(s')
  {
    hide Shared;
    forall t: nat | TextUsed(s', t) && s'.texts[t].ready ensures TextKept(s', t) {
      if Text(t) != o {
        assert TextSame(s, s', t);
        assert TextKept(s, t);
        TextFrame(s, s', o, t);
      }
    }
  }

  /** The pages of a text that o does not hold stay. */
  lemma {:induction false} TextFrame(s: Sys, s': Sys, o: Owner, t: nat)
    requires CoreSame(s, s', o) && SwapSame(s, s', o) && Text(t) != o && TextUsed(s, t)
    requires CoreShared(s) && SwapShared(s)
    ensures var x := s.texts[t];
            && (TextIn(s, t) ==> Get(s'.core, x.caddr, x.size) == Get(s.core, x.caddr, x.size))
            && Get(s'.swap, x.daddr, x.size) == Get(s.swap, x.daddr, x.size)
  {
    var x := s.texts[t];
    hide Shared, TextIn;
    if x.size > 0 {
      TextRange(s, t);
      forall k: nat | k < x.size ensures Get(s'.swap, x.daddr, x.size)[k] == Get(s.swap, x.daddr, x.size)[k] {
        assert SwapHeld(s, Text(t), x.daddr + k);
      }
      if TextIn(s, t) {
        forall k: nat | k < x.size ensures Get(s'.core, x.caddr, x.size)[k] == Get(s.core, x.caddr, x.size)[k] {
          assert CoreHeld(s, Text(t), x.caddr + k);
        }
      }
    }
  }

  lemma {:induction false} TextRange(s: Sys, t: nat)
    requires CoreShared(s) && SwapShared(s) && TextUsed(s, t) && s.texts[t].size > 0
    ensures TextIn(s, t) ==> s.lo <= s.texts[t].caddr && s.texts[t].caddr + s.texts[t].size <= |s.core|
    ensures s.slo <= s.texts[t].daddr && s.texts[t].daddr + s.texts[t].size <= |s.swap|
  {
    hide Shared;
    var x := s.texts[t];
    if TextIn(s, t) {
      HeldRange(s.coremap, s.lo, |s.core|, CoreHolding(s), Text(t), x.caddr, x.size);
    }
    HeldRange(s.swapmap, s.slo, |s.swap|, SwapHolding(s), Text(t), x.daddr, x.size);
  }
}
