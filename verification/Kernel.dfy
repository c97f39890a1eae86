/** The kernel's memory operations as it runs them, step by step on its own tables. */
module Kernel {
  import opened Common
  import opened ResourceMap
  import opened Space
  import opened Pages
  import opened ProcMem
  import opened ProcSteps
  import opened ProcSwap
  import opened ProcOps
  import opened ProcText
  import opened ProcExec
  import opened ProcRun
  import ProcLaws

  /** How many slots the tables of the two maps have, the one that ends them included. */
  const CMAPSIZ: nat := 50
  const SMAPSIZ: nat := 50

  class Machine {
    const lo: nat
    const slo: nat
    var core: seq<Page>
    var coremap: seq<Run>
    var store: seq<Page>
    var swapmap: seq<Run>
    var procs: seq<Proc>
    var texts: seq<TextSeg>
    var live: UArea
    var uhome: nat
    ghost var home: map<nat, UArea>
    ghost var content: map<nat, seq<Page>>
    ghost var touched: set<nat>

    /** Neither map has ever needed more slots than its table has. */
    ghost var ended: bool

    /** The maps have at most c and w runs more, and if those fitted into their tables they always did. */
    twostate predicate Grew(c: nat, w: nat)
      reads this
    {
      && |coremap| <= |old(coremap)| + c && |swapmap| <= |old(swapmap)| + w
      && (old(ended) && |old(coremap)| + c < CMAPSIZ && |old(swapmap)| + w < SMAPSIZ ==> ended)
    }

    ghost function State(): Sys
      reads this
    {
      Sys(lo, core, coremap, slo, store, swapmap, procs, texts, live, uhome, home, content, touched)
    }

    /** The machine as main() leaves it: process 0 at work, n pages of core and m of swap space free. */
    constructor (n: nat, m: nat, u: UArea)
      ensures State() == ProcLaws.Boot(n, m, u)
      ensures u.procp == 0 ==> Good(State())
      ensures ended
    {
      lo, slo, ended := 32, 1, true;
      core, coremap := Clear(33 + n), if n == 0 then [] else [Run(n, 33)];
      store, swapmap := Clear(1 + m), if m == 0 then [] else [Run(m, 1)];
      procs := seq(NPROC, p => if p == 0 then Proc(Runs, true, 32, 1, None) else Proc(Null, false, 0, 0, None));
      texts := seq(NTEXT, t => TextSeg(false, 0, false, 0, 0, 0, 0, 0, false, false));
      live, uhome := u, 32;
      home, content, touched := map[], map[], {};
      new;
      hide Good;
      if u.procp == 0 {
        ProcLaws.BootGood(n, m, u);
      }
    }

    /** malloc(coremap, n): the address, or 0. */
    method CoreMalloc(n: nat) returns (a: nat)
      requires Ordered(coremap)
      modifies this`coremap
      ensures match Alloc(old(coremap), n)
              case None => a == 0 && coremap == old(coremap)
              case Some(g) => a == g.addr > 0 && coremap == g.left
      ensures |coremap| <= |old(coremap)|
    {
      var i := 0;
      while i < |coremap| && coremap[i].size < n
        invariant i <= FirstFit(coremap, n) && i <= |coremap|
      {
        i := i + 1;
      }
      if i == |coremap| {
        return 0;
      }
      assert i == FirstFit(coremap, n);
      a := coremap[i].addr;
      coremap := Cut(coremap, i, n);
    }

    method SwapMalloc(n: nat) returns (a: nat)
      requires Ordered(swapmap)
      modifies this`swapmap
      ensures match Alloc(old(swapmap), n)
              case None => a == 0 && swapmap == old(swapmap)
              case Some(g) => a == g.addr > 0 && swapmap == g.left
      ensures |swapmap| <= |old(swapmap)|
    {
      var i := 0;
      while i < |swapmap| && swapmap[i].size < n
        invariant i <= FirstFit(swapmap, n) && i <= |swapmap|
      {
        i := i + 1;
      }
      if i == |swapmap| {
        return 0;
      }
      assert i == FirstFit(swapmap, n);
      a := swapmap[i].addr;
      swapmap := Cut(swapmap, i, n);
    }

    /** mfree(coremap, n, a). */
    method CoreMFree(n: nat, a: nat)
      modifies this`coremap, this`ended
      ensures coremap == Join(old(coremap), n, a) && |coremap| <= |old(coremap)| + 1
      ensures ended <==> old(ended) && |coremap| < CMAPSIZ
    {
      JoinSize(coremap, n, a);
      coremap := Join(coremap, n, a);
      ended := ended && |coremap| < CMAPSIZ;
    }

    method SwapMFree(n: nat, a: nat)
      modifies this`swapmap, this`ended
      ensures swapmap == Join(old(swapmap), n, a) && |swapmap| <= |old(swapmap)| + 1
      ensures ended <==> old(ended) && |swapmap| < SMAPSIZ
    {
      JoinSize(swapmap, n, a);
      swapmap := Join(swapmap, n, a);
      ended := ended && |swapmap| < SMAPSIZ;
    }

    /** uflush(a). */
    method UFlush(a: nat)
      modifies this`core, this`home
      ensures core == Put(old(core), a, [Home(live)]) && home == old(home)[live.procp := live]
    {
      core := Put(core, a, [Home(live)]);
      home := home[live.procp := live];
    }

    /** resume(p_addr of q). */
    method SwitchTo(q: nat)
      requires Good(State()) && InCore(State(), q)
      modifies this
      ensures State() == Resume(old(State()), q) && Good(State()) && Grew(0, 0)
    {
      hide Good;
      SwitchGood(State(), q);
      var a := procs[q].addr;
      if a != uhome {
        if uhome != NOUHOME {
          UFlush(uhome);
        }
        var h := Get(core, a, 1)[0];
        if h.Home? {
          live := h.u;
        }
        uhome := a;
      }
    }

    /** copyseg over n pages, one at a time, from a1 to a2. */
    method CopyPages(a1: nat, a2: nat, n: nat)
      requires a1 + n <= |core| && a2 + n <= |core| && (a1 + n <= a2 || a2 + n <= a1)
      modifies this`core
      ensures core == Put(old(core), a2, Get(old(core), a1, n))
    {
      var i := 0;
      while i < n
        invariant i <= n && core == Put(old(core), a2, Get(old(core), a1, i))
      {
        core := core[a2 + i := core[a1 + i]];
        i := i + 1;
        assert core == Put(old(core), a2, Get(old(core), a1, i));
      }
    }

    /** xccdec. */
    method XccDec(text: Option<nat>)
      requires text.Some? ==> text.value < |texts|
      modifies this`texts, this`store, this`coremap, this`ended
      ensures State() == DropOf(old(State()), text) && Grew(1, 0)
    {
      hide Put, Get, Join;
      if text.None? || texts[text.value].ccount == 0 {
        return;
      }
      var t := text.value;
      texts := texts[t := texts[t].(ccount := texts[t].ccount - 1)];
      if texts[t].ccount == 0 {
        if texts[t].writ {
          texts := texts[t := texts[t].(writ := false)];
          store := Put(store, texts[t].daddr, Get(core, texts[t].caddr, texts[t].size));
        }
        CoreMFree(texts[t].size, texts[t].caddr);
      }
    }

    /** xswap(p, ff, os): with ff the core is freed, and os < p_size pads the copy with zero pages.
        False: out of swap space. */
    method XSwap(p: nat, ff: bool, os0: nat) returns (ok: bool)
      requires Ordered(swapmap) && TextInTable(State(), p) && os0 <= procs[p].size
      requires ff || os0 == 0
      modifies this
      ensures var os := if os0 == 0 then old(procs[p].size) else os0;
              SwapImage(old(State()), p, ff, os) == if ok then Some(State()) else None
      ensures !ok ==> State() == old(State())
      ensures Grew(2, 0)
    {
      hide Ordered, Alloc, Put, Get, Clear, Join, ProcSteps.XccDec;
      var os := if os0 == 0 then procs[p].size else os0;
      ghost var s := State();
      var a := SwapMalloc(procs[p].size);
      if a == 0 {
        return false;
      }
      XccDec(procs[p].text);
      DropFrame(s.(swapmap := swapmap), procs[p].text);
      ghost var d := State();
      assert d == DropOf(s.(swapmap := swapmap), s.procs[p].text);
      hide DropOf;
      if procs[p].addr == uhome {
        UFlush(uhome);
      }
      WriteImage(p, a, os, ff);
      ok := true;
    }

    /** The copying half of xswap. */
    method WriteImage(p: nat, a: nat, os: nat, ff: bool)
      requires p < |procs| && os <= procs[p].size && (ff || os == procs[p].size)
      modifies this
      ensures State() == Written(old(State()), p, a, os, ff) && Grew(1, 0)
    {
      hide Put, Get, Clear, Join;
      ghost var f := State();
      store := Put(store, a, Get(core, procs[p].addr, os));
      PadOut(p, a, os, ff, f.swap);
      PadNone(f.core, procs[p].addr, os);
      LeaveCore(p, a, os, ff);
    }

    /** The image is at a in swap space now; with ff its os pages of core are given back. */
    method LeaveCore(p: nat, a: nat, os: nat, ff: bool)
      requires p < |procs|
      modifies this`coremap, this`uhome, this`procs, this`ended
      ensures coremap == (if ff then Join(old(coremap), os, old(procs[p].addr)) else old(coremap)) && Grew(1, 0)
      ensures uhome == if ff && old(procs[p].addr) == old(uhome) then NOUHOME else old(uhome)
      ensures procs == old(procs)[p := old(procs[p]).(addr := a, load := false)]
    {
      hide Join;
      if ff {
        CoreMFree(os, procs[p].addr);
        if procs[p].addr == uhome {
          uhome := NOUHOME;
        }
      }
      procs := procs[p := procs[p].(addr := a, load := false)];
    }

    /** The zero pages after the image. */
    method PadOut(p: nat, a: nat, os: nat, ff: bool, ghost was: seq<Page>)
      requires p < |procs| && os <= procs[p].size && store == Put(was, a, Get(core, procs[p].addr, os))
      modifies this`store, this`core
      ensures os == procs[p].size ==> core == old(core) && store == old(store)
      ensures ff ==> store == Put(was, a, Get(old(core), procs[p].addr, os) + Clear(procs[p].size - os))
      ensures ff ==> core == if os < procs[p].size then Put(old(core), procs[p].addr, [CLEAR]) else old(core)
    {
      var n := os;
      while n < procs[p].size
        invariant os <= n <= procs[p].size
        invariant n == os ==> core == old(core) && store == old(store)
        invariant ff ==> store == Put(was, a, Get(old(core), procs[p].addr, os) + Clear(n - os))
        invariant ff ==> core == if os < n then Put(old(core), procs[p].addr, [CLEAR]) else old(core)
      {
        if ff {
          core := Put(core, procs[p].addr, [CLEAR]);
        }
        store := Put(store, a + n, Get(core, procs[p].addr, 1));
        n := n + 1;
        if ff {
          assert core == Put(old(core), procs[p].addr, [CLEAR]);
          assert Get(core, procs[p].addr, 1) == [CLEAR];
          assert store == Put(was, a, Get(old(core), procs[p].addr, os) + Clear(n - os));
        }
      }
    }

    /** swapin(p): true if p is in core now; if there was no room, nothing has changed. */
    method SwapIn(p: nat) returns (ok: bool)
      requires Good(State()) && live.procp == 0 && Out(State(), p)
      modifies this
      ensures TextInTable(old(State()), p) && ProcSwap.SwapIn(old(State()), p) == if ok then Some(State()) else None
      ensures !ok ==> State() == old(State())
      ensures Good(State()) && Grew(1, 1)
    {
      hide Good, Ordered, Free, Cut, Join, Put, Get, Alloc, UseText, ProcSwap.SwapIn, ReadImage;
      ghost var s := State();
      GoodFacts(s);
      TextsInTable(s, p);
      SchedRuns(s);
      SwapInOrder(s, p);
      var a := CoreMalloc(procs[p].size);
      if a == 0 {
        return false;
      }
      UndoAlloc(s.coremap, procs[p].size);
      if procs[p].text.Some? {
        var ready := EnterText(procs[p].text.value);
        if !ready {
          CoreMFree(procs[p].size, a);
          return false;
        }
      }
      FinishIn(p, a);
      ok := true;
      SwapBackGood(s, p);
    }

    /** The copying half of swapin. */
    method FinishIn(p: nat, a: nat)
      requires p < |procs|
      modifies this`core, this`swapmap, this`procs, this`ended
      ensures State() == ReadImage(old(State()), p, a) && Grew(0, 1)
    {
      hide Put, Get, Join;
      core := Put(core, a, Get(store, procs[p].addr, procs[p].size));
      SwapMFree(procs[p].size, procs[p].addr);
      procs := procs[p := procs[p].(addr := a, load := true)];
    }

    /** Text t for one process in core more; false if there is no room to bring it in. */
    method EnterText(t: nat) returns (ok: bool)
      requires Ordered(coremap) && t < |texts|
      modifies this`coremap, this`core, this`texts, this`touched
      ensures UseText(old(State()), t) == if ok then Some(State()) else None
      ensures !ok ==> State() == old(State())
      ensures |coremap| <= |old(coremap)|
    {
      hide Put, Get, Alloc;
      if texts[t].ccount == 0 {
        var x := CoreMalloc(texts[t].size);
        if x == 0 {
          return false;
        }
        texts := texts[t := texts[t].(caddr := x)];
        touched := touched - {t};
        if texts[t].ready {
          core := Put(core, x, Get(store, texts[t].daddr, texts[t].size));
        }
      }
      texts := texts[t := texts[t].(ccount := texts[t].ccount + 1)];
      ok := true;
      assert texts == old(texts)[t := texts[t]];
    }

    /** xfree. */
    method XFree()
      requires Good(State()) && Running(State())
      modifies this
      ensures TextInTable(old(State()), old(live.procp)) && State() == ProcText.XFree(old(State())) && Good(State())
      ensures Grew(1, 1)
    {
      hide Good, InUse, Join, ProcSteps.XccDec;
      RunningFacts(State());
      LeaveGood(State());
      var p := live.procp;
      if procs[p].text == None {
        return;
      }
      ghost var s := State();
      var t := procs[p].text.value;
      procs := procs[p := procs[p].(text := None)];
      texts := texts[t := texts[t].(count := texts[t].count - 1)];
      assert State() == Detach(s, p, t);
      if texts[t].count == 0 && !texts[t].sticky {
        texts := texts[t := texts[t].(used := false)];
        SwapMFree(texts[t].size, texts[t].daddr);
        CoreMFree(texts[t].size, texts[t].caddr);
      } else {
        XccDec(Some(t));
      }
    }

    /** The part of exit that gives memory back. */
    method Exit()
      requires Good(State()) && Running(State()) && live.procp != 0
      modifies this
      ensures TextInTable(old(State()), old(live.procp)) && State() == ProcText.Exit(old(State())) && Good(State())
      ensures Grew(2, 1)
    {
      hide Good, InUse, Join, ProcText.XFree;
      RunningFacts(State());
      XFreeProcs(State());
      ExitGood(State());
      XFree();
      var p := live.procp;
      CoreMFree(procs[p].size, procs[p].addr);
      if procs[p].addr == uhome {
        uhome := NOUHOME;
      }
      procs := procs[p := procs[p].(stat := Zombie)];
    }

    /** xuntext. */
    method XUntext(t: nat)
      requires Good(State()) && TextUsed(State(), t)
      modifies this`texts, this`swapmap, this`ended
      ensures State() == ProcExec.XUntext(old(State()), t) && Good(State())
      ensures Grew(0, 1)
    {
      hide Inv, Join;
      UntextGood(State(), t);
      if texts[t].count != 0 {
        return;
      }
      texts := texts[t := texts[t].(used := false)];
      SwapMFree(texts[t].size, texts[t].daddr);
    }

    /** The end of xalloc and xexpand: the current process is attached to t; if there is no room for
        the text it goes out itself.  False: out of swap space. */
    method XEnter(t: nat) returns (ok: bool)
      requires Ordered(coremap) && Ordered(swapmap) && TextInTable(State(), live.procp) && t < |texts|
      requires procs[live.procp].addr > 0
      modifies this
      ensures Enter(old(State()), t) == if ok then Some(State()) else None
      ensures Grew(2, 0)
    {
      hide Ordered, Alloc, Join, Put, Get, UseText, ProcSwap.XSwap, SwapImage;
      var p := live.procp;
      SwapImageIsXSwap(State(), p, procs[p].size);
      assert procs[p := procs[p].(size := procs[p].size)] == procs;
      ok := EnterText(t);
      if !ok {
        ok := XSwap(p, true, 0);
      }
    }

    /** xalloc's walk over the table: where the inode's entry is, and the first unused one before it. */
    method FindText(ip: nat) returns (xp: nat, xp1: nat)
      ensures xp == Lookup(texts, ip)
      ensures xp == |texts| ==> xp1 == Unused(texts)
    {
      xp, xp1 := 0, |texts|;
      while xp < |texts|
        invariant xp <= |texts| && xp <= Lookup(texts, ip)
        invariant xp1 == if Unused(texts) < xp then Unused(texts) else |texts|
      {
        if !texts[xp].used {
          if xp1 == |texts| {
            xp1 := xp;
          }
        } else if texts[xp].inode == ip {
          return;
        }
        xp := xp + 1;
      }
    }

    /** xalloc for a text of n pages of inode ip.  False: out of swap space. */
    method XAlloc(ip: nat, sticky: bool, n: nat) returns (ok: bool)
      requires Good(State()) && Running(State()) && live.procp != 0 && procs[live.procp].text == None && n > 0
      modifies this
      ensures ProcExec.XAlloc(old(State()), ip, sticky, n) == if ok then Some(State()) else None
      ensures ok ==> Good(State())
      ensures Grew(2, 0)
    {
      hide Good, InUse, Free, Ordered, Alloc, Lookup, Unused, Enter, NewText;
      ghost var s := State();
      GoodFacts(s);
      RunningFacts(s);
      if ProcExec.XAlloc(s, ip, sticky, n).Some? {
        EnterGood(s, ip, sticky, n);
      }
      var p := live.procp;
      var xp, xp1 := FindText(ip);
      if xp < |texts| {
        texts := texts[xp := texts[xp].(count := texts[xp].count + 1)];
        procs := procs[p := procs[p].(text := Some(xp))];
        ok := XEnter(xp);
        return;
      }
      if xp1 == |texts| {
        return true;
      }
      ok := NewEntry(xp1, ip, sticky, n);
    }

    /** A new entry xp for the text, and the current process its first user. */
    method NewEntry(xp: nat, ip: nat, sticky: bool, n: nat) returns (ok: bool)
      requires Ordered(coremap) && Ordered(swapmap) && live.procp < |procs| && procs[live.procp].addr > 0 && xp < |texts|
      modifies this
      ensures var s := old(State());
              (match NewText(s, xp, ip, sticky, n)
               case None => None
               case Some(s1) => Enter(Attach(s1, s.live.procp, xp), xp)) == if ok then Some(State()) else None
      ensures Grew(2, 0)
    {
      hide Ordered, Alloc, Enter;
      ghost var s := State();
      var p := live.procp;
      var a := SwapMalloc(n);
      if a == 0 {
        return false;
      }
      LeftOrdered(s.swapmap, n);
      texts := texts[xp := TextSeg(true, ip, sticky, 1, 0, a, texts[xp].caddr, n, false, false)];
      procs := procs[p := procs[p].(text := Some(xp))];
      assert texts == NewText(s, xp, ip, sticky, n).value.texts[xp := texts[xp]];
      assert State() == Attach(NewText(s, xp, ip, sticky, n).value, p, xp);
      ok := XEnter(xp);
    }

    /** expand(n), the u-area having become u by the save(u_ssav) of the growing arms.  False: out of
        swap space. */
    method Expand(n: nat, u: UArea) returns (ok: bool)
      requires Good(State()) && Running(State()) && u.procp == live.procp != 0 && n > 0
      modifies this
      ensures TextInTable(old(State()), old(live.procp)) && old(procs[live.procp].size) > 0
      ensures var s := old(State());
              var s1 := if n > s.procs[s.live.procp].size then s.(live := u) else s;
              ExpandTo(s1, n) == if ok then Some(State()) else None
      ensures ok ==> Good(State())
      ensures Grew(2, 0)
    {
      hide Good, Free, Ordered, InUse, Alloc, Join, Put, Get, ProcSwap.XSwap, SwapImage, ExpandTo;
      ghost var s := State();
      GoodFacts(s);
      RunningFacts(s);
      GrowGood(s, u, n);
      ExpandArms(if n > s.procs[s.live.procp].size then s.(live := u) else s, n);
      var p := live.procp;
      var size, a1 := procs[p].size, procs[p].addr;
      procs := procs[p := procs[p].(size := n)];
      if size >= n {
        CoreMFree(size - n, a1 + n);
        return true;
      }
      live := u;
      ok := Enlarge(n, size, s.(live := u));
    }

    /** expand's growing arms, the new size set: the image of size pages is moved, or goes out. */
    method Enlarge(n: nat, size: nat, ghost s: Sys) returns (ok: bool)
      requires Ordered(s.coremap) && Ordered(s.swapmap) && TextInTable(s, s.live.procp) && 0 < size == s.procs[s.live.procp].size < n
      requires var q := s.procs[s.live.procp]; q.addr > 0 && q.addr + size <= |s.core| && InUse(s.coremap, size, q.addr)
      requires forall u :: Free(s.coremap, u) ==> u < |s.core|
      requires State() == s.(procs := s.procs[s.live.procp := s.procs[s.live.procp].(size := n)])
      modifies this
      ensures (if Move(s, n).Some? then Move(s, n) else ProcSwap.XSwap(s, s.live.procp, n)) == if ok then Some(State()) else None
      ensures Grew(2, 0)
    {
      hide Free, Ordered, InUse, Alloc, Join, Put, Get, ProcSwap.XSwap, SwapImage;
      var p := live.procp;
      var a2 := CoreMalloc(n);
      if a2 == 0 {
        SwapImageIsXSwap(State(), p, size);
        assert procs[p := procs[p].(size := size)] == s.procs;
        ok := XSwap(p, true, size);
      } else {
        GrantApart(s.coremap, n, procs[p].addr, size, |core|);
        MoveTo(a2, size);
        ok := true;
        assert s.procs[p := s.procs[p].(addr := a2, size := n)] == procs;
      }
    }

    /** The image of the current process, of size pages, goes to a2, all but its u page. */
    method MoveTo(a2: nat, size: nat)
      requires live.procp < |procs| && size > 0
      requires var a1 := procs[live.procp].addr;
               a1 + size <= |core| && a2 + size <= |core| && (a1 + size <= a2 || a2 + size <= a1)
      modifies this`core, this`coremap, this`procs, this`uhome, this`ended
      ensures var q := old(procs[live.procp]);
              && core == Put(old(core), a2 + 1, Get(old(core), q.addr + 1, size - 1)) && uhome == a2
              && coremap == Join(old(coremap), size, q.addr) && procs == old(procs)[live.procp := q.(addr := a2)]
      ensures Grew(1, 0)
    {
      hide Join, Put, Get;
      var p := live.procp;
      var a1 := procs[p].addr;
      procs := procs[p := procs[p].(addr := a2)];
      CopyPages(a1 + 1, a2 + 1, size - 1);
      uhome := a2;
      CoreMFree(size, a1);
    }

    /** sched() swaps out a victim.  False: out of swap space. */
    method SwapOut(p: nat) returns (ok: bool)
      requires Good(State()) && live.procp == 0 && InCore(State(), p) && p != 0
      modifies this
      ensures TextInTable(old(State()), p)
      ensures ProcSwap.XSwap(old(State()), p, old(procs[p].size)) == if ok then Some(State()) else None
      ensures ok ==> Good(State())
      ensures Grew(2, 0)
    {
      hide Good, Free, Ordered, SwapImage, ProcSwap.XSwap;
      ghost var s := State();
      GoodFacts(s);
      TextsInTable(s, p);
      GoodImage(s, p);
      SwapImageIsXSwap(s, p, procs[p].size);
      assert s.procs[p := s.procs[p].(size := s.procs[p].size)] == s.procs;
      if ProcSwap.XSwap(s, p, procs[p].size).Some? {
        SwapOutGood(s, p, procs[p].size);
      }
      ok := XSwap(p, true, 0);
    }

    /** newproc in the parent, whose u-area becomes u by the save(u_ssav): the child's slot, and false
        when there is no slot or no swap space, which are panics. */
    method NewProc(u: UArea) returns (c: nat, ok: bool)
      requires Good(State()) && Running(State()) && u.procp == live.procp && procs[live.procp].stat == Runs
      modifies this
      ensures c <= NPROC && (c < NPROC <==> exists i :: 0 <= i < NPROC && old(procs)[i].stat == Null)
      ensures c == NPROC ==> !ok
      ensures c < NPROC ==>
        Enabled(old(State()), Fork(c, u)) && ProcOps.NewProc(old(State()), c, u) == if ok then Some(State()) else None
      ensures ok ==> Good(State())
      ensures Grew(2, 0)
    {
      hide Good, InUse, Free, Ordered, Alloc, Put, Get, SwapImage;
      ghost var s := State();
      GoodFacts(s);
      RunningFacts(s);
      c := FreeSlot();
      if c == NPROC {
        return c, false;
      }
      var p := live.procp;
      var q := procs[p];
      BeginFork(c, u);
      hide AddUser, Begun;
      var a2 := CoreMalloc(q.size);
      if a2 == 0 {
        ok := ForkToStore(c, p, s, u);
      } else {
        GrantApart(s.coremap, q.size, q.addr, q.size, |core|);
        ForkToCore(c, p, a2, s, u);
        ok := true;
      }
      if ok {
        ForkGood(s, c, u);
      }
    }

    /** No core for the child: its image is the parent's, copied to the paging store. */
    method ForkToStore(c: nat, p: nat, ghost s: Sys, ghost u: UArea) returns (ok: bool)
      requires p == s.live.procp && TextInTable(s, p) && c < |s.procs| && c != p && u.procp == p && Ordered(s.swapmap)
      requires var q := s.procs[p];
               && q.stat == Runs && q.addr == s.uhome && (q.text.Some? ==> s.texts[q.text.value].ccount > 0)
               && Alloc(s.coremap, q.size) == None
      requires State() == Begun(s, c, u)
      modifies this
      ensures ProcOps.NewProc(s, c, u) == if ok then Some(State()) else None
      ensures Grew(2, 0)
    {
      ForkOut(s, c, u);
      hide Ordered, Alloc, Put, Get, SwapImage, ProcOps.NewProc, AddUser;
      procs := procs[p := procs[p].(stat := Idle)];
      procs := procs[c := procs[c].(addr := procs[p].addr)];
      assert procs == ToCopyOut(s, c, u).procs;
      assert State() == ToCopyOut(s, c, u);
      hide ToCopyOut;
      ok := XSwap(c, false, 0);
      if ok {
        procs := procs[p := procs[p].(stat := Runs)];
        live := live.(procp := p);
      }
    }

    /** There is core at a2: the image is copied page by page. */
    method ForkToCore(c: nat, p: nat, a2: nat, ghost s: Sys, ghost u: UArea)
      requires p == s.live.procp && TextInTable(s, p) && c < |s.procs| && c != p && u.procp == p
      requires var q := s.procs[p];
               && q.addr + q.size <= |s.core| && a2 + q.size <= |s.core| && (q.addr + q.size <= a2 || a2 + q.size <= q.addr)
               && Alloc(s.coremap, q.size).Some? && a2 == Alloc(s.coremap, q.size).value.addr
               && State() == Begun(s, c, u).(coremap := Alloc(s.coremap, q.size).value.left)
      modifies this
      ensures ProcOps.NewProc(s, c, u) == Some(State()) && Grew(0, 0)
    {
      hide Alloc, Put, Get, AddUser;
      procs := procs[c := procs[c].(addr := a2)];
      CopyPages(procs[p].addr, a2, procs[p].size);
      live := live.(procp := p);
      assert procs == s.procs[c := Proc(Runs, true, a2, s.procs[p].size, s.procs[p].text)];
    }

    /** newproc up to the copying: the slot filled in, the text counted, and the u page the child is
        to have flushed to the parent's image. */
    method BeginFork(c: nat, u: UArea)
      requires TextInTable(State(), live.procp) && c < |procs|
      modifies this`procs, this`texts, this`live, this`core, this`home
      ensures State() == Begun(old(State()), c, u)
    {
      hide Put;
      var q := procs[live.procp];
      procs := procs[c := Proc(Runs, true, procs[c].addr, q.size, q.text)];
      if q.text.Some? {
        var t := q.text.value;
        texts := texts[t := texts[t].(count := texts[t].count + 1, ccount := texts[t].ccount + 1)];
      }
      live := u.(procp := c);
      UFlush(q.addr);
    }

    method FreeSlot() returns (c: nat)
      requires |procs| == NPROC
      ensures c <= NPROC && (c < NPROC ==> procs[c].stat == Null)
      ensures forall i :: 0 <= i < c ==> procs[i].stat != Null
    {
      c := 0;
      while c < NPROC && procs[c].stat != Null
        invariant c <= NPROC && forall i :: 0 <= i < c ==> procs[i].stat != Null
      {
        c := c + 1;
      }
    }
  }

  lemma {:induction false} GoodFacts(s: Sys)
    requires Good(s)
    ensures |s.procs| == NPROC && Ordered(s.coremap) && Ordered(s.swapmap)
    ensures forall x :: Free(s.coremap, x) ==> x < |s.core|
  {
    hide Free, Ordered, Counted, HomesKept, TextsKept;
  }

  lemma UntextGood(s: Sys, t: nat)
    requires Good(s) && TextUsed(s, t)
    ensures Good(ProcExec.XUntext(s, t))
  {
    XUntextKeeps(s, Loaded(s), t);
    assert Loaded(ProcExec.XUntext(s, t)) == Loaded(s);
    hide Inv;
  }

  /** Where the image of the running process is, and that its text is counted. */
  lemma {:induction false} RunningFacts(s: Sys)
    requires Good(s) && Running(s)
    ensures TextInTable(s, s.live.procp)
    ensures var q := s.procs[s.live.procp];
            && 0 < q.size && 0 < q.addr == s.uhome && q.addr + q.size <= |s.core| && InUse(s.coremap, q.size, q.addr)
            && (q.text.Some? ==> s.texts[q.text.value].count > 0 && s.texts[q.text.value].ccount > 0)
  {
    var p := s.live.procp;
    var q := s.procs[p];
    hide Ordered, Free, Counted, HomesKept, TextsKept;
    ImageRange(s, p);
    assert forall x :: Inside(q.addr, q.size, x) ==> CoreHolding(s)(Image(p), x);
    forall x | q.addr <= x < q.addr + q.size ensures !Free(s.coremap, x) {
      assert Inside(q.addr, q.size, x);
    }
    if q.text.Some? {
      SomeCount(s, Loaded(s), p, q.text.value);
    }
  }

  /** The state when newproc comes to copy the image. */
  function Begun(s: Sys, c: nat, u: UArea): Sys
    requires TextInTable(s, s.live.procp) && c < |s.procs|
  {
    var q := s.procs[s.live.procp];
    Simulate(s, c, u).(live := u.(procp := c), texts := AddUser(s.texts, q.text, true),
      procs := s.procs[c := Proc(Runs, true, s.procs[c].addr, q.size, q.text)])
  }

  /** The state in which it calls xswap. */
  function ToCopyOut(s: Sys, c: nat, u: UArea): Sys
    requires TextInTable(s, s.live.procp) && c < |s.procs|
  {
    var q, b := s.procs[s.live.procp], Begun(s, c, u);
    b.(procs := b.procs[s.live.procp := q.(stat := Idle)][c := Proc(Runs, true, q.addr, q.size, q.text)])
  }

  lemma Uncount(s2: Sys, s: Sys, text: Option<nat>)
    requires text.Some? ==> text.value < |s.texts| && s.texts[text.value].ccount > 0
    requires s2.texts == AddUser(s.texts, text, true)
    ensures DropOf(s2, text) == s2.(texts := AddUser(s.texts, text, false))
  {
    if text.Some? {
      var t := text.value;
      assert s2.texts[t := s2.texts[t].(ccount := s.texts[t].ccount)] == AddUser(s.texts, text, false);
    }
  }

  /** The child's image copied out of the parent's: the count xccdec takes away is the one just added. */
  lemma {:induction false} ForkOut(s: Sys, c: nat, u: UArea)
    requires c < |s.procs| && c != s.live.procp && u.procp == s.live.procp
    requires TextInTable(s, s.live.procp) && s.procs[s.live.procp].stat == Runs && s.procs[s.live.procp].addr == s.uhome
    requires var q := s.procs[s.live.procp];
             (q.text.Some? ==> s.texts[q.text.value].ccount > 0) && Alloc(s.coremap, q.size) == None
    ensures var p, r, r' := s.live.procp, SwapImage(ToCopyOut(s, c, u), c, false, s.procs[s.live.procp].size), ProcOps.NewProc(s, c, u);
            && (r.None? <==> r'.None?)
            && (r.Some? ==>
                  && |r.value.procs| == |s.procs| && r.value.live == u.(procp := c)
                  && r'.value == r.value.(live := u, procs := r.value.procs[p := r.value.procs[p].(stat := Runs)]))
  {
    hide Alloc, Put, Get, SwapImage, ToCopyOut, ProcOps.NewProc;
    CopyOutIs(s, c, u);
    StoreForkIs(s, c, u);
    var q, p := s.procs[s.live.procp], s.live.procp;
    if Alloc(s.swapmap, q.size).Some? {
      var r := ChildOut(s, c, u, Alloc(s.swapmap, q.size).value);
      assert r.procs[p := q.(stat := Idle)][p := q] == r.procs;
    }
  }

  /** The child in the paging store, its image b at a. */
  function ChildOut(s: Sys, c: nat, u: UArea, g: Grant): Sys
    requires TextInTable(s, s.live.procp) && c < |s.procs|
  {
    var q, f := s.procs[s.live.procp], Simulate(s, c, u);
    f.(swapmap := g.left, swap := Put(f.swap, g.addr, Get(f.core, q.addr, q.size)), texts := AddUser(s.texts, q.text, false),
       procs := s.procs[c := Proc(Runs, false, g.addr, q.size, q.text)])
  }

  lemma {:induction false} CopyOutIs(s: Sys, c: nat, u: UArea)
    requires c < |s.procs| && c != s.live.procp && TextInTable(s, s.live.procp) && s.procs[s.live.procp].addr == s.uhome
    requires var q := s.procs[s.live.procp]; q.text.Some? ==> s.texts[q.text.value].ccount > 0
    ensures var p, q := s.live.procp, s.procs[s.live.procp];
            match Alloc(s.swapmap, q.size)
            case None => SwapImage(ToCopyOut(s, c, u), c, false, q.size) == None
            case Some(g) =>
              var r := ChildOut(s, c, u, g);
              SwapImage(ToCopyOut(s, c, u), c, false, q.size) ==
                Some(r.(live := u.(procp := c), procs := r.procs[p := q.(stat := Idle)]))
  {
    var p := s.live.procp;
    var q := s.procs[p];
    if Alloc(s.swapmap, q.size).Some? {
      var g := Alloc(s.swapmap, q.size).value;
      Uncount(ToCopyOut(s, c, u).(swapmap := g.left), s, q.text);
      hide Alloc, Put, Get, Clear, DropOf, AddUser;
      var h := [Home(u.(procp := c))];
      PutTwice(s.core, q.addr, h);
      PadNone(Put(s.core, q.addr, h), q.addr, q.size);
      assert s.home[c := u.(procp := c)][c := u.(procp := c)] == s.home[c := u.(procp := c)];
      var r := ChildOut(s, c, u, g);
      assert SwapImage(ToCopyOut(s, c, u), c, false, q.size).value.procs == r.procs[p := q.(stat := Idle)];
    }
  }

  lemma {:induction false} StoreForkIs(s: Sys, c: nat, u: UArea)
    requires c < |s.procs| && TextInTable(s, s.live.procp) && Alloc(s.coremap, s.procs[s.live.procp].size) == None
    ensures match Alloc(s.swapmap, s.procs[s.live.procp].size)
            case None => ProcOps.NewProc(s, c, u) == None
            case Some(g) => ProcOps.NewProc(s, c, u) == Some(ChildOut(s, c, u, g))
  {
    hide Alloc, Put, AddUser;
  }

  lemma PutTwice(mem: seq<Page>, a: nat, b: seq<Page>)
    ensures Put(Put(mem, a, b), a, b) == Put(mem, a, b)
  {
  }

  lemma TextsInTable(s: Sys, p: nat)
    requires Good(s) && p < |s.procs| && Alive(s.procs[p])
    ensures TextInTable(s, p)
  {
    hide CoreShared, SwapShared, Counted, HomesKept, TextsKept;
  }

  lemma SchedRuns(s: Sys)
    requires Good(s) && s.live.procp == 0
    ensures TextInTable(s, 0) && Running(s)
  {
    hide CoreShared, SwapShared, Counted, HomesKept, TextsKept;
  }

  lemma GoodImage(s: Sys, p: nat)
    requires Good(s) && InCore(s, p)
    ensures s.procs[p].addr > 0
  {
    hide CoreShared, SwapShared, Counted, HomesKept, TextsKept;
    ImageRange(s, p);
  }

  /** The running process may change its u-area, and then expand. */
  lemma {:induction false} GrowGood(s: Sys, u: UArea, n: nat)
    requires Good(s) && Running(s) && u.procp == s.live.procp && n > 0
    ensures TextInTable(s, s.live.procp) && s.procs[s.live.procp].size > 0
    ensures var s1 := if n > s.procs[s.live.procp].size then s.(live := u) else s;
            ExpandTo(s1, n).Some? ==> Good(ExpandTo(s1, n).value)
  {
    RunningFacts(s);
    var s1 := if n > s.procs[s.live.procp].size then s.(live := u) else s;
    LiveGood(s, u);
    hide Inv, ExpandTo;
    if ExpandTo(s1, n).Some? {
      ExpandGood(s1, n);
    }
  }

  lemma {:induction false} LiveGood(s: Sys, u: UArea)
    requires Good(s) && Running(s) && u.procp == s.live.procp
    ensures Good(s.(live := u))
  {
    hide CoreShared, SwapShared, Counted, HomesKept, TextsKept;
    var s', o := s.(live := u), Image(u.procp);
    SameClaims(s, s', Loaded(s));
    HomesFrame(s, s', o);
    TextsFrame(s, s', o);
    assert Loaded(s') == Loaded(s);
  }

  lemma ExpandArms(s: Sys, n: nat)
    requires TextInTable(s, s.live.procp) && s.procs[s.live.procp].size > 0 && s.live.procp != 0
    ensures var p := s.live.procp;
            ExpandTo(s, n) == if n <= s.procs[p].size then Some(Shrink(s, n))
                              else if Move(s, n).Some? then Move(s, n) else ProcSwap.XSwap(s, p, n)
  {
  }

  lemma XFreeProcs(s: Sys)
    requires TextInTable(s, s.live.procp)
    ensures |ProcText.XFree(s).procs| == |s.procs| && ProcText.XFree(s).live == s.live
  {
    hide Join, Put, Get;
  }

  lemma LeftOrdered(e: seq<Run>, n: nat)
    requires Ordered(e) && Alloc(e, n).Some?
    ensures Ordered(Alloc(e, n).value.left)
  {
    UndoAlloc(e, n);
  }

  /** A grant overlaps nothing that is in use, and lies where the free units lie. */
  lemma {:induction false} GrantApart(e: seq<Run>, n: nat, a: nat, m: nat, hi: nat)
    requires Ordered(e) && Alloc(e, n).Some? && n > 0 && m > 0 && InUse(e, m, a) && forall x :: Free(e, x) ==> x < hi
    ensures var b := Alloc(e, n).value.addr; b + n <= hi && (a + m <= b || b + n <= a)
  {
    hide Ordered, Cut, Free;
    var i := FirstFit(e, n);
    var b := e[i].addr;
    FreeRun(e, i, b + n - 1);
    if a <= b < a + m {
      FreeRun(e, i, b);
    } else if b <= a < b + n {
      FreeRun(e, i, a);
    }
  }

  /** What malloc leaves is in order, and giving back what it granted restores the map. */
  lemma {:induction false} UndoAlloc(e: seq<Run>, n: nat)
    requires Ordered(e) && Alloc(e, n).Some?
    ensures var g := Alloc(e, n).value; Ordered(g.left) && Join(g.left, n, g.addr) == e
  {
    hide Ordered, Cut, Join;
    CutTakes(e, FirstFit(e, n), n);
    JoinUndoesCut(e, FirstFit(e, n), n);
  }

  /** Two grants do not overlap. */
  lemma {:induction false} AllocApart(e: seq<Run>, n: nat, m: nat)
    requires Ordered(e) && Alloc(e, n).Some? && Alloc(Alloc(e, n).value.left, m).Some?
    ensures var a, b := Alloc(e, n).value.addr, Alloc(Alloc(e, n).value.left, m).value.addr;
            n == 0 || m == 0 || a + n <= b || b + m <= a
  {
    hide Ordered, Cut, Free;
    var i := FirstFit(e, n);
    CutTakes(e, i, n);
    var c := Cut(e, i, n);
    var j := FirstFit(c, m);
    var a, b := e[i].addr, c[j].addr;
    if n > 0 && m > 0 {
      if a <= b < a + n {
        FreeRun(c, j, b);
      } else if b <= a < b + m {
        FreeRun(c, j, a);
      }
    }
  }

  lemma PutApart(mem: seq<Page>, a: nat, x: seq<Page>, b: nat, y: seq<Page>)
    requires x == [] || y == [] || a + |x| <= b || b + |y| <= a
    ensures Put(Put(mem, a, x), b, y) == Put(Put(mem, b, y), a, x)
  {
  }

  function ReadImage(s: Sys, p: nat, a: nat): Sys
    requires p < |s.procs|
  {
    var q := s.procs[p];
    s.(core := Put(s.core, a, Get(s.swap, q.addr, q.size)), swapmap := Join(s.swapmap, q.size, q.addr),
       procs := s.procs[p := q.(addr := a, load := true)])
  }

  /** swapin in its own order: room for the image, then the text, then the image. */
  function SwapInCode(s: Sys, p: nat): Option<Sys>
    requires TextInTable(s, p)
  {
    var q := s.procs[p];
    match Alloc(s.coremap, q.size)
    case None => None
    case Some(g) =>
      var r := s.(coremap := g.left);
      match if q.text.Some? then UseText(r, q.text.value) else Some(r)
      case None => None
      case Some(d) => Some(ReadImage(d, p, g.addr))
  }

  /** Reading the text in before the image or after it comes to the same. */
  lemma {:induction false} SwapInOrder(s: Sys, p: nat)
    requires Ordered(s.coremap) && TextInTable(s, p)
    ensures SwapInCode(s, p) == ProcSwap.SwapIn(s, p)
  {
    hide Ordered, Join, Put, Get, Alloc;
    var q := s.procs[p];
    if Alloc(s.coremap, q.size).Some? {
      var g := Alloc(s.coremap, q.size).value;
      if q.text.Some? {
        var x := s.texts[q.text.value];
        if x.ccount == 0 && Alloc(g.left, x.size).Some? {
          AllocApart(s.coremap, q.size, x.size);
          PutApart(s.core, Alloc(g.left, x.size).value.addr, Get(s.swap, x.daddr, x.size), g.addr, Get(s.swap, q.addr, q.size));
        }
      }
    }
  }

  /** xccdec of a process's text, if it has one. */
  function DropOf(s: Sys, text: Option<nat>): (d: Sys)
    requires text.Some? ==> text.value < |s.texts|
    ensures d.procs == s.procs
  {
    match text
    case None => s
    case Some(t) => ProcSteps.XccDec(s, t)
  }

  lemma DropFrame(s: Sys, text: Option<nat>)
    requires text.Some? ==> text.value < |s.texts|
    ensures var d := DropOf(s, text);
            && d.procs == s.procs && d.uhome == s.uhome && d.live == s.live && d.swapmap == s.swapmap && d.core == s.core
            && d.home == s.home && d.content == s.content && d.touched == s.touched && d.lo == s.lo && d.slo == s.slo
  {
    hide Put, Get, Join;
  }

  lemma PadNone(core: seq<Page>, a: nat, n: nat)
    ensures Get(core, a, n) + Clear(0) == Get(core, a, n)
  {
  }

  /** The image of p copied to a, padded to p_size with zero pages; with ff its os pages of core freed. */
  function Written(f: Sys, p: nat, a: nat, os: nat, ff: bool): Sys
    requires p < |f.procs| && os <= f.procs[p].size
  {
    var q := f.procs[p];
    f.(swap := Put(f.swap, a, Get(f.core, q.addr, os) + Clear(q.size - os)),
       core := if ff && os < q.size then Put(f.core, q.addr, [CLEAR]) else f.core,
       coremap := if ff then Join(f.coremap, os, q.addr) else f.coremap,
       uhome := if ff && q.addr == f.uhome then NOUHOME else f.uhome,
       procs := f.procs[p := q.(addr := a, load := false)])
  }

  /** xswap in its own order: swap space first, then the text, the flush, the copy, the core. */
  function SwapImage(s: Sys, p: nat, ff: bool, os: nat): Option<Sys>
    requires TextInTable(s, p) && os <= s.procs[p].size
  {
    var q := s.procs[p];
    match Alloc(s.swapmap, q.size)
    case None => None
    case Some(g) =>
      var d := DropOf(s.(swapmap := g.left), q.text);
      var f := if q.addr == d.uhome then
                 d.(core := Put(d.core, d.uhome, [Home(d.live)]), home := d.home[d.live.procp := d.live]) else d;
      Some(Written(f, p, g.addr, os, ff))
  }

  lemma DropElsewhere(s: Sys, text: Option<nat>, m: seq<Run>, ps: seq<Proc>)
    requires text.Some? ==> text.value < |s.texts|
    ensures DropOf(s.(swapmap := m, procs := ps), text) == DropOf(s, text).(swapmap := m, procs := ps)
  {
    hide Put, Get, Join;
  }

  /** With ff this is the swap-out of an image of os pages that is to have p_size. */
  lemma {:induction false} SwapImageIsXSwap(s: Sys, p: nat, os: nat)
    requires TextInTable(s, p) && os <= s.procs[p].size && s.procs[p].addr > 0
    ensures SwapImage(s, p, true, os) == XSwap(s.(procs := s.procs[p := s.procs[p].(size := os)]), p, s.procs[p].size)
  {
    hide Put, Get, Clear, Join, Alloc, ProcSteps.XccDec;
    var q := s.procs[p];
    var s0 := s.(procs := s.procs[p := q.(size := os)]);
    DropFrame(s, q.text);
    DropElsewhere(s, q.text, s.swapmap, s0.procs);
    assert DropOf(s0, q.text) == DropOf(s, q.text).(procs := s0.procs);
    if Alloc(s.swapmap, q.size).Some? {
      var g := Alloc(s.swapmap, q.size).value;
      DropElsewhere(s, q.text, g.left, s.procs);
      assert DropOf(s.(swapmap := g.left), q.text) == DropOf(s, q.text).(swapmap := g.left);
      assert s0.procs[p := q.(addr := g.addr, load := false)] == s.procs[p := q.(addr := g.addr, load := false)];
    }
  }
}
