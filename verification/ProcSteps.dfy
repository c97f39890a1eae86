/** The steps the kernel's memory operations are made of, and what each keeps. */
module ProcSteps {
  import opened Common
  import opened ResourceMap
  import opened Space
  import opened Pages
  import opened ProcMem

  // ----- common ground -------------------------------------------------------------------------

  /** A step that moves no claim. */
  lemma {:induction false} SameClaims(s: Sys, s': Sys, users: set<nat>)
    requires Inv(s, users) && s'.live.procp < NPROC
    requires s'.procs == s.procs && s'.texts == s.texts && s'.coremap == s.coremap && s'.swapmap == s.swapmap
    requires s'.lo == s.lo && s'.slo == s.slo && |s'.core| == |s.core| && |s'.swap| == |s.swap|
    ensures Geometry(s') && CoreShared(s') && SwapShared(s') && Counted(s', users)
  {
    hide Shared, TextCounted;
    SameHolding(s.coremap, s.lo, |s.core|, CoreHolding(s), CoreHolding(s'));
    SameHolding(s.swapmap, s.slo, |s.swap|, SwapHolding(s), SwapHolding(s'));
  }

  /** How the counts of text t have to move when one process changes from old to new. */
  predicate CountMoves(x: TextSeg, x': TextSeg, was: Proc, now: Proc, used: bool, uses: bool, t: nat) {
    var a, b := Bit(Attached(was, t)), Bit(Attached(now, t));
    var c, d := Bit(used && Attached(was, t)), Bit(uses && Attached(now, t));
    if x'.used then
      if x.used then x'.count == x.count - a + b && x'.ccount == x.ccount - c + d
      else x'.count == b && x'.ccount == d
    else if x.used then x.count - a + b == 0
    else b == 0
  }

  lemma {:induction false} CountStep(s: Sys, s': Sys, u: set<nat>, u': set<nat>, p: nat)
    requires Counted(s, u) && p < |s.procs| == |s'.procs| && s'.procs == s.procs[p := s'.procs[p]]
    requires |s'.texts| == |s.texts| && forall i :: i != p ==> (i in u <==> i in u')
    requires forall t: nat :: t < |s.texts| ==>
      CountMoves(s.texts[t], s'.texts[t], s.procs[p], s'.procs[p], p in u, p in u', t)
    ensures Counted(s', u')
  {
    hide Refs, RefsIn, Attached;
    forall t: nat | t < |s'.texts| ensures TextCounted(s'.procs, s'.texts[t], u', t) {
      assert TextCounted(s.procs, s.texts[t], u, t);
      assert CountMoves(s.texts[t], s'.texts[t], s.procs[p], s'.procs[p], p in u, p in u', t);
      RefsUpdate(s.procs, p, s'.procs[p], u, u', t);
      RefsSome(s.procs, u, p, t);
    }
  }

  lemma {:induction false} ImageRange(s: Sys, p: nat)
    requires Geometry(s) && CoreShared(s) && SwapShared(s) && p < NPROC && Alive(s.procs[p])
    ensures InCore(s, p) ==> s.lo <= s.procs[p].addr && s.procs[p].addr + s.procs[p].size <= |s.core|
    ensures Out(s, p) ==> s.slo <= s.procs[p].addr && s.procs[p].addr + s.procs[p].size <= |s.swap|
  {
    hide Shared;
    var q := s.procs[p];
    if q.load {
      HeldRange(s.coremap, s.lo, |s.core|, CoreHolding(s), Image(p), q.addr, q.size);
    } else {
      HeldRange(s.swapmap, s.slo, |s.swap|, SwapHolding(s), Image(p), q.addr, q.size);
    }
  }

  // ----- uflush, uload, resume -----------------------------------------------------------------

  /** uflush(uhome): the live u-area goes to its home. */
  function Flush(s: Sys): Sys {
    if s.uhome == NOUHOME then s
    else s.(core := Put(s.core, s.uhome, [Home(s.live)]), home := s.home[s.live.procp := s.live])
  }

  /** uload(p_addr): the u-area of q becomes the live one. */
  function Load(s: Sys, q: nat): Sys
    requires q < |s.procs|
  {
    var h := Get(s.core, s.procs[q].addr, 1)[0];
    s.(live := if h.Home? then h.u else s.live, uhome := s.procs[q].addr)
  }

  /** resume(p_addr of q). */
  function Resume(s: Sys, q: nat): Sys
    requires q < |s.procs|
  {
    if s.procs[q].addr == s.uhome then s else Load(Flush(s), q)
  }

  /** What uflush writes is the head of an allocated image, the one of the process whose u-area is live. */
  lemma {:induction false} FlushHitsOwnImage(s: Sys, users: set<nat>)
    requires Inv(s, users) && s.uhome != NOUHOME
    ensures IsLive(s, s.live.procp) && s.uhome == s.procs[s.live.procp].addr
    ensures s.lo <= s.uhome < |s.core| && CoreHeld(s, Image(s.live.procp), s.uhome)
    ensures !Free(s.coremap, s.uhome)
  {
    hide Free, Ordered;
    var p := s.live.procp;
    ImageRange(s, p);
    assert CoreHolding(s)(Image(p), s.uhome);
  }

  /** Writing core that only o holds. */
  lemma {:induction false} WriteCore(s: Sys, s': Sys, o: Owner, a: nat, b: seq<Page>)
    requires CoreShared(s) && s'.core == Put(s.core, a, b)
    requires forall x :: Inside(a, |b|, x) ==> CoreHeld(s, o, x)
    ensures CoreSame(s, s', o)
  {
    hide Free, Ordered, CoreHeld;
    forall o', x: nat | o' != o && CoreHeld(s, o', x) && x < |s.core| ensures s'.core[x] == s.core[x] {
      assert CoreHolding(s)(o', x) && CoreHolding(s)(o, x) == CoreHeld(s, o, x);
      assert !Inside(a, |b|, x);
    }
  }

  lemma {:induction false} FlushKeeps(s: Sys, users: set<nat>)
    requires Inv(s, users) && s.uhome != NOUHOME
    ensures Inv(Flush(s), users) && HomeKept(Flush(s), s.live.procp)
  {
    hide CoreShared, SwapShared, Counted, HomesKept, TextsKept;
    var s', o := Flush(s), Image(s.live.procp);
    FlushHitsOwnImage(s, users);
    SameClaims(s, s', users);
    WriteCore(s, s', o, s.uhome, [Home(s.live)]);
    HomesFrame(s, s', o);
    TextsFrame(s, s', o);
  }

  lemma {:induction false} LoadKeeps(s: Sys, users: set<nat>, q: nat)
    requires Inv(s, users) && InCore(s, q) && q != s.live.procp
    requires IsLive(s, s.live.procp) ==> HomeKept(s, s.live.procp)
    ensures Inv(Load(s, q), users) && Load(s, q).live.procp == q && Load(s, q).home == s.home
    ensures q in s.home && Load(s, q).live == s.home[q]
  {
    hide CoreShared, SwapShared, Counted, TextsKept;
    var s' := Load(s, q);
    ImageRange(s, q);
    assert HomeKept(s, q);
    SameClaims(s, s', users);
    forall p: nat | p < |s'.procs| && Alive(s'.procs[p]) && !IsLive(s', p) ensures HomeKept(s', p) {
      assert HomeKept(s, p);
    }
    assert TextsKept(s') by {
      TextsFrame(s, s', Image(q));
    }
  }

  /** Each process resumes with the u-area it last saved, and the one that was running has it saved. */
  lemma {:induction false} ResumeKeeps(s: Sys, users: set<nat>, q: nat)
    requires Inv(s, users) && InCore(s, q)
    ensures Inv(Resume(s, q), users) && Resume(s, q).live.procp == q
    ensures Resume(s, q).live == if q == s.live.procp then s.live else s.home[q]
    ensures IsLive(s, s.live.procp) && q != s.live.procp ==>
      s.live.procp in Resume(s, q).home && Resume(s, q).home[s.live.procp] == s.live
  {
    hide CoreShared, SwapShared, Counted, HomesKept, TextsKept, HomePage;
    ImageRange(s, q);
    if q != s.live.procp {
      if IsLive(s, s.live.procp) {
        ImageRange(s, s.live.procp);
      }
      if s.uhome != NOUHOME {
        FlushHitsOwnImage(s, users);
        HeadsApart(s, q, s.live.procp);
        FlushKeeps(s, users);
      }
      LoadKeeps(Flush(s), users, q);
    }
  }

  /** Images in core start at different addresses. */
  lemma {:induction false} HeadsApart(s: Sys, p: nat, q: nat)
    requires Geometry(s) && CoreShared(s) && InCore(s, p) && InCore(s, q) && p != q
    ensures s.procs[p].addr != s.procs[q].addr
  {
    hide Free, Ordered;
    var a, b := s.procs[p].addr, s.procs[q].addr;
    assert CoreHolding(s)(Image(p), a) && CoreHolding(s)(Image(q), b);
  }

  // ----- text segments -------------------------------------------------------------------------

  /** xccdec: one process in core fewer uses text t. */
  function XccDec(s: Sys, t: nat): Sys
    requires t < |s.texts|
  {
    var x := s.texts[t];
    if x.ccount == 0 then s
    else if x.ccount > 1 then s.(texts := s.texts[t := x.(ccount := x.ccount - 1)])
    else s.(texts := s.texts[t := x.(ccount := 0, writ := false)],
            swap := if x.writ then Put(s.swap, x.daddr, Get(s.core, x.caddr, x.size)) else s.swap,
            coremap := Join(s.coremap, x.size, x.caddr))
  }

  lemma {:induction false} DropCounts(s: Sys, users: set<nat>, p: nat, t: nat)
    requires Inv(s, users) && p < NPROC && p in users && Attached(s.procs[p], t)
    ensures t < NTEXT && s.texts[t].ccount > 0 && s.texts[t].used
    ensures Counted(XccDec(s, t), users - {p})
  {
    hide CoreShared, SwapShared, HomesKept, TextsKept, Refs, RefsIn;
    var s' := XccDec(s, t);
    RefsSome(s.procs, users, p, t);
    assert TextCounted(s.procs, s.texts[t], users, t);
    CountStep(s, s', users, users - {p}, p);
  }

  lemma {:induction false} WriteSwap(s: Sys, s': Sys, o: Owner, a: nat, b: seq<Page>)
    requires SwapShared(s) && s'.swap == Put(s.swap, a, b)
    requires forall x :: Inside(a, |b|, x) ==> SwapHeld(s, o, x)
    ensures SwapSame(s, s', o)
  {
    hide Free, Ordered, SwapHeld;
    forall o', x: nat | o' != o && SwapHeld(s, o', x) && x < |s.swap| ensures s'.swap[x] == s.swap[x] {
      assert SwapHolding(s)(o', x) && SwapHolding(s)(o, x) == SwapHeld(s, o, x);
      assert !Inside(a, |b|, x);
    }
  }

  /** The last user leaves: the core of the text goes back to the map. */
  lemma {:induction false} DropShares(s: Sys, users: set<nat>, t: nat)
    requires Inv(s, users) && TextIn(s, t)
    ensures CoreShared(XccDec(s, t)) && SwapShared(XccDec(s, t))
  {
    hide Shared, Counted, HomesKept, TextsKept, Join;
    var s', x := XccDec(s, t), s.texts[t];
    TextRange(s, t);
    HeldRange(s.coremap, s.lo, |s.core|, CoreHolding(s), Text(t), x.caddr, x.size);
    if x.ccount == 1 {
      Give(s.coremap, s.lo, |s.core|, CoreHolding(s), CoreHolding(s'), Text(t), x.caddr, x.size);
    } else {
      SameHolding(s.coremap, s.lo, |s.core|, CoreHolding(s), CoreHolding(s'));
    }
    SameHolding(s.swapmap, s.slo, |s.swap|, SwapHolding(s), SwapHolding(s'));
  }

  lemma {:induction false} DropKeeps(s: Sys, users: set<nat>, p: nat, t: nat)
    requires Inv(s, users) && p < NPROC && p in users && Attached(s.procs[p], t)
    ensures Inv(XccDec(s, t), users - {p})
  {
    hide CoreShared, SwapShared, Counted, HomesKept, TextsKept, Join;
    DropCounts(s, users, p, t);
    DropShares(s, users, t);
    var s', x := XccDec(s, t), s.texts[t];
    if x.ccount == 1 && x.writ {
      WriteSwap(s, s', Text(t), x.daddr, Get(s.core, x.caddr, x.size));
    }
    HomesFrame(s, s', Text(t));
    if x.ready {
      KeptText(s, t);
      DropWrites(s, users, t);
    }
    TextsFrame(s, s', Text(t));
  }

  lemma KeptText(s: Sys, t: nat)
    requires TextsKept(s) && TextUsed(s, t) && s.texts[t].ready
    ensures TextKept(s, t)
  {
  }

  /** A text that leaves core loses nothing: what XWRIT marks is written out. */
  lemma {:induction false} DropWrites(s: Sys, users: set<nat>, t: nat)
    requires Inv(s, users) && TextIn(s, t) && s.texts[t].ready
    ensures TextKept(XccDec(s, t), t)
  {
    hide CoreShared, SwapShared, Counted, HomesKept, Join;
    var s', x := XccDec(s, t), s.texts[t];
    TextRange(s, t);
    if x.ccount == 1 && x.writ {
      assert Get(s'.swap, x.daddr, x.size) == Get(s.core, x.caddr, x.size);
    }
  }

  /** One process in core more uses text t: it is brought in if nobody in core uses it yet. */
  function UseText(s: Sys, t: nat): (r: Option<Sys>)
    requires t < |s.texts|
    ensures r.Some? ==> r.value.procs == s.procs
  {
    var x := s.texts[t];
    if x.ccount > 0 then Some(s.(texts := s.texts[t := x.(ccount := x.ccount + 1)]))
    else
      match Alloc(s.coremap, x.size)
      case None => None
      case Some(g) =>
        Some(s.(coremap := g.left, texts := s.texts[t := x.(caddr := g.addr, ccount := 1)], touched := s.touched - {t},
                core := if x.ready then Put(s.core, g.addr, Get(s.swap, x.daddr, x.size)) else s.core))
  }

  lemma {:induction false} UseShares(s: Sys, users: set<nat>, t: nat)
    requires Inv(s, users) && TextUsed(s, t) && UseText(s, t).Some?
    ensures var s' := UseText(s, t).value; CoreShared(s') && SwapShared(s') && CoreSame(s, s', Text(t))
  {
    hide Shared, Counted, HomesKept, TextsKept, Alloc;
    var s', x := UseText(s, t).value, s.texts[t];
    if x.ccount == 0 {
      Hand(s.coremap, s.lo, |s.core|, CoreHolding(s), CoreHolding(s'), Text(t), x.size);
      Granted(s.coremap, s.lo, |s.core|, CoreHolding(s), x.size);
      forall o', x': nat | CoreHeld(s, o', x') && x' < |s.core| ensures s'.core[x'] == s.core[x'] {
        assert CoreHolding(s)(o', x');
        assert !Inside(Alloc(s.coremap, x.size).value.addr, x.size, x');
      }
    } else {
      SameHolding(s.coremap, s.lo, |s.core|, CoreHolding(s), CoreHolding(s'));
    }
    SameHolding(s.swapmap, s.slo, |s.swap|, SwapHolding(s), SwapHolding(s'));
  }

  /** A text that comes into core comes with its contents. */
  lemma {:induction false} UseReads(s: Sys, users: set<nat>, t: nat)
    requires Inv(s, users) && TextUsed(s, t) && UseText(s, t).Some? && s.texts[t].ccount == 0 && s.texts[t].ready
    ensures TextKept(UseText(s, t).value, t)
  {
    hide Shared, Counted, HomesKept, Alloc;
    var s', x := UseText(s, t).value, s.texts[t];
    assert TextKept(s, t);
    Granted(s.coremap, s.lo, |s.core|, CoreHolding(s), x.size);
    assert Get(s'.core, s'.texts[t].caddr, x.size) == Get(s.swap, x.daddr, x.size);
  }

  lemma {:induction false} UseKeeps(s: Sys, users: set<nat>, p: nat, t: nat)
    requires Inv(s, users) && p < NPROC && p !in users && Attached(s.procs[p], t) && TextUsed(s, t)
    requires UseText(s, t).Some?
    ensures Inv(UseText(s, t).value, users + {p})
  {
    hide CoreShared, SwapShared, Counted, HomesKept, TextsKept, HomePage, Alloc, Put, Get;
    var s', x := UseText(s, t).value, s.texts[t];
    UseShares(s, users, t);
    CountStep(s, s', users, users + {p}, p);
    HomesFrame(s, s', Text(t));
    if x.ready {
      KeptText(s, t);
      if x.ccount == 0 {
        UseReads(s, users, t);
      }
    }
    TextsFrame(s, s', Text(t));
  }
}
