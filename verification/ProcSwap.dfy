/** Images going out to the paging store and coming back in: xswap() and swapin(). */
module ProcSwap {
  import opened Common
  import opened ResourceMap
  import opened Space
  import opened Pages
  import opened ProcMem
  import opened ProcSteps

  // ----- out -----------------------------------------------------------------------------------

  /** xswap's transfer: the image of p, its u page fresh, is written out padded to n pages, and its
      core is freed.  None: out of swap space. */
  function WriteOut(s: Sys, p: nat, n: nat): Option<Sys>
    requires p < |s.procs| && n >= s.procs[p].size
  {
    var q := s.procs[p];
    match Alloc(s.swapmap, n)
    case None => None
    case Some(g) =>
      Some(s.(swapmap := g.left, swap := Put(s.swap, g.addr, Get(s.core, q.addr, q.size) + Clear(n - q.size)),
              core := if q.size < n then Put(s.core, q.addr, [CLEAR]) else s.core,
              coremap := Join(s.coremap, q.size, q.addr),
              uhome := if q.addr == s.uhome then NOUHOME else s.uhome,
              procs := s.procs[p := q.(load := false, addr := g.addr, size := n)]))
  }

  lemma {:induction false} OutShares(s: Sys, users: set<nat>, p: nat, n: nat)
    requires Inv(s, users) && InCore(s, p) && n >= s.procs[p].size && WriteOut(s, p, n).Some?
    ensures var s' := WriteOut(s, p, n).value;
            CoreShared(s') && SwapShared(s') && CoreSame(s, s', Image(p)) && SwapSame(s, s', Image(p))
  {
    hide Shared, Counted, HomesKept, TextsKept, Alloc, Join;
    var s', q, g := WriteOut(s, p, n).value, s.procs[p], Alloc(s.swapmap, n).value;
    ImageRange(s, p);
    Give(s.coremap, s.lo, |s.core|, CoreHolding(s), CoreHolding(s'), Image(p), q.addr, q.size);
    Hand(s.swapmap, s.slo, |s.swap|, SwapHolding(s), SwapHolding(s'), Image(p), n);
    Granted(s.swapmap, s.slo, |s.swap|, SwapHolding(s), n);
    if q.size < n {
      WriteCore(s, s', Image(p), q.addr, [CLEAR]);
    }
    forall o, x: nat | SwapHeld(s, o, x) && x < |s.swap| ensures s'.swap[x] == s.swap[x] {
      assert SwapHolding(s)(o, x);
      assert !Inside(g.addr, n, x);
    }
  }

  /** The copy in the paging store is the image, then zero pages. */
  lemma {:induction false} OutWrites(s: Sys, users: set<nat>, p: nat, n: nat)
    requires Inv(s, users) && InCore(s, p) && n >= s.procs[p].size && WriteOut(s, p, n).Some?
    ensures var s', q := WriteOut(s, p, n).value, s.procs[p];
            Get(s'.swap, s'.procs[p].addr, n) == Get(s.core, q.addr, q.size) + Clear(n - q.size)
  {
    hide Shared, Counted, HomesKept, TextsKept, Alloc, Join;
    var s' := WriteOut(s, p, n).value;
    Granted(s.swapmap, s.slo, |s.swap|, SwapHolding(s), n);
    assert Get(s'.swap, s'.procs[p].addr, n) == Get(s.core, s.procs[p].addr, s.procs[p].size) + Clear(n - s.procs[p].size);
  }

  lemma {:induction false} OutGeometry(s: Sys, users: set<nat>, p: nat, n: nat)
    requires Inv(s, users) && InCore(s, p) && p != 0 && n >= s.procs[p].size && WriteOut(s, p, n).Some?
    ensures var s' := WriteOut(s, p, n).value; Geometry(s') && AtHome(s') && Counted(s', users)
  {
    hide CoreShared, SwapShared, Counted, HomesKept, TextsKept, Alloc, Join, Put, Get;
    var s' := WriteOut(s, p, n).value;
    ImageRange(s, p);
    if p != s.live.procp && InCore(s, s.live.procp) {
      HeadsApart(s, p, s.live.procp);
    }
    CountStep(s, s', users, users, p);
  }

  lemma {:induction false} OutHome(s: Sys, users: set<nat>, p: nat, n: nat)
    requires Inv(s, users) && InCore(s, p) && n >= s.procs[p].size && HomeKept(s, p) && WriteOut(s, p, n).Some?
    requires Geometry(WriteOut(s, p, n).value)
    ensures HomeKept(WriteOut(s, p, n).value, p)
  {
    hide CoreShared, SwapShared, Counted, HomesKept, TextsKept, AtHome, Alloc, Join;
    var s', q := WriteOut(s, p, n).value, s.procs[p];
    OutShares(s, users, p, n);
    OutWrites(s, users, p, n);
    ImageRange(s, p);
    ImageRange(s', p);
    assert Get(s'.swap, s'.procs[p].addr, n)[0] == Get(s.core, q.addr, q.size)[0];
  }

  lemma {:induction false} OutKeeps(s: Sys, users: set<nat>, p: nat, n: nat)
    requires Inv(s, users) && InCore(s, p) && p != 0 && n >= s.procs[p].size && WriteOut(s, p, n).Some?
    requires HomeKept(s, p)
    ensures Inv(WriteOut(s, p, n).value, users)
  {
    hide CoreShared, SwapShared, Counted, HomesKept, TextsKept, AtHome, HomePage, Alloc, Join, Put, Get;
    var s' := WriteOut(s, p, n).value;
    OutShares(s, users, p, n);
    OutGeometry(s, users, p, n);
    OutHome(s, users, p, n);
    HomesFrame(s, s', Image(p));
    TextsFrame(s, s', Image(p));
  }

  /** xswap(p, 1, os) with p_size already n: text use dropped, u page flushed if it is live, image out. */
  function XSwap(s: Sys, p: nat, n: nat): Option<Sys>
    requires p < |s.procs| && n >= s.procs[p].size
    requires s.procs[p].text.Some? ==> s.procs[p].text.value < |s.texts|
  {
    var d := if s.procs[p].text.Some? then XccDec(s, s.procs[p].text.value) else s;
    WriteOut(if d.procs[p].addr == d.uhome then Flush(d) else d, p, n)
  }

  lemma {:induction false} FlushOutKeeps(s: Sys, users: set<nat>, p: nat, n: nat)
    requires Inv(s, users) && InCore(s, p) && p != 0 && n >= s.procs[p].size
    ensures var f := if s.procs[p].addr == s.uhome then Flush(s) else s;
            WriteOut(f, p, n).Some? ==> Inv(WriteOut(f, p, n).value, users)
  {
    hide CoreShared, SwapShared, Counted, HomesKept, TextsKept, Alloc, Join, HomePage, WriteOut;
    var f := if s.procs[p].addr == s.uhome then Flush(s) else s;
    ImageRange(s, p);
    if s.procs[p].addr == s.uhome {
      FlushHitsOwnImage(s, users);
      if p != s.live.procp {
        HeadsApart(s, p, s.live.procp);
      }
      FlushKeeps(s, users);
    } else {
      KeptAt(s, p);
    }
    if WriteOut(f, p, n).Some? {
      OutKeeps(f, users, p, n);
    }
  }

  lemma KeptAt(s: Sys, p: nat)
    requires HomesKept(s) && p < |s.procs| && Alive(s.procs[p]) && !IsLive(s, p)
    ensures HomeKept(s, p)
  {
  }

  /** Swapping out: whoever p is, afterwards it is counted nowhere in core. */
  lemma {:induction false} XSwapKeeps(s: Sys, users: set<nat>, p: nat, n: nat)
    requires Inv(s, users) && InCore(s, p) && p != 0 && n >= s.procs[p].size && XSwap(s, p, n).Some?
    requires p in users || s.procs[p].text == None || s.texts[s.procs[p].text.value].ccount == 0
    ensures Inv(XSwap(s, p, n).value, users - {p})
  {
    hide CoreShared, SwapShared, Counted, HomesKept, TextsKept, Alloc, Join, HomePage, WriteOut;
    var text := s.procs[p].text;
    if text.Some? && p in users {
      DropKeeps(s, users, p, text.value);
      FlushOutKeeps(XccDec(s, text.value), users - {p}, p, n);
    } else {
      NotCounted(s, users, users - {p}, p);
      FlushOutKeeps(s, users - {p}, p, n);
    }
  }

  /** A process without text may be counted a user or not. */
  lemma {:induction false} NotCounted(s: Sys, users: set<nat>, users': set<nat>, p: nat)
    requires Inv(s, users) && p < NPROC && forall i :: i != p ==> (i in users <==> i in users')
    requires s.procs[p].text == None || !Alive(s.procs[p]) || (p in users <==> p in users')
    ensures Inv(s, users')
  {
    hide CoreShared, SwapShared, HomesKept, TextsKept;
    CountStep(s, s, users, users', p);
  }

  // ----- in ------------------------------------------------------------------------------------

  /** The image half of swapin.  None: no room. */
  function ReadIn(s: Sys, p: nat): Option<Sys>
    requires p < |s.procs|
  {
    var q := s.procs[p];
    match Alloc(s.coremap, q.size)
    case None => None
    case Some(g) =>
      Some(s.(coremap := g.left, core := Put(s.core, g.addr, Get(s.swap, q.addr, q.size)),
              swapmap := Join(s.swapmap, q.size, q.addr),
              procs := s.procs[p := q.(load := true, addr := g.addr)]))
  }

  lemma {:induction false} InShares(s: Sys, users: set<nat>, p: nat)
    requires Inv(s, users) && Out(s, p) && ReadIn(s, p).Some?
    ensures var s', q := ReadIn(s, p).value, s.procs[p];
            && CoreShared(s') && SwapShared(s') && CoreSame(s, s', Image(p)) && SwapSame(s, s', Image(p))
            && Get(s'.core, s'.procs[p].addr, q.size) == Get(s.swap, q.addr, q.size)
  {
    hide Shared, Counted, HomesKept, TextsKept, Alloc, Join;
    var s', q, g := ReadIn(s, p).value, s.procs[p], Alloc(s.coremap, s.procs[p].size).value;
    ImageRange(s, p);
    Give(s.swapmap, s.slo, |s.swap|, SwapHolding(s), SwapHolding(s'), Image(p), q.addr, q.size);
    Hand(s.coremap, s.lo, |s.core|, CoreHolding(s), CoreHolding(s'), Image(p), q.size);
    Granted(s.coremap, s.lo, |s.core|, CoreHolding(s), q.size);
    forall o, x: nat | CoreHeld(s, o, x) && x < |s.core| ensures s'.core[x] == s.core[x] {
      assert CoreHolding(s)(o, x);
      assert !Inside(g.addr, q.size, x);
    }
    assert Get(s'.core, s'.procs[p].addr, q.size) == Get(s.swap, q.addr, q.size);
  }

  lemma {:induction false} InGeometry(s: Sys, users: set<nat>, p: nat)
    requires Inv(s, users) && Out(s, p) && p != s.live.procp && ReadIn(s, p).Some?
    ensures var s' := ReadIn(s, p).value; Geometry(s') && AtHome(s') && Counted(s', users)
  {
    hide CoreShared, SwapShared, Counted, HomesKept, TextsKept, Alloc, Join, Put, Get;
    CountStep(s, ReadIn(s, p).value, users, users, p);
  }

  lemma {:induction false} InHome(s: Sys, users: set<nat>, p: nat)
    requires Inv(s, users) && Out(s, p) && ReadIn(s, p).Some? && Geometry(ReadIn(s, p).value)
    ensures HomeKept(ReadIn(s, p).value, p)
  {
    hide CoreShared, SwapShared, Counted, HomesKept, TextsKept, AtHome, Alloc, Join;
    var s', q := ReadIn(s, p).value, s.procs[p];
    InShares(s, users, p);
    KeptAt(s, p);
    ImageRange(s, p);
    ImageRange(s', p);
    assert Get(s'.core, s'.procs[p].addr, q.size)[0] == Get(s.swap, q.addr, q.size)[0];
  }

  lemma {:induction false} InKeeps(s: Sys, users: set<nat>, p: nat)
    requires Inv(s, users) && Out(s, p) && p != s.live.procp && ReadIn(s, p).Some?
    ensures Inv(ReadIn(s, p).value, users)
  {
    hide CoreShared, SwapShared, Counted, HomesKept, TextsKept, AtHome, HomePage, Alloc, Join, Put, Get;
    var s' := ReadIn(s, p).value;
    InShares(s, users, p);
    InGeometry(s, users, p);
    InHome(s, users, p);
    HomesFrame(s, s', Image(p));
    TextsFrame(s, s', Image(p));
  }

  /** swapin(p): image, and text if nobody in core has it; None when there is no room for either. */
  function SwapIn(s: Sys, p: nat): Option<Sys>
    requires p < |s.procs| && (s.procs[p].text.Some? ==> s.procs[p].text.value < |s.texts|)
  {
    match ReadIn(s, p)
    case None => None
    case Some(r) => if s.procs[p].text.Some? then UseText(r, s.procs[p].text.value) else Some(r)
  }

  lemma {:induction false} SwapInKeeps(s: Sys, users: set<nat>, p: nat)
    requires Inv(s, users) && Out(s, p) && p != s.live.procp && p !in users && SwapIn(s, p).Some?
    ensures Inv(SwapIn(s, p).value, users + {p})
  {
    hide CoreShared, SwapShared, HomesKept, TextsKept, Alloc, Join, UseText;
    InKeeps(s, users, p);
    var r := ReadIn(s, p).value;
    if s.procs[p].text.Some? {
      UseKeeps(r, users, p, s.procs[p].text.value);
    } else {
      CountStep(r, r, users, users + {p}, p);
    }
  }
}
