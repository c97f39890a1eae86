/** Moving the break and growing the stack: sbreak() (kernel/sys1.c) and grow() (kernel/sig.c). */
module UserBreak {
  import opened Common
  import opened ResourceMap
  import opened Space
  import opened Pages
  import opened ProcMem
  import opened ProcSteps
  import opened ProcSwap
  import opened ProcOps
  import opened ProcText
  import opened ProcRun
  import opened ProcLaws
  import opened ProcImages
  import opened ProcStand
  import opened UserMap
  import opened Kernel

  const PGSZ: nat := 1024

  // ----- what a user sees ----------------------------------------------------------------------

  /** The page at virtual page v, of a process whose data and stack are b; None if v is neither. */
  function UserPage(u: UArea, b: seq<Page>, v: nat): Option<Page> {
    if u.tsize <= v < u.tsize + u.dsize && v - u.tsize < |b| then Some(b[v - u.tsize])
    else if USTKPAGE <= v < USTKPAGE + u.ssize && u.dsize + (v - USTKPAGE) < |b| then Some(b[u.dsize + (v - USTKPAGE)])
    else None
  }

  /** b with the break moved from dsize to nd pages of data. */
  function Rebroken(b: seq<Page>, dsize: nat, nd: nat): seq<Page>
    requires dsize <= |b|
  {
    if nd <= dsize then b[..nd] + b[dsize..] else b[..dsize] + Clear(nd - dsize) + b[dsize..]
  }

  /** Moving the break keeps every page that is mapped before and after, and maps new ones as zero. */
  lemma {:induction false} BreakKeepsPages(u: UArea, b: seq<Page>, nd: nat, v: nat)
    requires |b| == u.dsize + u.ssize && u.tsize + u.dsize <= USTKPAGE && u.tsize + nd <= USTKPAGE
    ensures var u' := u.(dsize := nd);
            var b' := Rebroken(b, u.dsize, nd);
            && |b'| == nd + u.ssize
            && (UserPage(u', b', v).Some? && UserPage(u, b, v).Some? ==> UserPage(u', b', v) == UserPage(u, b, v))
            && (UserPage(u', b', v).Some? && UserPage(u, b, v).None? ==> UserPage(u', b', v) == Some(CLEAR))
            && (UserPage(u', b', v).None? && UserPage(u, b, v).Some? ==> u.tsize + nd <= v < u.tsize + u.dsize)
  {
  }

  /** So does growing the stack. */
  lemma {:induction false} GrowKeepsPages(u: UArea, b: seq<Page>, si: nat, v: nat)
    requires |b| == u.dsize + u.ssize && u.tsize + u.dsize <= USTKPAGE
    ensures var u' := u.(ssize := u.ssize + si);
            var b' := b + Clear(si);
            && (UserPage(u, b, v).Some? ==> UserPage(u', b', v) == UserPage(u, b, v))
            && (UserPage(u', b', v).Some? && UserPage(u, b, v).None? ==> UserPage(u', b', v) == Some(CLEAR))
            && (USTKPAGE <= v < USTKPAGE + u.ssize + si ==> UserPage(u', b', v).Some?)
  {
  }

  predicate PageKept(x: Option<Page>, y: Option<Page>) {
    (x.Some? && y.Some? ==> y == x) && (x.None? && y.Some? ==> y == Some(CLEAR))
  }

  /** Every page mapped before and after is the same, and every page mapped only after is zero. */
  ghost predicate PagesKept(u: UArea, b: seq<Page>, u': UArea, b': seq<Page>) {
    forall v: nat :: PageKept(UserPage(u, b, v), UserPage(u', b', v))
  }

  /** Process p, with the u-area u, is in core with an image of exactly the pages u says. */
  predicate Snug(s: Sys, p: nat, u: UArea) {
    Ready(s, p, u) && s.procs[p].size == 1 + u.dsize + u.ssize
  }

  /** The running process p has gone from the sizes it had to nd pages of data and ns of stack: it runs, its
      image fits it, and no page of its memory was lost or holds anything else's. */
  ghost predicate Resized(s: Sys, s': Sys, nd: nat, ns: nat) {
    var p := s.live.procp;
    && p < |s.procs| && p < |s'.procs| && Good(s') && Running(s')
    && s'.live == s.live.(dsize := nd, ssize := ns, rest := s'.live.rest) && Snug(s', p, s'.live)
    && PagesKept(s.live, Body(s, p), s'.live, Body(s', p))
  }

  // ----- moving pages --------------------------------------------------------------------------

  /** c is core with its n pages at from copied to a. */
  predicate Slid(core: seq<Page>, c: seq<Page>, a: nat, from: nat, n: nat) {
    && |c| == |core| && from + n <= |core|
    && (forall x :: a <= x < a + n && x < |c| ==> c[x] == core[from + (x - a)])
    && (forall x :: 0 <= x < |c| && !(a <= x < a + n) ==> c[x] == core[x])
  }

  /** c is core with n pages cleared at a. */
  predicate Wiped(core: seq<Page>, c: seq<Page>, a: nat, n: nat) {
    |c| == |core| && forall x :: 0 <= x < |c| ==> c[x] == if a <= x < a + n then CLEAR else core[x]
  }

  lemma SlidIs(core: seq<Page>, c: seq<Page>, a: nat, from: nat, n: nat)
    requires Slid(core, c, a, from, n)
    ensures c == Put(core, a, Get(core, from, n))
  {
    hide Put, Get;
    var b := Get(core, from, n);
    assert forall x :: a <= x < a + n && x < |c| ==> c[x] == b[x - a];
  }

  lemma WipedIs(core: seq<Page>, c: seq<Page>, a: nat, n: nat)
    requires Wiped(core, c, a, n)
    ensures c == Put(core, a, Clear(n))
  {
    hide Put, Clear;
  }

  /** One page more, at the top, when the pages are copied down. */
  lemma SlidOver(core: seq<Page>, c: seq<Page>, a: nat, d: nat, n: nat)
    requires Slid(core, c, a, a + d, n) && a + d + n < |core|
    ensures |c| == |core| && Slid(core, c[a + n := c[a + n + d]], a, a + d, n + 1)
  {
    assert c[a + n + d] == core[a + n + d];
  }

  /** One page more, at the bottom, when they are copied up. */
  lemma SlidUnder(core: seq<Page>, c: seq<Page>, a: nat, d: nat, n: nat)
    requires a > d && a + n <= |core| && Slid(core, c, a, a - d, n)
    ensures |c| == |core| && Slid(core, c[a - 1 := c[a - 1 - d]], a - 1, a - 1 - d, n + 1)
  {
    assert c[a - 1 - d] == core[a - 1 - d];
  }

  /** Copies n pages from d pages further on, lowest first. */
  method SlideDown(m: Machine, a0: nat, d: nat, n: nat)
    requires a0 + d + n <= |m.core|
    modifies m`core
    ensures Slid(old(m.core), m.core, a0, a0 + d, n)
  {
    var a, i := a0, n;
    assert Slid(m.core, m.core, a0, a0 + d, 0);
    hide Slid;
    while i > 0
      invariant 0 <= i <= n && a == a0 + (n - i) && |m.core| == |old(m.core)| && Slid(old(m.core), m.core, a0, a0 + d, n - i)
    {
      SlidOver(old(m.core), m.core, a0, d, n - i);
      m.core := m.core[a := m.core[a + d]];
      a, i := a + 1, i - 1;
    }
  }

  /** Copies the n pages that end d pages below to those that end at a0, highest first. */
  method SlideUp(m: Machine, a0: nat, d: nat, n: nat)
    requires n + d <= a0 <= |m.core|
    modifies m`core
    ensures |m.core| == |old(m.core)| && Slid(old(m.core), m.core, a0 - n, a0 - n - d, n)
  {
    var a, i := a0, n;
    assert Slid(m.core, m.core, a0, a0 - d, 0);
    hide Slid;
    while i > 0
      invariant 0 <= i <= n && a == a0 - (n - i) && |m.core| == |old(m.core)| && Slid(old(m.core), m.core, a, a - d, n - i)
    {
      SlidUnder(old(m.core), m.core, a, d, n - i);
      a, i := a - 1, i - 1;
      m.core := m.core[a := m.core[a - d]];
    }
  }

  /** Clears the n pages below a0, highest first. */
  method ClearDown(m: Machine, a0: nat, n: nat)
    requires n <= a0 <= |m.core|
    modifies m`core
    ensures Wiped(old(m.core), m.core, a0 - n, n)
  {
    var a, i := a0, n;
    while i > 0
      invariant 0 <= i <= n && a == a0 - (n - i) && |m.core| == |old(m.core)| && Wiped(old(m.core), m.core, a, n - i)
    {
      a, i := a - 1, i - 1;
      m.core := m.core[a := CLEAR];
    }
  }

  /** Clears n pages from a0 on. */
  method ClearUp(m: Machine, a0: nat, n: nat)
    requires a0 + n <= |m.core|
    modifies m`core
    ensures Wiped(old(m.core), m.core, a0, n)
  {
    var a, i := a0, n;
    while i > 0
      invariant 0 <= i <= n && a == a0 + (n - i) && |m.core| == |old(m.core)| && Wiped(old(m.core), m.core, a0, n - i)
    {
      m.core := m.core[a := CLEAR];
      a, i := a + 1, i - 1;
    }
  }

  // ----- what that does to the system ----------------------------------------------------------

  /** The running process writes the pages b into its image, from page k on. */
  function OwnWrite(s: Sys, k: nat, b: seq<Page>): Sys
    requires s.live.procp < |s.procs|
  {
    s.(core := Put(s.core, s.procs[s.live.procp].addr + k, b))
  }

  lemma {:induction false} OwnWriteGood(s: Sys, k: nat, b: seq<Page>)
    requires Good(s) && Running(s) && 0 < k && k + |b| <= s.procs[s.live.procp].size
    ensures Good(OwnWrite(s, k, b)) && Running(OwnWrite(s, k, b))
    ensures Body(OwnWrite(s, k, b), s.live.procp) == Put(Body(s, s.live.procp), k - 1, b)
  {
    var p := s.live.procp;
    ImageRange(s, p);
    OwnBody(s.core, s.procs[p].addr, s.procs[p].size, k, b);
    hide CoreShared, SwapShared, Counted, HomesKept, TextsKept, Put, Get;
    var s', o := OwnWrite(s, k, b), Image(p);
    SameClaims(s, s', Loaded(s));
    WriteCore(s, s', o, s.procs[p].addr + k, b);
    HomesFrame(s, s', o);
    TextsFrame(s, s', o);
    SameLoaded(s, s');
  }

  lemma OwnBody(core: seq<Page>, a: nat, n: nat, k: nat, b: seq<Page>)
    requires 0 < k && k + |b| <= n && a + n <= |core|
    ensures Get(Put(core, a + k, b), a + 1, n - 1) == Put(Get(core, a + 1, n - 1), k - 1, b)
  {
  }

  /** estabur. */
  method Establish(m: Machine, nt: nat, nd: nat, ns: nat, maxmem: nat) returns (err: bool)
    modifies m`live
    ensures err <==> !Fits(nt, nd, ns, maxmem)
    ensures err ==> m.State() == old(m.State())
    ensures !err ==> m.State() == old(m.State()).(live := old(m.live).(tsize := nt, dsize := nd, ssize := ns))
  {
    if nt + nd + ns > MAXMEM || nt + nd > USTKPAGE || ns > NPAGE - USTKPAGE || nt + nd + ns + 1 > maxmem {
      return true;
    }
    m.live := m.live.(tsize := nt, dsize := nd, ssize := ns);
    err := false;
  }

  /** The pages of data that reach a break at word brk: what sbreak computes from its argument. */
  function DataFor(brk: nat, tsize: nat): (nd: nat)
    ensures brk <= (tsize + nd) * PGSZ
    ensures nd > 0 ==> (tsize + nd - 1) * PGSZ < brk
  {
    var n := (brk + PGSZ - 1) / PGSZ - tsize;
    if n < 0 then 0 else n
  }

  /** How many pages grow asks for to reach virtual page pg. */
  function StackFor(pg: nat, ssize: nat): int {
    pg - USTKPAGE + 1 - ssize
  }

  // ----- through expand ------------------------------------------------------------------------

  /** b' begins with b. */
  predicate Begins(b: seq<Page>, b': seq<Page>) {
    |b| <= |b'| && b'[..|b|] == b
  }

  /** The running process has room for nd pages of data and ns of stack, and what it had is where the old
      sizes put it. */
  ghost predicate Enlarged(s: Sys, s': Sys, nd: nat, ns: nat) {
    var p := s.live.procp;
    && p < |s.procs| && p < |s'.procs| && Good(s') && Running(s')
    && s'.live == s.live.(dsize := nd, ssize := ns, rest := s'.live.rest) && Snug(s', p, s'.live)
    && Begins(Body(s, p), Body(s', p))
  }

  /** The process has been swapped out by its own expand, to come back with the room it asked for. */
  ghost predicate Parted(s: Sys, s': Sys, nd: nat, ns: nat) {
    var p := s.live.procp;
    && p < |s.procs| && p < |s'.procs| && Good(s') && Out(s', p)
    && s'.live == s.live.(dsize := nd, ssize := ns, rest := s'.live.rest) && p in s'.home && s'.home[p] == s'.live
    && s'.procs[p].size == 1 + nd + ns && Begins(Body(s, p), Body(s', p))
    && s'.procs[p].text == s.procs[p].text && |s'.texts| == |s.texts|
    && (s.procs[p].text.Some? && s.procs[p].text.value < |s.texts| ==>
          s'.texts[s.procs[p].text.value].size == s.texts[s.procs[p].text.value].size)
  }

  /** When expand(n) returns to a growing process at once, its memory is there, n pages long. */
  lemma {:induction false} GrowsInPlace(s: Sys, n: nat)
    requires Good(s) && Enabled(s, Expand(n)) && n > s.procs[s.live.procp].size && ExpandTo(s, n).Some?
    requires Running(ExpandTo(s, n).value)
    ensures var s', p := ExpandTo(s, n).value, s.live.procp;
            s'.live == s.live && p < |s'.procs| && |Body(s', p)| == n - 1 && Begins(Body(s, p), Body(s', p))
  {
    hide Inv, Alloc, Join, Put, Get, XSwap, Body;
    var p := s.live.procp;
    if Move(s, n).Some? {
      GrownBody(s, Loaded(s), n);
    } else {
      XSwapFrame(s, p, n);
    }
  }

  /** expand, when it finds core: the process is where it was or has moved, with room for its new sizes. */
  lemma {:induction false} EnlargedNow(s: Sys, u: UArea, n: nat)
    requires Good(s) && Running(s) && Snug(s, s.live.procp, s.live) && n > s.procs[s.live.procp].size && s.live.procp != 0
    requires u == s.live.(dsize := u.dsize, ssize := u.ssize, rest := u.rest) && n == 1 + u.dsize + u.ssize && u.tsize + u.dsize <= USTKPAGE
    requires TextInTable(s, s.live.procp) && ExpandTo(s.(live := u), n).Some? && Running(ExpandTo(s.(live := u), n).value)
    ensures Enlarged(s, ExpandTo(s.(live := u), n).value, u.dsize, u.ssize)
  {
    hide Inv, Body, XSwap, Move;
    var p, s1 := s.live.procp, s.(live := u);
    LiveGood(s, u);
    LiveBody(s, u, p);
    ExpandGood(s1, n);
    GrowsInPlace(s1, n);
    MovedTables(s1, n);
  }

  lemma LiveBody(s: Sys, u: UArea, p: nat)
    requires p < |s.procs|
    ensures Body(s.(live := u), p) == Body(s, p)
  {
  }

  lemma MovedTables(s: Sys, n: nat)
    requires TextInTable(s, s.live.procp) && n > s.procs[s.live.procp].size > 0 && ExpandTo(s, n).Some? && Running(ExpandTo(s, n).value) && Running(s)
    ensures var s', p := ExpandTo(s, n).value, s.live.procp;
      s'.live == s.live && p < |s'.procs| && s'.procs[p].size == n && s'.procs[p].text == s.procs[p].text && s'.texts == s.texts
  {
    hide Alloc, Join, Put, Get, XSwap;
    if Move(s, n).None? { XSwapFrame(s, s.live.procp, n); }
  }

  /** expand, when it finds none. */
  lemma {:induction false} PartedNow(s: Sys, u: UArea, n: nat)
    requires Good(s) && Running(s) && Snug(s, s.live.procp, s.live) && n > s.procs[s.live.procp].size && s.live.procp != 0
    requires u == s.live.(dsize := u.dsize, ssize := u.ssize, rest := u.rest) && n == 1 + u.dsize + u.ssize
    requires TextInTable(s, s.live.procp) && ExpandTo(s.(live := u), n).Some? && !Running(ExpandTo(s.(live := u), n).value)
    ensures Parted(s, ExpandTo(s.(live := u), n).value, u.dsize, u.ssize)
  {
    hide Inv, Body, XSwap, Move;
    var p, s1 := s.live.procp, s.(live := u);
    LiveGood(s, u);
    LiveBody(s, u, p);
    ExpandedOut(s1, n);
    PartedTables(s1, n);
  }

  lemma PartedTables(s: Sys, n: nat)
    requires TextInTable(s, s.live.procp) && n > s.procs[s.live.procp].size > 0 && ExpandTo(s, n).Some? && !Running(ExpandTo(s, n).value) && Running(s)
    ensures var s', p := ExpandTo(s, n).value, s.live.procp;
      && p < |s'.procs| && s'.procs[p].size == n && s'.procs[p].text == s.procs[p].text && |s'.texts| == |s.texts|
      && (forall t :: 0 <= t < |s.texts| ==> s'.texts[t].size == s.texts[t].size)
  {
    hide Alloc, Join, Put, Get;
  }

  /** However long it is out, and whatever runs meanwhile, it comes back to the same room. */
  lemma {:induction false} Rejoined(s: Sys, s': Sys, nd: nat, ns: nat, ops: seq<Op>)
    requires Parted(s, s', nd, ns) && s.live.tsize + nd <= USTKPAGE && Ready(s, s.live.procp, s.live)
    requires var p := s.live.procp;
      Switch(p) !in ops && ops != [] && ops[0].Switch? && After(s', ops).Some? && InCore(After(s', ops).value, p)
    ensures Enlarged(s, Resume(After(s', ops).value, s.live.procp), nd, ns)
  {
    var p := s.live.procp;
    hide Inv, Resume, Step, Enabled, Body, After;
    AfterFirst(s', ops);
    var s1 := Resume(s', ops[0].q);
    LeavesSaved(s', ops[0].q, p, s'.live);
    ComesBackWhole(s1, ops[1..], p, s'.live);
    RunGood(s1, ops[1..]);
    var t := After(s1, ops[1..]).value;
    StandsRun(s1, ops[1..], p, s'.live);
    ResumesAsSaved(s1, ops[1..], p, s'.live);
    SwitchGood(t, p);
    ResumeFits(s', ops[0].q, t, p);
  }

  lemma ResumeFits(s: Sys, q: nat, t: Sys, p: nat)
    requires q < |s.procs| && Good(t) && InCore(t, p)
    ensures Resume(s, q).procs == s.procs && Resume(s, q).texts == s.texts && Resume(t, p).procs == t.procs && Resume(t, p).texts == t.texts
    ensures Running(Resume(t, p))
  {
    ResumeKeeps(t, Loaded(t), p);
    hide Inv, Put, Get;
  }

  // ----- sbreak --------------------------------------------------------------------------------

  /** Nothing changed for lack of room to map; done; swapped out, to go on later; or out of swap space. */
  datatype Outcome = NoMem | Done | Away | Panic

  lemma SlidDown(b: seq<Page>, dsize: nat, ssize: nat, nd: nat)
    requires |b| == dsize + ssize && nd <= dsize
    ensures Put(b, nd, b[dsize..])[..nd + ssize] == Rebroken(b, dsize, nd)
  {
  }

  lemma SlidUp(b: seq<Page>, b2: seq<Page>, dsize: nat, ssize: nat, nd: nat)
    requires |b| == dsize + ssize && |b2| == nd + ssize && Begins(b, b2) && nd >= dsize
    ensures Put(Put(b2, nd, b2[dsize..dsize + ssize]), dsize, Clear(nd - dsize)) == Rebroken(b, dsize, nd)
  {
    hide Put, Clear, Begins;
    BeginsAt(b, b2);
    var stack := b2[dsize..dsize + ssize];
    assert stack == b[dsize..];
    var x := Put(b2, nd, stack);
    assert x[..dsize] == b[..dsize] && x[nd..] == stack;
    var y := Put(x, dsize, Clear(nd - dsize));
    assert y[..dsize] == x[..dsize] && y[dsize..nd] == Clear(nd - dsize) && y[nd..] == x[nd..];
    assert y == y[..dsize] + y[dsize..nd] + y[nd..];
    if nd == dsize {
      assert Clear(0) == [];
    }
  }

  lemma BeginsAt(b: seq<Page>, b2: seq<Page>)
    requires Begins(b, b2)
    ensures |b| <= |b2| && forall k :: 0 <= k < |b| ==> b2[k] == b[k]
  {
    assert forall k :: 0 <= k < |b| ==> b2[k] == b2[..|b|][k];
  }

  lemma SamePages(u: UArea, u': UArea, b: seq<Page>, v: nat)
    requires u.tsize == u'.tsize && u.dsize == u'.dsize && u.ssize == u'.ssize
    ensures UserPage(u, b, v) == UserPage(u', b, v)
  {
  }

  /** The pages of the stack, where the body has them. */
  lemma StackPages(s: Sys, from: nat, n: nat)
    requires Good(s) && Running(s) && 1 + from + n <= s.procs[s.live.procp].size
    ensures var q, b := s.procs[s.live.procp], Body(s, s.live.procp);
      q.addr + q.size <= |s.core| && from + n <= |b| && Get(s.core, q.addr + 1 + from, n) == b[from..from + n]
  {
    hide CoreShared, SwapShared, Counted, HomesKept, TextsKept;
    ImageRange(s, s.live.procp);
  }

  lemma StillSnug(s: Sys, k: nat, b: seq<Page>)
    requires s.live.procp < |s.procs| && Snug(s, s.live.procp, s.live)
    ensures Snug(OwnWrite(s, k, b), s.live.procp, s.live)
  {
    hide Put;
  }

  /** What the end of sbreak makes of the image when the data has grown by d pages. */
  function StackMovedUp(s: Sys, d: nat): Sys
    requires s.live.procp < |s.procs| && d <= s.live.dsize
  {
    var ds, nd, ss := s.live.dsize - d, s.live.dsize, s.live.ssize;
    OwnWrite(OwnWrite(s, 1 + nd, Get(s.core, s.procs[s.live.procp].addr + 1 + ds, ss)), 1 + ds, Clear(d))
  }

  lemma {:induction false} MovedUp(s: Sys, s0: Sys, d: nat)
    requires d > 0 && Snug(s, s.live.procp, s.live) && Enlarged(s, s0, s.live.dsize + d, s.live.ssize)
    ensures s0.procs[s0.live.procp].addr + s0.procs[s0.live.procp].size <= |s0.core|
    ensures Resized(s, StackMovedUp(s0, d), s.live.dsize + d, s.live.ssize)
  {
    hide Inv, Put, Get, Body, Begins, Clear, PagesKept, Rebroken, OwnWrite, Ready;
    var p, ss, nd, ds := s.live.procp, s.live.ssize, s.live.dsize + d, s.live.dsize;
    var pages := Get(s0.core, s0.procs[p].addr + 1 + ds, ss);
    StackPages(s0, ds, ss);
    OwnWriteGood(s0, 1 + nd, pages);
    StillSnug(s0, 1 + nd, pages);
    var s1 := OwnWrite(s0, 1 + nd, pages);
    WrittenSame(s0, 1 + nd, pages);
    OwnWriteGood(s1, 1 + ds, Clear(d));
    StillSnug(s1, 1 + ds, Clear(d));
    WrittenSame(s1, 1 + ds, Clear(d));
    BodySizes(s, p);
    BodySizes(s0, p);
    SlidUp(Body(s, p), Body(s0, p), ds, ss, nd);
    BreakRests(s, s0, OwnWrite(s1, 1 + ds, Clear(d)), nd);
  }

  lemma WrittenSame(s: Sys, k: nat, b: seq<Page>)
    requires s.live.procp < |s.procs|
    ensures OwnWrite(s, k, b) == s.(core := OwnWrite(s, k, b).core)
  {
  }

  lemma SlidWrite(s: Sys, c: seq<Page>, k: nat, from: nat, n: nat)
    requires s.live.procp < |s.procs| && Slid(s.core, c, s.procs[s.live.procp].addr + k, from, n)
    ensures s.(core := c) == OwnWrite(s, k, Get(s.core, from, n))
  {
    hide Put, Get, Slid;
    SlidIs(s.core, c, s.procs[s.live.procp].addr + k, from, n);
  }

  lemma WipedWrite(s: Sys, c: seq<Page>, k: nat, n: nat)
    requires s.live.procp < |s.procs| && Wiped(s.core, c, s.procs[s.live.procp].addr + k, n)
    ensures s.(core := c) == OwnWrite(s, k, Clear(n))
  {
    hide Put, Clear, Wiped;
    WipedIs(s.core, c, s.procs[s.live.procp].addr + k, n);
  }

  lemma UpIs(s: Sys, mid: seq<Page>, s': Sys, d: nat)
    requires s.live.procp < |s.procs| && d <= s.live.dsize && s' == s.(core := s'.core)
    requires var a := s.procs[s.live.procp].addr + 1 + s.live.dsize;
      Slid(s.core, mid, a, a - d, s.live.ssize) && Wiped(mid, s'.core, a - d, d)
    ensures s' == StackMovedUp(s, d)
  {
    hide Get, Clear, Slid, Wiped, OwnWrite;
    var nd := s.live.dsize;
    SlidWrite(s, mid, 1 + nd, s.procs[s.live.procp].addr + 1 + nd - d, s.live.ssize);
    WipedWrite(s.(core := mid), s'.core, 1 + nd - d, d);
  }

  /** The end of sbreak when the data has grown by d pages: the stack moves up, and the gap is cleared. */
  method SBreakRest(m: Machine, d: nat, ghost s: Sys)
    requires d > 0 && Snug(s, s.live.procp, s.live) && Enlarged(s, m.State(), s.live.dsize + d, s.live.ssize)
    modifies m`core
    ensures Resized(s, m.State(), s.live.dsize + d, s.live.ssize)
  {
    hide Inv, Put, Get, Body, Begins, Clear, Resized, Ready, Slid, Wiped, StackMovedUp;
    MovedUp(s, m.State(), d);
    ghost var s0 := m.State();
    var a := m.procs[m.live.procp].addr + 1 + m.live.dsize + m.live.ssize;
    SlideUp(m, a, d, m.live.ssize);
    a := a - m.live.ssize;
    ghost var mid := m.core;
    ClearDown(m, a, d);
    UpIs(s0, mid, m.State(), d);
  }

  lemma BodySizes(s: Sys, p: nat)
    requires p < |s.procs|
    ensures |Body(s, p)| == if s.procs[p].size == 0 then 0 else s.procs[p].size - 1
  {
  }

  lemma BreakRests(s: Sys, s0: Sys, s': Sys, nd: nat)
    requires Snug(s, s.live.procp, s.live) && Enlarged(s, s0, nd, s.live.ssize) && nd >= s.live.dsize
    requires s' == s0.(core := s'.core) && Good(s') && Snug(s', s.live.procp, s'.live) && Running(s')
    requires Body(s', s.live.procp) == Rebroken(Body(s, s.live.procp), s.live.dsize, nd)
    ensures Resized(s, s', nd, s.live.ssize)
  {
    hide Inv, Rebroken, Body, PagesKept;
    BodySizes(s, s.live.procp);
    BreakPages(s.live, Body(s, s.live.procp), nd, s'.live, Body(s', s.live.procp));
  }

  lemma BreakPages(u: UArea, b: seq<Page>, nd: nat, u': UArea, b': seq<Page>)
    requires |b| == u.dsize + u.ssize && u.tsize + u.dsize <= USTKPAGE && u.tsize + nd <= USTKPAGE
    requires u' == u.(dsize := nd, rest := u'.rest) && b' == Rebroken(b, u.dsize, nd)
    ensures PagesKept(u, b, u', b')
  {
    hide Rebroken;
    forall v: nat ensures PageKept(UserPage(u, b, v), UserPage(u', b', v)) {
      BreakKeepsPages(u, b, nd, v);
      SamePages(u', u.(dsize := nd), b', v);
    }
  }

  /** What sbreak makes of the image when the data shrinks to nd pages, before it gives core back. */
  function StackMovedDown(s: Sys, nd: nat): Sys
    requires s.live.procp < |s.procs| && nd <= s.live.dsize
  {
    OwnWrite(s, 1 + nd, Get(s.core, s.procs[s.live.procp].addr + 1 + s.live.dsize, s.live.ssize)).(live := s.live.(dsize := nd))
  }

  lemma {:induction false} MovedDown(s: Sys, nd: nat)
    requires Good(s) && Running(s) && Snug(s, s.live.procp, s.live) && nd <= s.live.dsize
    ensures s.procs[s.live.procp].addr + s.procs[s.live.procp].size <= |s.core|
    ensures var s2 := StackMovedDown(s, nd); var n := 1 + nd + s.live.ssize;
      && Good(s2) && Running(s2) && s2.live.procp == s.live.procp < |s2.procs| && n <= s2.procs[s2.live.procp].size
      && Resized(s, Shrink(s2, n), nd, s.live.ssize)
  {
    hide Inv, Put, Get, Body, PagesKept, Rebroken, OwnWrite, Ready, Shrink;
    var p, ss, ds := s.live.procp, s.live.ssize, s.live.dsize;
    var pages, u := Get(s.core, s.procs[p].addr + 1 + ds, ss), s.live.(dsize := nd);
    StackPages(s, ds, ss);
    OwnWriteGood(s, 1 + nd, pages);
    StillSnug(s, 1 + nd, pages);
    WrittenSame(s, 1 + nd, pages);
    var s1 := OwnWrite(s, 1 + nd, pages);
    LiveGood(s1, u);
    LiveBody(s1, u, p);
    ReadyLess(s1, p, s.live, u);
    ReadyFacts(s, p, s.live);
    var s2 := StackMovedDown(s, nd);
    BodySizes(s, p);
    SlidDown(Body(s, p), ds, ss, nd);
    assert Body(s, p)[ds..ds + ss] == Body(s, p)[ds..];
    ShrinkSnug(s2, 1 + nd + ss);
    BreakPages(s.live, Body(s, p), nd, u, Body(Shrink(s2, 1 + nd + ss), p));
  }

  lemma ReadyLess(s: Sys, p: nat, u: UArea, u': UArea)
    requires Snug(s, p, u) && u'.tsize == u.tsize && u'.dsize <= u.dsize && u'.ssize == u.ssize
    ensures Ready(s.(live := u'), p, u') && s.procs[p].size >= 1 + u'.dsize + u'.ssize
  {
  }

  lemma ReadyFacts(s: Sys, p: nat, u: UArea)
    requires Ready(s, p, u)
    ensures u.tsize + u.dsize <= USTKPAGE
  {
  }

  lemma DownIs(s: Sys, s': Sys, nd: nat)
    requires s.live.procp < |s.procs| && nd <= s.live.dsize && s' == s.(live := s.live.(dsize := nd), core := s'.core)
    requires var a := s.procs[s.live.procp].addr + 1; Slid(s.core, s'.core, a + nd, a + s.live.dsize, s.live.ssize)
    ensures s' == StackMovedDown(s, nd)
  {
    hide Get, Slid, OwnWrite;
    SlidWrite(s, s'.core, 1 + nd, s.procs[s.live.procp].addr + 1 + s.live.dsize, s.live.ssize);
  }

  lemma ExpandDown(s: Sys, n: nat)
    requires TextInTable(s, s.live.procp) && s.procs[s.live.procp].size > 0 && n <= s.procs[s.live.procp].size
    ensures ExpandTo(s, n) == Some(Shrink(s, n))
  {
  }

  lemma {:induction false} ShrinkSnug(s: Sys, n: nat)
    requires Good(s) && Running(s) && 0 < n <= s.procs[s.live.procp].size && n == 1 + s.live.dsize + s.live.ssize
    requires Ready(s, s.live.procp, s.live)
    ensures var s', p := Shrink(s, n), s.live.procp;
      && Good(s') && Running(s') && s'.live == s.live && p < |s'.procs| && Snug(s', p, s'.live) && Body(s', p) == Body(s, p)[..n - 1]
  {
    var p := s.live.procp;
    ShrinkBody(s, Loaded(s), n, p);
    ShrinkKeeps(s, Loaded(s), n);
    ShrinkTables(s, n);
    hide Inv, Body, Shrink;
    LoadedStep(s, Shrink(s, n), p, Loaded(s));
  }

  lemma ShrinkTables(s: Sys, n: nat)
    requires Running(s) && 0 < n <= s.procs[s.live.procp].size
    ensures var s', p := Shrink(s, n), s.live.procp;
      && OnlyProc(s, s', p) && s'.live == s.live && s'.texts == s.texts && InCore(s', p)
      && s'.procs[p] == s.procs[p].(size := n) && Loaded(s) + {p} == Loaded(s)
  {
    hide Join;
  }

  lemma GrowFacts(s: Sys, u: UArea, n: nat)
    requires Good(s) && Running(s) && u.procp == s.live.procp && n > 0
    ensures TextInTable(s, s.live.procp) && s.procs[s.live.procp].size > 0
    ensures n > s.procs[s.live.procp].size && ExpandTo(s.(live := u), n).Some? ==>
      var s' := ExpandTo(s.(live := u), n).value; |s'.procs| == |s.procs| && (Running(s') <==> s'.procs[s.live.procp].load)
  {
    RunningFacts(s);
    hide Inv, Alloc, Join, Put, Get, XSwap;
    var s1, p := s.(live := u), s.live.procp;
    if n > s.procs[p].size && ExpandTo(s1, n).Some? && Move(s1, n).None? {
      XSwapFrame(s1, p, n);
    }
  }

  /** How a process fares that asks for an image of n > 0 pages and has its u-area as u when expand saves it. */
  ghost function Fares(s: Sys, u: UArea, n: nat): Outcome
    requires Good(s) && Running(s) && u.procp == s.live.procp && n > 0
  {
    GrowFacts(s, u, n);
    match ExpandTo(s.(live := u), n)
    case None => Panic
    case Some(s') => if Running(s') then Done else Away
  }

  /** sbreak(brk), the u-area's saved context becoming r when expand saves it. */
  method SBreak(m: Machine, brk: nat, maxmem: nat, r: int) returns (out: Outcome)
    requires Good(m.State()) && Running(m.State()) && m.live.procp != 0 && Snug(m.State(), m.live.procp, m.live)
    modifies m
    ensures var s, nd := old(m.State()), DataFor(brk, old(m.live).tsize);
      && out == (if !Fits(s.live.tsize, nd, s.live.ssize, maxmem) then NoMem
                 else if nd <= s.live.dsize then Done
                 else Fares(s, s.live.(dsize := nd, rest := r), 1 + nd + s.live.ssize))
      && (out == NoMem ==> m.State() == s)
      && (out == Done ==> Resized(s, m.State(), nd, s.live.ssize))
      && (out == Away ==> Parted(s, m.State(), nd, s.live.ssize))
    ensures m.Grew(2, 0)
  {
    hide Inv, Body, Resized, Parted, Enlarged, Ready, ExpandTo, StackMovedDown, DataFor;
    ghost var s := m.State();
    var nd := DataFor(brk, m.live.tsize);
    var ds, ss, p := m.live.dsize, m.live.ssize, m.live.procp;
    var err := Establish(m, m.live.tsize, nd, ss, maxmem);
    if err {
      return NoMem;
    }
    if nd <= ds {
      SBreakDown(m, ds, s);
      return Done;
    }
    ghost var u := m.live.(rest := r);
    LiveGood(s, m.live);
    GrowFacts(s, u, 1 + nd + ss);
    var ok := m.Expand(1 + nd + ss, m.live.(rest := r));
    if !ok {
      return Panic;
    }
    if !m.procs[p].load {
      PartedNow(s, u, 1 + nd + ss);
      return Away;
    }
    EnlargedNow(s, u, 1 + nd + ss);
    SBreakRest(m, nd - ds, s);
    out := Done;
  }

  /** sbreak when the data shrinks, the new size being set: the stack moves down, and core is given back. */
  method SBreakDown(m: Machine, ds: nat, ghost s: Sys)
    requires Good(s) && Running(s) && s.live.procp != 0 && Snug(s, s.live.procp, s.live) && ds == s.live.dsize
    requires m.live.dsize <= ds && m.State() == s.(live := s.live.(dsize := m.live.dsize))
    modifies m
    ensures Resized(s, m.State(), old(m.live.dsize), s.live.ssize) && m.Grew(2, 0)
  {
    hide Good, Body, Resized, Ready, Shrink, ExpandTo, StackMovedDown;
    MovedDown(s, m.live.dsize);
    SlideStack(m, ds, s);
    var i := 1 + m.live.dsize + m.live.ssize;
    GrowFacts(m.State(), m.live, i);
    ExpandDown(m.State(), i);
    var ok := m.Expand(i, m.live);
  }

  /** sbreak's loop when the data shrinks. */
  method SlideStack(m: Machine, ds: nat, ghost s: Sys)
    requires s.live.procp < |s.procs| && ds == s.live.dsize && s.procs[s.live.procp].addr + 1 + ds + s.live.ssize <= |s.core|
    requires m.live.dsize <= ds && m.State() == s.(live := s.live.(dsize := m.live.dsize))
    modifies m`core
    ensures m.State() == StackMovedDown(s, m.live.dsize)
  {
    hide Slid, StackMovedDown;
    var nd := m.live.dsize;
    var a := m.procs[m.live.procp].addr + 1 + nd;
    SlideDown(m, a, ds - nd, m.live.ssize);
    assert a + (ds - nd) == s.procs[s.live.procp].addr + 1 + ds;
    DownIs(s, m.State(), nd);
  }

  /** However long a process that moves its break has to wait for core, and whatever runs meanwhile, sbreak
      goes on with what it had and ends as if it had found core at once. */
  lemma {:induction false} BreakGoesOn(s: Sys, s': Sys, nd: nat, ops: seq<Op>)
    requires Snug(s, s.live.procp, s.live) && Parted(s, s', nd, s.live.ssize) && nd > s.live.dsize && s.live.tsize + nd <= USTKPAGE
    requires var p := s.live.procp;
      Switch(p) !in ops && ops != [] && ops[0].Switch? && After(s', ops).Some? && InCore(After(s', ops).value, p)
    ensures var r := Resume(After(s', ops).value, s.live.procp);
      && r.live.procp < |r.procs| && nd - s.live.dsize <= r.live.dsize
      && Resized(s, StackMovedUp(r, nd - s.live.dsize), nd, s.live.ssize)
  {
    hide Good, Resume, After, Body, Resized, StackMovedUp, Ready;
    Rejoined(s, s', nd, s.live.ssize, ops);
    MovedUp(s, Resume(After(s', ops).value, s.live.procp), nd - s.live.dsize);
  }

  // ----- grow ----------------------------------------------------------------------------------

  /** What the end of grow makes of the image: its last si pages are cleared. */
  function TailCleared(s: Sys, si: nat): Sys
    requires s.live.procp < |s.procs| && si <= s.procs[s.live.procp].size
  {
    OwnWrite(s, s.procs[s.live.procp].size - si, Clear(si))
  }

  lemma {:induction false} Grown(s: Sys, s0: Sys, si: nat)
    requires si > 0 && Snug(s, s.live.procp, s.live) && Enlarged(s, s0, s.live.dsize, s.live.ssize + si)
    ensures s0.procs[s0.live.procp].addr + s0.procs[s0.live.procp].size <= |s0.core| && si <= s0.procs[s0.live.procp].size
    ensures Resized(s, TailCleared(s0, si), s.live.dsize, s.live.ssize + si)
    ensures Body(TailCleared(s0, si), s.live.procp) == Body(s, s.live.procp) + Clear(si)
  {
    hide Inv, Put, Get, Body, PagesKept, OwnWrite, Ready;
    var p, k := s.live.procp, 1 + s.live.dsize + s.live.ssize;
    StackPages(s0, k - 1, si);
    OwnWriteGood(s0, k, Clear(si));
    StillSnug(s0, k, Clear(si));
    WrittenSame(s0, k, Clear(si));
    BodySizes(s, p);
    BodySizes(s0, p);
    TailIs(Body(s, p), Body(s0, p), si);
    ReadyFacts(s, p, s.live);
    GrowPages(s.live, Body(s, p), si, s0.live, Body(TailCleared(s0, si), p));
  }

  lemma TailIs(b: seq<Page>, b0: seq<Page>, si: nat)
    requires Begins(b, b0) && |b0| == |b| + si
    ensures Put(b0, |b|, Clear(si)) == b + Clear(si)
  {
    assert forall k :: 0 <= k < |b| ==> b0[k] == b0[..|b|][k];
  }

  lemma GrowPages(u: UArea, b: seq<Page>, si: nat, u': UArea, b': seq<Page>)
    requires |b| == u.dsize + u.ssize && u.tsize + u.dsize <= USTKPAGE
    requires u' == u.(ssize := u.ssize + si, rest := u'.rest) && b' == b + Clear(si)
    ensures PagesKept(u, b, u', b')
  {
    forall v: nat ensures PageKept(UserPage(u, b, v), UserPage(u', b', v)) {
      GrowKeepsPages(u, b, si, v);
      SamePages(u', u.(ssize := u.ssize + si), b', v);
    }
  }

  /** The end of grow: the new pages are cleared. */
  method GrowRest(m: Machine, si: nat, ghost s: Sys)
    requires si > 0 && Snug(s, s.live.procp, s.live) && Enlarged(s, m.State(), s.live.dsize, s.live.ssize + si)
    modifies m`core
    ensures Resized(s, m.State(), s.live.dsize, s.live.ssize + si)
    ensures s.live.procp < |m.procs| && Body(m.State(), s.live.procp) == Body(s, s.live.procp) + Clear(si)
  {
    hide Inv, Put, Get, Body, Begins, Clear, Resized, Ready;
    Grown(s, m.State(), si);
    ghost var s0 := m.State();
    var q := m.procs[m.live.procp];
    ClearUp(m, q.addr + q.size - si, si);
    assert m.State() == TailCleared(s0, si);
  }

  /** grow(pg): a fault at a stack page above the stack is met by pages up to that one and no more. */
  method Grow(m: Machine, pg: int, maxmem: nat, r: int) returns (out: Outcome)
    requires Good(m.State()) && Running(m.State()) && m.live.procp != 0 && Snug(m.State(), m.live.procp, m.live)
    modifies m
    ensures var s := old(m.State()); var si := pg - USTKPAGE + 1 - s.live.ssize;
      && out == (if !(USTKPAGE <= pg < NPAGE && si > 0 && Fits(s.live.tsize, s.live.dsize, s.live.ssize + si, maxmem)) then NoMem
                 else Fares(s, s.live.(ssize := s.live.ssize + si, rest := r), s.procs[s.live.procp].size + si))
      && (out == NoMem ==> m.State() == s)
      && (out == Done ==>
            && Resized(s, m.State(), s.live.dsize, pg + 1 - USTKPAGE)
            && UserPage(m.live, Body(m.State(), m.live.procp), pg) == Some(CLEAR))
      && (out == Away ==> Parted(s, m.State(), s.live.dsize, pg + 1 - USTKPAGE))
    ensures m.Grew(2, 0)
  {
    hide Inv, Body, Resized, Parted, Enlarged, Ready, ExpandTo;
    ghost var s := m.State();
    if pg < USTKPAGE || pg >= NPAGE {
      return NoMem;
    }
    var si := pg - USTKPAGE + 1 - m.live.ssize;
    if si <= 0 {
      return NoMem;
    }
    var err := Establish(m, m.live.tsize, m.live.dsize, m.live.ssize + si, maxmem);
    if err {
      return NoMem;
    }
    var p := m.live.procp;
    ghost var u := m.live.(rest := r);
    LiveGood(s, m.live);
    GrowFacts(s, u, m.procs[p].size + si);
    var ok := m.Expand(m.procs[p].size + si, m.live.(rest := r));
    if !ok {
      return Panic;
    }
    if !m.procs[p].load {
      PartedNow(s, u, s.procs[p].size + si);
      return Away;
    }
    EnlargedNow(s, u, s.procs[p].size + si);
    GrowRest(m, si, s);
    TopPage(s, m.State(), si, pg);
    out := Done;
  }

  lemma TopPage(s: Sys, s': Sys, si: nat, pg: nat)
    requires Snug(s, s.live.procp, s.live) && si > 0 && pg == USTKPAGE + s.live.ssize + si - 1
    requires Resized(s, s', s.live.dsize, s.live.ssize + si) && Body(s', s.live.procp) == Body(s, s.live.procp) + Clear(si)
    ensures s'.live.procp < |s'.procs| && UserPage(s'.live, Body(s', s'.live.procp), pg) == Some(CLEAR)
  {
    hide Good, PagesKept, Body;
    BodySizes(s, s.live.procp);
    GrowReaches(s.live, Body(s, s.live.procp), pg);
    SamePages(s'.live, s.live.(ssize := s.live.ssize + si), Body(s', s.live.procp), pg);
  }

  /** A stack fault at page pg is met by pages up to pg and no more. */
  lemma GrowReaches(u: UArea, b: seq<Page>, pg: nat)
    requires |b| == u.dsize + u.ssize && u.tsize + u.dsize <= USTKPAGE <= pg && StackFor(pg, u.ssize) > 0
    ensures var si := StackFor(pg, u.ssize);
            var u' := u.(ssize := u.ssize + si);
            && UserPage(u', b + Clear(si), pg) == Some(CLEAR) && UserPage(u', b + Clear(si), pg + 1) == None
            && u'.ssize == pg + 1 - USTKPAGE
  {
    GrowKeepsPages(u, b, StackFor(pg, u.ssize), pg);
  }

  /** And grow goes on, after a swap, as if it had found core at once. */
  lemma {:induction false} GrowGoesOn(s: Sys, s': Sys, si: nat, ops: seq<Op>)
    requires Snug(s, s.live.procp, s.live) && si > 0 && Parted(s, s', s.live.dsize, s.live.ssize + si)
    requires var p := s.live.procp;
      Switch(p) !in ops && ops != [] && ops[0].Switch? && After(s', ops).Some? && InCore(After(s', ops).value, p)
    ensures var r := Resume(After(s', ops).value, s.live.procp);
      && r.live.procp < |r.procs| && si <= r.procs[r.live.procp].size
      && Resized(s, TailCleared(r, si), s.live.dsize, s.live.ssize + si)
  {
    hide Good, Resume, After, Body, Resized, TailCleared, Ready;
    ReadyFacts(s, s.live.procp, s.live);
    Rejoined(s, s', s.live.dsize, s.live.ssize + si, ops);
    Grown(s, Resume(After(s', ops).value, s.live.procp), si);
  }

  lemma AfterFirst(s: Sys, ops: seq<Op>)
    requires ops != [] && ops[0].Switch? && After(s, ops).Some?
    ensures InCore(s, ops[0].q) && After(s, ops) == After(Resume(s, ops[0].q), ops[1..])
  {
  }

  /** The state in which the process has been swapped out by its own expand. */
  lemma {:induction false} ExpandedOut(s: Sys, n: nat)
    requires Good(s) && Enabled(s, Expand(n)) && n > s.procs[s.live.procp].size && ExpandTo(s, n).Some?
    requires !Running(ExpandTo(s, n).value)
    ensures var s', p := ExpandTo(s, n).value, s.live.procp;
            && Good(s') && s'.live == s.live && Out(s', p) && p in s'.home && s'.home[p] == s.live
            && Body(s', p) == Body(s, p) + Clear(n - s.procs[p].size)
  {
    hide CoreShared, SwapShared, Counted, HomesKept, TextsKept, Alloc, Join, Put, Get, Body;
    var p := s.live.procp;
    if Move(s, n).Some? {
      MoveKeeps(s, Loaded(s), n);
    } else {
      SwapOutGood(s, p, n);
      XSwapBody(s, Loaded(s), p, n, p);
      XSwapSaves(s, p, n);
    }
  }

  lemma {:induction false} XSwapSaves(s: Sys, p: nat, n: nat)
    requires Good(s) && Running(s) && p == s.live.procp && n >= s.procs[p].size && TextInTable(s, p) && XSwap(s, p, n).Some?
    ensures var s' := XSwap(s, p, n).value;
            s'.live == s.live && p in s'.home && s'.home[p] == s.live && Out(s', p)
  {
    hide CoreShared, SwapShared, Counted, HomesKept, TextsKept, Alloc, Join, Put, Get, XccDec;
    ImageRange(s, p);
    if s.procs[p].text.Some? {
      XccDecTables(s, s.procs[p].text.value);
    }
  }

  /** The switch away from a process that is out leaves what was saved for it. */
  lemma {:induction false} LeavesSaved(s: Sys, q: nat, p: nat, u: UArea)
    requires Good(s) && InCore(s, q) && p == s.live.procp && Out(s, p) && p in s.home && s.home[p] == u
    ensures Good(Resume(s, q)) && Waiting(Resume(s, q), p, u) && Body(Resume(s, q), p) == Body(s, p)
  {
    SwitchGood(s, q);
    SwitchBody(s, Loaded(s), q, p);
    ResumeKeeps(s, Loaded(s), q);
    hide CoreShared, SwapShared, Counted, HomesKept, TextsKept, Body, Put;
  }
}
