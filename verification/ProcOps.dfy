/** fork, expand, exec's text, exit, and the processes' own work on their memory. */
module ProcOps {
  import opened Common
  import opened ResourceMap
  import opened Space
  import opened Pages
  import opened ProcMem
  import opened ProcSteps
  import opened ProcSwap

  /** The current process is running: its u-area is live and its image is in core. */
  predicate Running(s: Sys) {
    IsLive(s, s.live.procp)
  }

  // ----- newproc -------------------------------------------------------------------------------

  /** The child's text counts: one more user, in core or not. */
  function AddUser(texts: seq<TextSeg>, text: Option<nat>, inCore: bool): (r: seq<TextSeg>)
    requires text.Some? ==> text.value < |texts|
    ensures |r| == |texts|
  {
    match text
    case None => texts
    case Some(t) =>
      var x := texts[t];
      texts[t := x.(count := x.count + 1, ccount := if inCore then x.ccount + 1 else x.ccount)]
  }

  /** The parent's u page, rewritten for the child to copy. */
  function Simulate(s: Sys, c: nat, u: UArea): Sys
    requires s.live.procp < |s.procs|
  {
    var q := s.procs[s.live.procp];
    s.(live := u, core := Put(s.core, q.addr, [Home(u.(procp := c))]), home := s.home[c := u.(procp := c)])
  }

  lemma {:induction false} SimulateKeeps(s: Sys, users: set<nat>, c: nat, u: UArea)
    requires Inv(s, users) && Running(s) && c < NPROC && s.procs[c].stat == Null && u.procp == s.live.procp
    ensures Inv(Simulate(s, c, u), users) && Running(Simulate(s, c, u))
    ensures Get(Simulate(s, c, u).core, s.procs[s.live.procp].addr, s.procs[s.live.procp].size)[0] == Home(u.(procp := c))
  {
    hide CoreShared, SwapShared, Counted, HomesKept, TextsKept;
    var s', o := Simulate(s, c, u), Image(s.live.procp);
    ImageRange(s, s.live.procp);
    SameClaims(s, s', users);
    WriteCore(s, s', o, s.procs[s.live.procp].addr, [Home(u.(procp := c))]);
    HomesFrame(s, s', o);
    TextsFrame(s, s', o);
  }

  /** A new process c with the pages b as its image, in core or in the paging store. */
  function Create(s: Sys, c: nat, b: seq<Page>, text: Option<nat>, inCore: bool): Option<Sys>
    requires c < |s.procs| && (text.Some? ==> text.value < |s.texts|)
  {
    match Alloc(if inCore then s.coremap else s.swapmap, |b|)
    case None => None
    case Some(g) =>
      var s1 := s.(texts := AddUser(s.texts, text, inCore), procs := s.procs[c := Proc(Runs, inCore, g.addr, |b|, text)]);
      Some(if inCore then s1.(coremap := g.left, core := Put(s.core, g.addr, b))
           else s1.(swapmap := g.left, swap := Put(s.swap, g.addr, b)))
  }

  lemma {:induction false} CreateInCore(s: Sys, users: set<nat>, c: nat, b: seq<Page>, text: Option<nat>)
    requires Inv(s, users) && c < NPROC && s.procs[c].stat == Null && b != []
    requires text.Some? ==> TextIn(s, text.value)
    requires Create(s, c, b, text, true).Some?
    ensures var s' := Create(s, c, b, text, true).value;
            && CoreShared(s') && SwapShared(s') && CoreSame(s, s', Image(c)) && SwapSame(s, s', Image(c))
            && Get(s'.core, s'.procs[c].addr, |b|) == b
  {
    hide Shared, Counted, HomesKept, TextsKept, Alloc;
    var s' := Create(s, c, b, text, true).value;
    var a := s'.procs[c].addr;
    Hand(s.coremap, s.lo, |s.core|, CoreHolding(s), CoreHolding(s'), Image(c), |b|);
    Granted(s.coremap, s.lo, |s.core|, CoreHolding(s), |b|);
    SameHolding(s.swapmap, s.slo, |s.swap|, SwapHolding(s), SwapHolding(s'));
    forall o, x: nat | CoreHeld(s, o, x) && x < |s.core| ensures s'.core[x] == s.core[x] {
      assert CoreHolding(s)(o, x);
      assert !Inside(a, |b|, x);
    }
    assert Get(s'.core, a, |b|) == b;
  }

  lemma {:induction false} CreateOut(s: Sys, users: set<nat>, c: nat, b: seq<Page>, text: Option<nat>)
    requires Inv(s, users) && c < NPROC && s.procs[c].stat == Null && b != []
    requires text.Some? ==> TextIn(s, text.value)
    requires Create(s, c, b, text, false).Some?
    ensures var s' := Create(s, c, b, text, false).value;
            && CoreShared(s') && SwapShared(s') && CoreSame(s, s', Image(c)) && SwapSame(s, s', Image(c))
            && Get(s'.swap, s'.procs[c].addr, |b|) == b
  {
    hide Shared, Counted, HomesKept, TextsKept, Alloc;
    var s' := Create(s, c, b, text, false).value;
    var a := s'.procs[c].addr;
    Hand(s.swapmap, s.slo, |s.swap|, SwapHolding(s), SwapHolding(s'), Image(c), |b|);
    Granted(s.swapmap, s.slo, |s.swap|, SwapHolding(s), |b|);
    SameHolding(s.coremap, s.lo, |s.core|, CoreHolding(s), CoreHolding(s'));
    forall o, x: nat | SwapHeld(s, o, x) && x < |s.swap| ensures s'.swap[x] == s.swap[x] {
      assert SwapHolding(s)(o, x);
      assert !Inside(a, |b|, x);
    }
    assert Get(s'.swap, a, |b|) == b;
  }

  lemma {:induction false} CreateCounts(s: Sys, users: set<nat>, c: nat, b: seq<Page>, text: Option<nat>, inCore: bool)
    requires Counted(s, users) && c < |s.procs| && s.procs[c].stat == Null && c !in users
    requires text.Some? ==> TextIn(s, text.value)
    requires Create(s, c, b, text, inCore).Some?
    ensures Counted(Create(s, c, b, text, inCore).value, if inCore then users + {c} else users)
  {
    hide Counted, Alloc;
    var s', u' := Create(s, c, b, text, inCore).value, if inCore then users + {c} else users;
    CountStep(s, s', users, u', c);
  }

  lemma {:induction false} CreateGeometry(s: Sys, c: nat, b: seq<Page>, text: Option<nat>, inCore: bool)
    requires Geometry(s) && AtHome(s) && c < NPROC && s.procs[c].stat == Null && b != [] && c != s.live.procp
    requires text.Some? ==> TextIn(s, text.value)
    requires Create(s, c, b, text, inCore).Some?
    ensures var s' := Create(s, c, b, text, inCore).value;
            && Geometry(s') && AtHome(s') && s'.home == s.home && s'.live == s.live
            && (forall p: nat :: p < NPROC && p != c ==> s'.procs[p] == s.procs[p])
            && (forall t: nat :: t < NTEXT ==> TextSame(s, s', t))
  {
    hide Alloc;
  }

  lemma {:induction false} CreateHome(s: Sys, s': Sys, c: nat, b: seq<Page>, text: Option<nat>, inCore: bool)
    requires c < |s.procs| && (text.Some? ==> text.value < |s.texts|) && Create(s, c, b, text, inCore) == Some(s')
    requires Geometry(s') && CoreShared(s') && SwapShared(s')
    requires b != [] && c in s.home && s.home[c].procp == c && b[0] == Home(s.home[c])
    requires Get(if inCore then s'.core else s'.swap, s'.procs[c].addr, |b|) == b
    ensures HomeKept(s', c)
  {
    hide CoreShared, SwapShared, Alloc;
    ImageRange(s', c);
    assert Get(if inCore then s'.core else s'.swap, s'.procs[c].addr, |b|)[0] == b[0];
  }

  lemma {:induction false} CreateKeeps(s: Sys, users: set<nat>, c: nat, b: seq<Page>, text: Option<nat>, inCore: bool)
    requires Inv(s, users) && c < NPROC && s.procs[c].stat == Null && b != [] && c !in users && c != s.live.procp
    requires text.Some? ==> TextIn(s, text.value)
    requires c in s.home && s.home[c].procp == c && b[0] == Home(s.home[c])
    requires Create(s, c, b, text, inCore).Some?
    ensures Inv(Create(s, c, b, text, inCore).value, if inCore then users + {c} else users)
  {
    hide CoreShared, SwapShared, Counted, HomesKept, TextsKept, Alloc, Attached, Create, HomePage, TextSame;
    var s' := Create(s, c, b, text, inCore).value;
    if inCore {
      CreateInCore(s, users, c, b, text);
    } else {
      CreateOut(s, users, c, b, text);
    }
    CreateCounts(s, users, c, b, text, inCore);
    CreateGeometry(s, c, b, text, inCore);
    CreateHome(s, s', c, b, text, inCore);
    HomesFrame(s, s', Image(c));
    TextsFrame(s, s', Image(c));
  }

  /** newproc in the parent, whose u-area has become u by the save(u_ssav): the child c gets a copy
      of the image with the u-area the parent simulated for it, in core or, when there is no room,
      in the paging store.  None: out of swap space. */
  function NewProc(s: Sys, c: nat, u: UArea): Option<Sys>
    requires s.live.procp < |s.procs| && c < |s.procs|
    requires s.procs[s.live.procp].text.Some? ==> s.procs[s.live.procp].text.value < |s.texts|
  {
    var q, f := s.procs[s.live.procp], Simulate(s, c, u);
    Create(f, c, Get(f.core, q.addr, q.size), q.text, Alloc(f.coremap, q.size).Some?)
  }

  lemma {:induction false} NewProcKeeps(s: Sys, users: set<nat>, c: nat, u: UArea)
    requires Inv(s, users) && Running(s) && c < NPROC && s.procs[c].stat == Null && u.procp == s.live.procp
    requires s.live.procp in users && c !in users && NewProc(s, c, u).Some?
    ensures var s' := NewProc(s, c, u).value;
            && Inv(s', if s'.procs[c].load then users + {c} else users) && Running(s') && s'.live == u
            && c in s'.home && s'.home[c] == u.(procp := c)
  {
    hide CoreShared, SwapShared, Counted, HomesKept, TextsKept, Alloc;
    var p, f := s.live.procp, Simulate(s, c, u);
    var q := s.procs[p];
    SimulateKeeps(s, users, c, u);
    if q.text.Some? {
      UsersHaveText(s, users, p);
    }
    CreateKeeps(f, users, c, Get(f.core, q.addr, q.size), q.text, Alloc(f.coremap, q.size).Some?);
  }

  lemma {:induction false} UsersHaveText(s: Sys, users: set<nat>, p: nat)
    requires Inv(s, users) && p < NPROC && p in users && Alive(s.procs[p]) && s.procs[p].text.Some?
    ensures TextIn(s, s.procs[p].text.value)
  {
    var t := s.procs[p].text.value;
    hide CoreShared, SwapShared, HomesKept, TextsKept, Refs, RefsIn;
    RefsSome(s.procs, users, p, t);
    assert TextCounted(s.procs, s.texts[t], users, t);
  }

  // ----- expand --------------------------------------------------------------------------------

  /** expand to n pages, no more than there are. */
  function Shrink(s: Sys, n: nat): Sys
    requires s.live.procp < |s.procs| && n <= s.procs[s.live.procp].size
  {
    var q := s.procs[s.live.procp];
    s.(coremap := Join(s.coremap, q.size - n, q.addr + n), procs := s.procs[s.live.procp := q.(size := n)])
  }

  lemma {:induction false} ShrinkShares(s: Sys, users: set<nat>, n: nat)
    requires Inv(s, users) && Running(s) && 0 < n <= s.procs[s.live.procp].size
    ensures CoreShared(Shrink(s, n)) && SwapShared(Shrink(s, n))
  {
    hide Shared, Counted, HomesKept, TextsKept, Join;
    var s', p := Shrink(s, n), s.live.procp;
    var q := s.procs[p];
    ImageRange(s, p);
    Give(s.coremap, s.lo, |s.core|, CoreHolding(s), CoreHolding(s'), Image(p), q.addr + n, q.size - n);
    SameHolding(s.swapmap, s.slo, |s.swap|, SwapHolding(s), SwapHolding(s'));
  }

  lemma {:induction false} ShrinkKeeps(s: Sys, users: set<nat>, n: nat)
    requires Inv(s, users) && Running(s) && 0 < n <= s.procs[s.live.procp].size
    ensures Inv(Shrink(s, n), users) && Running(Shrink(s, n))
  {
    hide CoreShared, SwapShared, Counted, HomesKept, TextsKept, Join;
    var s', p := Shrink(s, n), s.live.procp;
    ShrinkShares(s, users, n);
    CountStep(s, s', users, users, p);
    HomesFrame(s, s', Image(p));
    TextsFrame(s, s', Image(p));
  }

  /** expand to n pages by moving: the image is copied but for its u page, and uhome moves along.
      None: no room. */
  function Move(s: Sys, n: nat): Option<Sys>
    requires s.live.procp < |s.procs| && n >= s.procs[s.live.procp].size > 0
  {
    var q := s.procs[s.live.procp];
    match Alloc(s.coremap, n)
    case None => None
    case Some(g) =>
      Some(s.(core := Put(s.core, g.addr + 1, Get(s.core, q.addr + 1, q.size - 1)), uhome := g.addr,
              coremap := Join(g.left, q.size, q.addr),
              procs := s.procs[s.live.procp := q.(addr := g.addr, size := n)]))
  }

  /** What is held while the image is in both places. */
  function BothPlaces(s: Sys, p: nat, a: nat, n: nat): Holding {
    (o, x) => CoreHeld(s, o, x) || (o == Image(p) && Inside(a, n, x))
  }

  lemma {:induction false} MoveShares(s: Sys, users: set<nat>, n: nat)
    requires Inv(s, users) && Running(s) && n >= s.procs[s.live.procp].size > 0 && Move(s, n).Some?
    ensures CoreShared(Move(s, n).value) && SwapShared(Move(s, n).value)
  {
    hide Shared, Counted, HomesKept, TextsKept, Join, Alloc;
    var s', p := Move(s, n).value, s.live.procp;
    var q, g := s.procs[p], Alloc(s.coremap, n).value;
    var both := BothPlaces(s, p, g.addr, n);
    ImageRange(s, p);
    Granted(s.coremap, s.lo, |s.core|, CoreHolding(s), n);
    Hand(s.coremap, s.lo, |s.core|, CoreHolding(s), both, Image(p), n);
    assert Loses(both, CoreHolding(s'), Image(p), q.addr, q.size) by {
      assert forall x :: Inside(g.addr, n, x) ==> !CoreHolding(s)(Image(p), x);
      assert forall x :: CoreHolding(s)(Image(p), x) == Inside(q.addr, q.size, x);
    }
    Give(g.left, s.lo, |s.core|, both, CoreHolding(s'), Image(p), q.addr, q.size);
    SameHolding(s.swapmap, s.slo, |s.swap|, SwapHolding(s), SwapHolding(s'));
  }

  /** Moving changes no core but the new image, which holds what the old one held above its u page. */
  lemma {:induction false} MoveCopies(s: Sys, users: set<nat>, n: nat)
    requires Inv(s, users) && Running(s) && n >= s.procs[s.live.procp].size > 0 && Move(s, n).Some?
    ensures var s', q := Move(s, n).value, s.procs[s.live.procp];
            && CoreSame(s, s', Image(s.live.procp))
            && Get(s'.core, s'.uhome + 1, q.size - 1) == Get(s.core, q.addr + 1, q.size - 1)
  {
    hide Shared, Counted, HomesKept, TextsKept, Join, Alloc;
    var s', p := Move(s, n).value, s.live.procp;
    var q, g := s.procs[p], Alloc(s.coremap, n).value;
    Granted(s.coremap, s.lo, |s.core|, CoreHolding(s), n);
    forall o, x: nat | CoreHeld(s, o, x) && x < |s.core| ensures s'.core[x] == s.core[x] {
      assert CoreHolding(s)(o, x);
      assert !Inside(g.addr, n, x);
    }
    assert Get(s'.core, s'.uhome + 1, q.size - 1) == Get(s.core, q.addr + 1, q.size - 1);
  }

  lemma {:induction false} MoveKeeps(s: Sys, users: set<nat>, n: nat)
    requires Inv(s, users) && Running(s) && n >= s.procs[s.live.procp].size > 0 && Move(s, n).Some?
    ensures Inv(Move(s, n).value, users) && Running(Move(s, n).value)
  {
    hide CoreShared, SwapShared, Counted, HomesKept, TextsKept, Join, Alloc;
    var s', p := Move(s, n).value, s.live.procp;
    MoveShares(s, users, n);
    MoveCopies(s, users, n);
    CountStep(s, s', users, users, p);
    HomesFrame(s, s', Image(p));
    TextsFrame(s, s', Image(p));
  }
}
