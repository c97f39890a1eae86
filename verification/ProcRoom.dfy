/** How many slots the free maps need: one run more than there are images and texts to keep the runs apart
    (kernel/malloc.c, kernel/slp.c). */
module ProcRoom {
  import opened Common
  import opened ResourceMap
  import opened Space
  import opened Pages
  import opened ProcMem
  import opened ProcOps
  import opened ProcText
  import opened ProcRun
  import opened ProcLaws
  import opened Kernel

  // ----- runs and what is between them ---------------------------------------------------------

  /** Everybody holds one piece. */
  ghost predicate InOnePiece(held: Holding) {
    forall o, x, y, z :: held(o, x) && held(o, z) && x <= y <= z ==> held(o, y)
  }

  ghost predicate Only(held: Holding, owners: set<Owner>) {
    forall o, x :: held(o, x) ==> o in owners
  }

  /** The owner of the unit behind run k. */
  lemma {:induction false} Behind(free: seq<Run>, lo: nat, hi: nat, held: Holding, k: nat) returns (o: Owner)
    requires Shared(free, lo, hi, held) && k + 1 < |free|
    ensures held(o, free[k].addr + free[k].size)
  {
    var g := free[k].addr + free[k].size;
    assert Covers(free[k], free[k].addr) && Covers(free[k + 1], free[k + 1].addr);
    assert Free(free, free[k].addr) && Free(free, free[k + 1].addr);
    assert !Free(free, g) by {
      hide Free;
      FreeReplace(free, k, k + 1, [], g);
      Apart(free, k, g);
    }
    o :| held(o, g);
  }

  /** Who holds z and not y below it holds nothing below that. */
  lemma NoneBelow(held: Holding, o: Owner, y: int, z: int)
    requires InOnePiece(held) && held(o, z) && !held(o, y) && y <= z
    ensures forall x :: x <= y ==> !held(o, x)
  {
  }

  /** There are k different owners with something below run k. */
  lemma {:induction false} Below(free: seq<Run>, lo: nat, hi: nat, held: Holding, owners: set<Owner>, k: nat) returns (s: set<Owner>)
    requires Shared(free, lo, hi, held) && InOnePiece(held) && Only(held, owners) && k < |free|
    ensures s <= owners && |s| == k && forall o :: o in s ==> exists x :: x < free[k].addr && held(o, x)
  {
    s := {};
    if k > 0 {
      var r := Below(free, lo, hi, held, owners, k - 1);
      var o := Behind(free, lo, hi, held, k - 1);
      var run := free[k - 1];
      assert Covers(run, run.addr) && Free(free, run.addr);
      NoneBelow(held, o, run.addr, run.addr + run.size);
      s := r + {o};
      forall q | q in s ensures exists x :: x < free[k].addr && held(q, x) {
        if q == o {
          assert run.addr + run.size < free[k].addr && held(q, run.addr + run.size);
        } else {
          var x :| x < run.addr && held(q, x);
          assert x < free[k].addr;
        }
      }
    }
  }

  /** At most one run more than there are owners. */
  lemma {:induction false} RunsBound(free: seq<Run>, lo: nat, hi: nat, held: Holding, owners: set<Owner>)
    requires Shared(free, lo, hi, held) && InOnePiece(held) && Only(held, owners)
    ensures |free| <= |owners| + 1
  {
    if free != [] {
      var s := Below(free, lo, hi, held, owners, |free| - 1);
      Fewer(s, owners);
    }
  }

  lemma {:induction false} Fewer(a: set<Owner>, b: set<Owner>)
    requires a <= b
    ensures |a| <= |b|
    decreases a
  {
    if o :| o in a {
      Fewer(a - {o}, b - {o});
    }
  }

  // ----- the two maps --------------------------------------------------------------------------

  /** The images and texts in core, and those on swap. */
  ghost function CoreOwners(s: Sys): set<Owner> {
    (set p | 0 <= p < |s.procs| && InCore(s, p) :: Image(p)) + (set t | 0 <= t < |s.texts| && TextIn(s, t) :: Text(t))
  }

  ghost function SwapOwners(s: Sys): set<Owner> {
    (set p | 0 <= p < |s.procs| && Out(s, p) :: Image(p)) + (set t | 0 <= t < |s.texts| && TextUsed(s, t) :: Text(t))
  }

  /** A map has at most one run more than there are images and texts in its space. */
  lemma {:induction false} MapsBound(s: Sys)
    requires Good(s)
    ensures |s.coremap| <= |CoreOwners(s)| + 1 && |s.swapmap| <= |SwapOwners(s)| + 1
  {
    assert CoreShared(s) && SwapShared(s);
    assert InOnePiece(CoreHolding(s)) && Only(CoreHolding(s), CoreOwners(s));
    assert InOnePiece(SwapHolding(s)) && Only(SwapHolding(s), SwapOwners(s));
    hide Inv, CoreHeld, SwapHeld, Shared, InOnePiece, Only;
    RunsBound(s.coremap, s.lo, |s.core|, CoreHolding(s), CoreOwners(s));
    RunsBound(s.swapmap, s.slo, |s.swap|, SwapHolding(s), SwapOwners(s));
  }

  /** No operation of the kernel needs more slots than the tables have. */
  predicate Roomy(s: Sys) {
    |s.coremap| + 2 < CMAPSIZ && |s.swapmap| + 1 < SMAPSIZ
  }

  /** Every operation of the machine takes at most two runs of core more on its way, and one of swap space: in a
      roomy state it leaves both tables with an end, at every point of it. */
  twostate lemma RoomyKeepsEnd(m: Machine, c: nat, w: nat)
    requires c <= 2 && w <= 1 && old(m.ended) && Roomy(old(m.State())) && m.Grew(c, w)
    ensures m.ended
  {
  }

  /** Few enough images and texts for that. */
  ghost predicate Sparse(s: Sys) {
    |CoreOwners(s)| + 3 < CMAPSIZ && |SwapOwners(s)| + 2 < SMAPSIZ
  }

  /** So after every run from boot that leaves few enough images and texts, in core and on swap, the tables
      suffice for what comes next. */
  lemma {:induction false} AlwaysRoomy(n: nat, m: nat, u: UArea, ops: seq<Op>)
    requires u.procp == 0 && After(Boot(n, m, u), ops).Some? && Sparse(After(Boot(n, m, u), ops).value)
    ensures Roomy(After(Boot(n, m, u), ops).value)
  {
    hide Good, Boot, After, CoreOwners, SwapOwners;
    AlwaysGood(n, m, u, ops);
    MapsBound(After(Boot(n, m, u), ops).value);
  }
}
