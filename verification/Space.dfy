/** Shared-out space: a resource map together with the claims on the units it has handed out. */
module Space {
  import opened Common
  import opened ResourceMap

  /** Who holds a piece of core or swap space: a process image or a text segment. */
  datatype Owner = Image(p: nat) | Text(t: nat)

  /** held(o, x): the unit x belongs to o. */
  type Holding = (Owner, int) -> bool

  ghost predicate NotFreeHeld(free: seq<Run>, held: Holding) {
    forall o, x :: held(o, x) ==> !Free(free, x)
  }

  ghost predicate OneHolder(held: Holding) {
    forall o, o', x :: held(o, x) && held(o', x) ==> o == o'
  }

  ghost predicate Conserved(free: seq<Run>, lo: nat, hi: nat, held: Holding) {
    forall x :: lo <= x < hi <==> Free(free, x) || exists o :: held(o, x)
  }

  /** Every unit of the pool [lo, hi) is free or held, never both, and never held twice. */
  ghost predicate Shared(free: seq<Run>, lo: nat, hi: nat, held: Holding) {
    && Ordered(free) && NotFreeHeld(free, held) && OneHolder(held) && Conserved(free, lo, hi, held)
  }

  predicate Inside(a: int, n: int, x: int) {
    a <= x < a + n
  }

  /** o holds the whole of [a, a+n). */
  ghost predicate HoldsAll(held: Holding, o: Owner, a: int, n: int) {
    forall x :: Inside(a, n, x) ==> held(o, x)
  }

  /** held' is held with [a, a+n) added to what o holds. */
  ghost predicate Gains(held: Holding, held': Holding, o: Owner, a: int, n: int) {
    forall o', x :: held'(o', x) <==> held(o', x) || (o' == o && Inside(a, n, x))
  }

  /** held' is held with [a, a+n) taken from what o holds. */
  ghost predicate Loses(held: Holding, held': Holding, o: Owner, a: int, n: int) {
    forall o', x :: held'(o', x) <==> held(o', x) && !(o' == o && Inside(a, n, x))
  }

  ghost predicate Same(held: Holding, held': Holding) {
    forall o, x :: held'(o, x) <==> held(o, x)
  }

  // ----- first fit as a function ----------------------------------------------------------------

  /** The first run with at least n units, or |e|. */
  function FirstFit(e: seq<Run>, n: nat): (i: nat)
    ensures i <= |e|
    ensures forall k :: 0 <= k < i ==> e[k].size < n
    ensures i < |e| ==> e[i].size >= n
  {
    if e == [] || e[0].size >= n then 0 else 1 + FirstFit(e[1..], n)
  }

  datatype Grant = Grant(addr: nat, left: seq<Run>)

  /** What malloc does, as a function of the runs. */
  function Alloc(e: seq<Run>, n: nat): Option<Grant> {
    var i := FirstFit(e, n);
    if i < |e| then Some(Grant(e[i].addr, Cut(e, i, n))) else None
  }

  // ----- what malloc and mfree do to the sharing ------------------------------------------------

  lemma FreeRun(free: seq<Run>, i: nat, x: int)
    requires i < |free| && Covers(free[i], x)
    ensures Free(free, x)
  {
  }

  /** What malloc hands out was free and lies in the pool. */
  lemma {:induction false} Granted(free: seq<Run>, lo: nat, hi: nat, held: Holding, n: nat)
    requires Shared(free, lo, hi, held) && Alloc(free, n).Some?
    ensures var a := Alloc(free, n).value.addr;
            && a > 0 && (n > 0 ==> lo <= a && a + n <= hi)
            && forall o, x :: Inside(a, n, x) ==> !held(o, x)
  {
    hide Free, Cut;
    var i := FirstFit(free, n);
    forall x | Inside(free[i].addr, n, x) ensures Free(free, x) {
      FreeRun(free, i, x);
    }
    if n > 0 {
      assert Inside(free[i].addr, n, free[i].addr) && Inside(free[i].addr, n, free[i].addr + n - 1);
    }
  }

  /** Handing what malloc grants to o. */
  lemma {:induction false} Hand(free: seq<Run>, lo: nat, hi: nat, held: Holding, held': Holding, o: Owner, n: nat)
    requires Shared(free, lo, hi, held) && Alloc(free, n).Some?
    requires Gains(held, held', o, Alloc(free, n).value.addr, n)
    ensures Shared(Alloc(free, n).value.left, lo, hi, held')
  {
    hide Cut, Free, Ordered;
    var i := FirstFit(free, n);
    CutTakes(free, i, n);
    var e := Cut(free, i, n);
    forall x | Inside(free[i].addr, n, x) ensures Free(free, x) {
      FreeRun(free, i, x);
    }
    forall x ensures lo <= x < hi <==> Free(e, x) || exists o' :: held'(o', x) {
      if o' :| held(o', x) {
        assert held'(o', x);
      }
      if Inside(free[i].addr, n, x) {
        assert held'(o, x);
      }
    }
  }

  /** Taking [a, a+n) back from o, who held all of it. */
  lemma {:induction false} Give(free: seq<Run>, lo: nat, hi: nat, held: Holding, held': Holding, o: Owner, a: nat, n: nat)
    requires Shared(free, lo, hi, held) && a > 0
    requires HoldsAll(held, o, a, n) && Loses(held, held', o, a, n)
    ensures InUse(free, n, a) && Shared(Join(free, n, a), lo, hi, held')
  {
    hide Join, Free, Ordered;
    forall u | a <= u < a + n ensures !Free(free, u) {
      assert Inside(a, n, u) && held(o, u);
    }
    JoinGives(free, n, a);
    var e := Join(free, n, a);
    assert forall x :: Free(e, x) <==> Free(free, x) || Inside(a, n, x);
    forall x ensures lo <= x < hi <==> Free(e, x) || exists o' :: held'(o', x) {
      assert Inside(a, n, x) ==> held(o, x);
      if o' :| held(o', x) {
        assert held'(o', x) || Inside(a, n, x);
      }
    }
  }

  /** Renaming claims leaves the space shared out. */
  lemma {:induction false} SameHolding(free: seq<Run>, lo: nat, hi: nat, held: Holding, held': Holding)
    requires Shared(free, lo, hi, held) && Same(held, held')
    ensures Shared(free, lo, hi, held')
  {
    hide Free, Ordered;
    forall x ensures lo <= x < hi <==> Free(free, x) || exists o :: held'(o, x) {
      if o :| held(o, x) {
        assert held'(o, x);
      }
    }
  }

  /** A nonempty range that is held lies in the pool. */
  lemma {:induction false} HeldRange(free: seq<Run>, lo: nat, hi: nat, held: Holding, o: Owner, a: nat, n: nat)
    requires Shared(free, lo, hi, held) && n > 0 && HoldsAll(held, o, a, n)
    ensures lo <= a && a + n <= hi
  {
    hide Free, Ordered;
    assert Inside(a, n, a) && held(o, a);
    assert Inside(a, n, a + n - 1) && held(o, a + n - 1);
  }
}
