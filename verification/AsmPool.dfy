/** The assembler's table of known constants: an open-addressed hash over (value, relocation) keys,
    probed downwards with wrap-around (cmd/as/pass1.c). */
module AsmPool {
  import opened Common

  /** The range of an unsigned word on the build machine; it is wider than a word of the target. */
  const WIDE: nat := 0x1_0000_0000_0000_0000

  /** One known word of the const segment: its value, the relocation of that value, and its offset. */
  datatype Constant = Constant(val: nat, rel: nat, addr: nat)

  /** The slot where the search for a key begins. */
  function Home(n: nat, val: nat, rel: nat): (h: nat)
    requires 0 < n
    ensures h < n
  {
    (val / HALF % HALF + val % HALF + rel) % 0x1_0000 * 0x6f1b % n
  }

  /** The slot `d` probes after `h`. */
  function Back(n: nat, h: nat, d: nat): (k: nat)
    requires h < n && d < n
    ensures k < n
  {
    if d <= h then h - d else h - d + n
  }

  /** How many probes after `h` slot `k` is looked at. */
  function Dist(n: nat, h: nat, k: nat): (d: nat)
    requires h < n && k < n
    ensures d < n && Back(n, h, d) == k
  {
    if k <= h then h - k else h - k + n
  }

  predicate Keyed(c: Constant, val: nat, rel: nat) {
    c.val == val && c.rel == rel
  }

  ghost predicate Known(tab: seq<Constant>, val: nat, rel: nat) {
    exists i :: 0 <= i < |tab| && Keyed(tab[i], val, rel)
  }

  ghost predicate Distinct(tab: seq<Constant>) {
    forall i, j :: 0 <= i < j < |tab| ==> !Keyed(tab[i], tab[j].val, tab[j].rel)
  }

  /** Slots and entries name each other, and at least one slot is free. */
  ghost predicate Placed(hash: seq<int>, size: nat, slot: seq<nat>) {
    && |slot| == size < |hash|
    && (forall k :: 0 <= k < |hash| ==> hash[k] == -1 || (0 <= hash[k] < size && slot[hash[k]] == k))
    && (forall i :: 0 <= i < size ==> slot[i] < |hash| && hash[slot[i]] == i)
  }

  ghost predicate Taken(hash: seq<int>, h: nat, d: nat)
    requires h < |hash| && d < |hash|
  {
    hash[Back(|hash|, h, d)] != -1
  }

  /** No free slot lies between an entry's home and the slot it is filed in. */
  ghost predicate Reached(hash: seq<int>, c: Constant, k: nat)
    requires k < |hash|
  {
    var h := Home(|hash|, c.val, c.rel);
    forall d: nat :: d < Dist(|hash|, h, k) ==> Taken(hash, h, d)
  }

  /** What every registration keeps. */
  ghost predicate Filed(hash: seq<int>, tab: seq<Constant>, slot: seq<nat>) {
    && Placed(hash, |tab|, slot)
    && Distinct(tab)
    && (forall i :: 0 <= i < |tab| ==> Reached(hash, tab[i], slot[i]))
  }

  ghost function Below(n: nat): (s: set<nat>)
    ensures |s| == n
    ensures forall k: nat :: k in s <==> k < n
  {
    if n == 0 then {} else Below(n - 1) + {n - 1}
  }

  ghost function Values(slot: seq<nat>): (s: set<nat>)
    ensures |s| <= |slot|
    ensures forall i :: 0 <= i < |slot| ==> slot[i] in s
  {
    if slot == [] then {} else Values(slot[..|slot| - 1]) + {slot[|slot| - 1]}
  }

  lemma Fits(a: set<nat>, b: set<nat>)
    requires a <= b
    ensures |a| <= |b|
  {
    assert b == a + (b - a);
  }

  /** Fewer entries than slots leave one free. */
  lemma SomeFree(hash: seq<int>, size: nat, slot: seq<nat>)
    requires Placed(hash, size, slot)
    ensures exists k :: 0 <= k < |hash| && hash[k] == -1
  {
    if Below(|hash|) <= Values(slot) {
      Fits(Below(|hash|), Values(slot));
    }
    var k :| k in Below(|hash|) && k !in Values(slot);
    assert hash[k] == -1;
  }

  /** A search for an entry's key meets only taken slots up to the entry. */
  lemma OnPath(hash: seq<int>, tab: seq<Constant>, slot: seq<nat>, i: nat, d: nat)
    requires Filed(hash, tab, slot) && i < |tab|
    requires d <= Dist(|hash|, Home(|hash|, tab[i].val, tab[i].rel), slot[i])
    ensures Taken(hash, Home(|hash|, tab[i].val, tab[i].rel), d)
  {
    assert Reached(hash, tab[i], slot[i]);
  }

  /** Looks a key up: either the entry that has it, or the free slot where it would be filed. Every
      probe ends, because a slot is free. */
  method Probe(hash: seq<int>, tab: seq<Constant>, ghost slot: seq<nat>, val: nat, rel: nat) returns (i: int, k: nat)
    requires Filed(hash, tab, slot)
    ensures k < |hash| && hash[k] == i
    ensures i != -1 ==> 0 <= i < |tab| && Keyed(tab[i], val, rel)
    ensures i == -1 <==> !Known(tab, val, rel)
    ensures i == -1 ==> Reached(hash, Constant(val, rel, 0), k)
  {
    hide Home, Distinct;
    var n := |hash|;
    var home := Home(n, val, rel);
    k := home;
    i := hash[k];
    ghost var d: nat := 0;
    SomeFree(hash, |tab|, slot);
    ghost var free :| 0 <= free < n && hash[free] == -1;
    ghost var known := Known(tab, val, rel);
    ghost var j := if known then var j :| 0 <= j < |tab| && Keyed(tab[j], val, rel); j else 0;
    while i != -1
      invariant d < n && k == Back(n, home, d) && i == hash[k]
      invariant forall e: nat :: e < d ==> Taken(hash, home, e)
      invariant known ==> d <= Dist(n, home, slot[j])
      decreases n - d
    {
      if Keyed(tab[i], val, rel) {
        return;
      }
      assert Taken(hash, home, d);
      assert d + 1 < n by {
        assert !Taken(hash, home, Dist(n, home, free));
      }
      k := if k == 0 then n - 1 else k - 1;
      d := d + 1;
      i := hash[k];
    }
    assert !known by {
      if known { OnPath(hash, tab, slot, j, d); }
    }
    assert Dist(n, home, k) == d;
  }

  /** Filing a new key in the free slot its probe ended on keeps the table. */
  lemma FiledGrows(hash: seq<int>, tab: seq<Constant>, slot: seq<nat>, c: Constant, k: nat)
    requires Filed(hash, tab, slot) && |tab| + 1 < |hash|
    requires k < |hash| && hash[k] == -1 && Reached(hash, c, k) && !Known(tab, c.val, c.rel)
    ensures Filed(hash[k := |tab|], tab + [c], slot + [k])
  {
    var hash', tab', slot' := hash[k := |tab|], tab + [c], slot + [k];
    assert Placed(hash', |tab'|, slot');
    forall i | 0 <= i < |tab'|
      ensures Reached(hash', tab'[i], slot'[i])
    {
      var h := Home(|hash|, tab'[i].val, tab'[i].rel);
      assert Reached(hash, tab'[i], slot'[i]) by {
        assert i == |tab| ==> tab'[i] == c && slot'[i] == k;
      }
      forall d: nat | d < Dist(|hash'|, h, slot'[i]) ensures Taken(hash', h, d) {
        assert Taken(hash, h, d);
      }
    }
  }

  lemma KnownStays(tab: seq<Constant>, c: Constant, val: nat, rel: nat)
    ensures Known(tab + [c], val, rel) <==> Known(tab, val, rel) || Keyed(c, val, rel)
  {
    var tab' := tab + [c];
    if Known(tab, val, rel) {
      var i :| 0 <= i < |tab| && Keyed(tab[i], val, rel);
      assert Keyed(tab'[i], val, rel);
    }
    if Keyed(c, val, rel) {
      assert Keyed(tab'[|tab|], val, rel);
    }
  }
}
