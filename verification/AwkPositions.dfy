/** The position sets of b.c: setvec marks the positions of the set being built, setcnt counts the
    marks made since it was cleared, and a finished set is remembered as its increasing list. */
module AwkPositions {

  const MAXLIN: nat := 112

  ghost predicate Increasing(l: seq<nat>) {
    forall i, j :: 0 <= i < j < |l| ==> l[i] < l[j]
  }

  /** l lists exactly the elements of s, in increasing order. */
  ghost predicate Lists(l: seq<nat>, s: set<nat>) {
    Increasing(l) && forall x :: x in l <==> x in s
  }

  lemma {:induction false} ListSize(l: seq<nat>, s: set<nat>)
    requires Lists(l, s)
    ensures |l| == |s|
    decreases |l|
  {
    if l == [] {
      assert s == {};
    } else {
      var h, x := l[..|l| - 1], l[|l| - 1];
      forall y ensures y in h <==> y in s - {x} {
        if y in s - {x} {
          assert y in l && y in h + [x];
        }
        if y in h {
          var k :| 0 <= k < |h| && h[k] == y;
          assert l[k] < l[|l| - 1];
        }
      }
      ListSize(h, s - {x});
    }
  }

  lemma SubsetOfEqualSize(a: set<nat>, b: set<nat>)
    requires a <= b && |a| == |b|
    ensures a == b
  {
    assert |b - a| == |b| - |a|;
    assert b == a + (b - a);
  }

  /** The largest position of a nonempty list comes last. */
  lemma LastIsMax(l: seq<nat>, s: set<nat>, top: nat)
    requires Lists(l, s) && l != [] && forall x :: x in s ==> x <= top
    ensures l[|l| - 1] == top <==> top in s
  {
    if top in s {
      assert top in l;
      assert l[|l| - 1] in s;
    }
  }

  class PosSet {
    var line: nat
    const setvec: array<int>
    var setcnt: nat

    constructor ()
      ensures line == 0 && setcnt == 0 && setvec.Length == MAXLIN && fresh(setvec)
    {
      line, setcnt := 0, 0;
      setvec := new int[MAXLIN](_ => 0);
    }

    ghost predicate Valid()
      reads this`line
    {
      line < setvec.Length
    }

    /** The marked positions. */
    ghost function Marked(): set<nat>
      requires Valid()
      reads this`line, setvec
    {
      set i: nat | i <= line && setvec[i] == 1
    }

    method Mark(i: nat)
      requires Valid() && i <= line
      modifies setvec, `setcnt
      ensures Marked() == old(Marked()) + {i}
      ensures setcnt - old(setcnt) == |Marked()| - |old(Marked())|
      ensures forall k :: 0 <= k < setvec.Length && k != i ==> setvec[k] == old(setvec[k])
    {
      if setvec[i] != 1 {
        setvec[i] := 1;
        setcnt := setcnt + 1;
      }
      assert Marked() == old(Marked()) + {i};
    }

    /** Clear positions lo..line. */
    method Clear(lo: nat)
      requires Valid() && lo <= 1
      modifies setvec, `setcnt
      ensures setcnt == 0
      ensures forall k :: 0 <= k < setvec.Length && !(lo <= k <= line) ==> setvec[k] == old(setvec[k])
      ensures Marked() == if lo == 0 then {} else old(Marked()) * {0}
    {
      setcnt := 0;
      var i := lo;
      while i <= line
        invariant lo <= i <= line + 1 && setcnt == 0
        invariant forall k :: lo <= k < i ==> setvec[k] == 0
        invariant forall k :: 0 <= k < setvec.Length && !(lo <= k < i) ==> setvec[k] == old(setvec[k])
      {
        setvec[i] := 0;
        i := i + 1;
      }
    }

    /** Is the set being built absent from arr[0] thru arr[n]?  Position 0 is never listed. */
    method NotIn(arr: seq<seq<nat>>, n: int, ghost sets: seq<set<nat>>) returns (absent: bool, prev: nat)
      requires Valid() && n < |arr| && |sets| == |arr|
      requires setcnt == |Marked() - {0}|
      requires forall i :: 0 <= i <= n ==>
                 Lists(arr[i], sets[i]) && forall x :: x in sets[i] ==> 1 <= x <= line
      ensures !absent ==> prev <= n && prev < |arr| && sets[prev] == Marked() - {0}
      ensures absent ==> forall i :: 0 <= i <= n ==> sets[i] != Marked() - {0}
    {
      prev := 0;
      var i := 0;
      while i <= n
        invariant 0 <= i
        invariant forall k :: 0 <= k < i && k <= n ==> sets[k] != Marked() - {0}
      {
        ListSize(arr[i], sets[i]);
        assert forall k :: 0 <= k < |arr[i]| ==> arr[i][k] in sets[i];
        if |arr[i]| == setcnt {
          var j := 0;
          while j < setcnt && setvec[arr[i][j]] == 1
            invariant 0 <= j <= setcnt
            invariant forall k :: 0 <= k < j ==> setvec[arr[i][k]] == 1
          {
            j := j + 1;
          }
          if j == setcnt {
            assert sets[i] <= Marked() - {0} by {
              forall x | x in sets[i] ensures x in Marked() {
                assert x in arr[i];
              }
            }
            SubsetOfEqualSize(sets[i], Marked() - {0});
            return false, i;
          }
          assert arr[i][j] in sets[i];
        }
        i := i + 1;
      }
      return true, 0;
    }

    /** Remember the set being built. */
    method Add(n: nat) returns (l: seq<nat>)
      requires Valid() && n == |Marked() - {0}|
      ensures Lists(l, Marked() - {0}) && |l| == n
    {
      l := [];
      var i := 1;
      while i <= line
        invariant 1 <= i <= line + 1
        invariant Increasing(l) && forall x :: x in l <==> 1 <= x < i && setvec[x] == 1
      {
        if setvec[i] == 1 {
          assert forall k :: 0 <= k < |l| ==> l[k] in l;
          l := l + [i];
        }
        i := i + 1;
      }
      ListSize(l, Marked() - {0});
    }
  }
}
