/** The callout half of the clock interrupt and the routine that arms a call, in place on the table
    (kernel/clock.c). */
module ClockTable {
  import opened Callouts

  /** Arming succeeds, or the kernel panics, or the end mark is pushed off the table unnoticed. */
  datatype Outcome = Armed | Panic | Overrun

  ghost function Slid(s: seq<Callo>, p: nat, q: nat): (r: seq<Callo>)
    requires p <= q && q + 1 < |s|
    ensures |r| == |s|
  {
    s[..p + 1] + s[p..q + 1] + s[q + 2..]
  }

  /** Moves the entries from `p` to `q` one slot up. */
  method Slide(a: array<Callo>, p: nat, q: nat)
    requires p <= q && q + 1 < a.Length
    modifies a
    ensures a[..] == Slid(old(a[..]), p, q)
  {
    var i: int := q;
    while i >= p
      invariant p - 1 <= i <= q
      invariant forall j :: 0 <= j <= i || 0 <= j <= p || q + 1 < j < a.Length ==> a[j] == old(a[j])
      invariant forall j :: i + 1 < j <= q + 1 ==> a[j] == old(a[j - 1])
    {
      a[i + 1] := a[i];
      i := i - 1;
    }
    assert forall j :: 0 <= j < a.Length ==> a[..][j] == Slid(old(a[..]), p, q)[j];
  }

  /** Sliding and overwriting the freed slot inserts. */
  lemma SlidInserts(s: seq<Callo>, p: nat, q: nat, t: int, fun: nat, arg: int)
    requires p <= q && q + 1 < |s|
    ensures var r := Slid(s[p := s[p].(time := s[p].time - t)], p, q)[p := Callo(t, fun, arg)];
      r[..q + 1] == Inserted(s[..q], p, t, fun, arg) && r[q + 1].func == s[q].func
  {
    hide Slid, Inserted;
    var x := s[p := s[p].(time := s[p].time - t)];
    var r := Slid(x, p, q)[p := Callo(t, fun, arg)];
    var w := Inserted(s[..q], p, t, fun, arg);
    InsertedAt(s[..q], p, t, fun, arg, 0);
    forall j | 0 <= j <= q ensures r[j] == w[j] {
      SlidAt(x, p, q, j);
      InsertedAt(s[..q], p, t, fun, arg, j);
    }
    SlidAt(x, p, q, q + 1);
  }

  lemma SlidAt(s: seq<Callo>, p: nat, q: nat, j: nat)
    requires p <= q && q + 1 < |s| && j < |s|
    ensures Slid(s, p, q)[j] == if p < j <= q + 1 then s[j - 1] else s[j]
  {
  }

  lemma InsertedAt(s: seq<Callo>, k: nat, left: int, func: nat, arg: int, j: nat)
    requires k <= |s| && j <= |s|
    ensures |Inserted(s, k, left, func, arg)| == |s| + 1
    ensures Inserted(s, k, left, func, arg)[j] ==
      if j < k then s[j] else if j == k then Callo(left, func, arg) else if j == k + 1 then s[k].(time := s[k].time - left) else s[j - 1]
  {
  }

  lemma InsertedFuncs(s: seq<Callo>, p: nat, t: int, fun: nat, arg: int)
    requires p <= |s| && fun != 0 && forall i :: 0 <= i < |s| ==> s[i].func != 0
    ensures var w := Inserted(s, p, t, fun, arg); forall i :: 0 <= i < |w| ==> w[i].func != 0
  {
  }

  class Clock {
    const callout: array<Callo>

    /** How many calls are pending. */
    ghost var n: nat

    ghost predicate Valid()
      reads this, callout
    {
      && n < callout.Length
      && (forall i :: 0 <= i < n ==> callout[i].func != 0)
      && callout[n].func == 0
    }

    ghost function Table(): (s: seq<Callo>)
      requires n <= callout.Length
      reads this, callout
      ensures |s| == n
    {
      callout[..n]
    }

    constructor (size: nat)
      requires 0 < size
      ensures Valid() && fresh(callout) && callout.Length == size && Table() == []
    {
      callout := new Callo[size](_ => Callo(0, 0, 0));
      n := 0;
    }

    /** Looks for the place of a call due in `tim` ticks. */
    method Find(tim: int) returns (p: nat, t: int)
      requires Valid()
      ensures p <= n && p == Place(Table(), tim, 0) && t == tim - Sum(Table(), p)
    {
      p, t := 0, tim;
      while callout[p].func != 0 && callout[p].time <= t
        invariant p <= n && t == tim - Sum(Table(), p)
        invariant Place(Table(), tim, 0) == Place(Table(), tim, p)
        decreases n - p
      {
        assert Sum(Table(), p + 1) == Sum(Table(), p) + callout[p].time;
        t := t - callout[p].time;
        p := p + 1;
      }
      assert p < n ==> Sum(Table(), p + 1) == Sum(Table(), p) + callout[p].time;
    }

    /** Looks for the end mark. */
    method EndFrom(p: nat) returns (q: nat)
      requires Valid() && p <= n
      ensures q == n
    {
      q := p;
      while callout[q].func != 0
        invariant p <= q <= n
        decreases n - q
      {
        q := q + 1;
      }
    }

    /** Moves the entries from `p` to the end mark at `q` one slot up and puts the new call at `p`. */
    method Shift(p: nat, q: nat, t: int, fun: nat, arg: int)
      requires Valid() && p <= q == n && n + 1 < callout.Length && fun != 0
      modifies callout, `n
      ensures Valid() && n == old(n) + 1
      ensures Table() == Inserted(old(Table()), p, t, fun, arg)
    {
      ghost var s := callout[..];
      SlidInserts(s, p, q, t, fun, arg);
      callout[p] := callout[p].(time := callout[p].time - t);
      Slide(callout, p, q);
      callout[p] := Callo(t, fun, arg);
      n := n + 1;
      assert callout[..] == Slid(s[p := s[p].(time := s[p].time - t)], p, q)[p := Callo(t, fun, arg)];
      assert callout[..][..q + 1] == callout[..q + 1];
      InsertedFuncs(s[..q], p, t, fun, arg);
    }

    /** Arms a call. The check for a full table looks only at the place of the new call, so with one
        slot left a call that is not the last one is put in and the end mark falls off. */
    method Timeout(arm: Arm) returns (r: Outcome)
      requires Valid() && arm.func != 0
      modifies callout, `n
      ensures r == Armed <==> old(n) + 2 <= callout.Length
      ensures r == Panic <==> old(n) + 2 > callout.Length && old(Place(Table(), arm.delay, 0)) == old(n)
      ensures r == Overrun <==> old(n) + 2 > callout.Length && old(Place(Table(), arm.delay, 0)) < old(n)
      ensures r == Armed ==> Valid() && Table() == Insert(old(Table()), arm)
      ensures r != Armed ==> Valid() && Table() == old(Table())
    {
      var p, t := Find(arm.delay);
      if p >= callout.Length - 1 {
        return Panic;
      }
      var q := EndFrom(p);
      if q + 1 >= callout.Length {
        return Overrun;
      }
      Shift(p, q, t, arm.func, arm.arg);
      r := Armed;
    }

    /** What a call does to the table when it runs. */
    method TimeoutAll(arms: seq<Arm>) returns (r: Outcome)
      requires Valid() && Legal(arms)
      modifies callout, `n
      ensures Valid()
      ensures r == Armed <==> old(n) + |arms| < callout.Length
      ensures r == Armed ==> Table() == InsertAll(old(Table()), arms)
    {
      r := Armed;
      for i := 0 to |arms|
        invariant Valid() && r == Armed && n == old(n) + i
        invariant Table() == InsertAll(old(Table()), arms[..i])
      {
        ghost var s := Table();
        r := Timeout(arms[i]);
        if r != Armed {
          return;
        }
        InsertAllMore(old(Table()), arms[..i], [arms[i]]);
        assert arms[..i] + [arms[i]] == arms[..i + 1];
        assert InsertAll(s, [arms[i]]) == Insert(s, arms[i]);
        InsertSums(s, arms[i], 0);
      }
      assert arms[..|arms|] == arms;
    }

    /** Moves the entries from `p` on, and the end mark, to the front. */
    method Drop(p: nat)
      requires Valid() && p <= n
      modifies callout, `n
      ensures Valid() && Table() == old(Table()[p..])
    {
      var i, j := p, 0;
      while callout[i].func != 0
        invariant n == old(n) < callout.Length && p <= i <= n && j == i - p
        invariant forall k :: i <= k <= n ==> callout[k] == old(callout[k])
        invariant forall k :: 0 <= k < j ==> callout[k] == old(callout[k + p])
        decreases n - i
      {
        callout[j] := callout[i];
        i := i + 1;
        j := j + 1;
      }
      callout[j] := callout[j].(func := 0);
      n := j;
    }

    /** Brings the first call that is not due one tick nearer. */
    method Decrement()
      requires Valid()
      modifies callout
      ensures Valid() && Table() == Ticked(old(Table()))
    {
      var p := 0;
      while callout[p].time <= 0 && callout[p].func != 0
        invariant p <= n && Zeros(Table(), 0) == Zeros(Table(), p)
        decreases n - p
      {
        p := p + 1;
      }
      callout[p] := callout[p].(time := callout[p].time - 1);
    }

    /** Runs the calls that are due, in place; the `k`-th of them arms `script[k]`. */
    method Fire(script: seq<seq<Arm>>) returns (r: Outcome)
      requires Valid() && Nonneg(Table()) && LegalScript(script)
      modifies callout, `n
      ensures Valid()
      ensures r == Armed <==> old(n) + |Asked(script, old(Calls(Table(), script, 0)))| < callout.Length
      ensures r == Armed ==> Table() == old(Pass(Table(), script, 0))
    {
      hide Legal, LegalScript, InsertAll, Asked, Nonneg, AllDue, Pass, Calls, RunHead, Arms, HeadDue;
      ghost var s, z := Table(), Calls(Table(), script, 0);
      r := Armed;
      var p := 0;
      PassBegins(s, script);
      while callout[p].func != 0 && callout[p].time <= 0
        invariant Valid() && r == Armed && n == |s| + |Asked(script, p)|
        invariant Midway(s, Table(), script, p)
        decreases if p < |script| then |script| - p else 0, n - p
      {
        ghost var t := Table();
        assert callout[p] == t[p];
        PassGoesOn(s, t, script, p);
        AskedNext(script, p, z);
        ArmsLegal(script, p);
        var arms := if p < |script| then script[p] else [];
        ArmsAre(script, p);
        r := TimeoutAll(arms);
        if r != Armed {
          return;
        }
        p := p + 1;
      }
      assert p < n ==> callout[p] == Table()[p];
      PassEnds(s, Table(), script, p);
      Drop(p);
    }

    /** One clock tick. When calls are not blocked, those due run, each arming what the script says, and
        each needs a free slot while those that have run still hold theirs. */
    method Tick(blocked: bool, script: seq<seq<Arm>>) returns (r: Outcome)
      requires Valid() && Nonneg(Table()) && LegalScript(script)
      modifies callout, `n
      ensures Valid()
      ensures r == Armed <==> blocked || old(n) + |Asked(script, old(Calls(Ticked(Table()), script, 0)))| < callout.Length
      ensures r == Armed ==> Table() == AfterTick(old(Table()), blocked, script)
    {
      hide Legal, InsertAll;
      r := Armed;
      if callout[0].func == 0 {
        return;
      }
      TickedSums(Table(), 0);
      Decrement();
      if blocked {
        return;
      }
      assert Table()[0] == callout[0];
      if callout[0].time <= 0 {
        r := Fire(script);
      }
    }
  }

  /** In the middle of a pass over the table s: the first p entries of t have been run, and the rest is what the
      pass has to go on with. */
  ghost predicate Midway(s: seq<Callo>, t: seq<Callo>, script: seq<seq<Arm>>, p: nat) {
    && p <= |t| && Nonneg(t) && AllDue(t, p)
    && Pass(t[p..], script, p) == Pass(s, script, 0) && Calls(t[p..], script, p) == Calls(s, script, 0)
  }

  lemma PassBegins(s: seq<Callo>, script: seq<seq<Arm>>)
    requires Nonneg(s)
    ensures Midway(s, s, script, 0) && Asked(script, 0) == []
  {
    assert s[0..] == s;
  }

  lemma AskedNext(script: seq<seq<Arm>>, p: nat, z: nat)
    ensures |Asked(script, p + 1)| == |Asked(script, p)| + |Arms(script, p)|
    ensures p < z ==> |Asked(script, p + 1)| <= |Asked(script, z)|
  {
    if p < z { AskedGrows(script, p + 1, z); }
  }

  lemma ArmsAre(script: seq<seq<Arm>>, k: nat)
    ensures Arms(script, k) == if k < |script| then script[k] else []
  {
  }

  lemma {:induction false} AllNonneg(s: seq<Callo>, arms: seq<Arm>)
    requires Nonneg(s) && Legal(arms)
    ensures Nonneg(InsertAll(s, arms))
    decreases |arms|
  {
    if arms != [] {
      InsertNonneg(s, arms[0]);
      AllNonneg(Insert(s, arms[0]), arms[1..]);
    }
  }

  /** One call more. */
  lemma PassGoesOn(s: seq<Callo>, t: seq<Callo>, script: seq<seq<Arm>>, p: nat)
    requires Midway(s, t, script, p) && p < |t| && t[p].time <= 0 && LegalScript(script)
    ensures Midway(s, InsertAll(t, Arms(script, p)), script, p + 1) && p < Calls(s, script, 0)
  {
    hide InsertAll, Pass, Calls, Legal;
    var arms := Arms(script, p);
    var t' := InsertAll(t, arms);
    ArmsLegal(script, p);
    AllNonneg(t, arms);
    InsertAllTail(t, p + 1, arms);
    forall i | 0 <= i <= p ensures t'[i].time == 0 { assert t'[i] == t'[..p + 1][i] == t[..p + 1][i]; }
    assert t[p..][1..] == t[p + 1..];
    assert t'[p + 1..] == RunHead(t[p..], script, p);
    OneMore(t[p..], script, p);
  }

  lemma OneMore(s: seq<Callo>, script: seq<seq<Arm>>, k: nat)
    requires HeadDue(s)
    ensures Pass(s, script, k) == Pass(RunHead(s, script, k), script, k + 1)
    ensures Calls(s, script, k) == Calls(RunHead(s, script, k), script, k + 1) > k
  {
  }

  lemma PassEnds(s: seq<Callo>, t: seq<Callo>, script: seq<seq<Arm>>, p: nat)
    requires Midway(s, t, script, p) && (p < |t| ==> t[p].time > 0)
    ensures t[p..] == Pass(s, script, 0) && p == Calls(s, script, 0)
  {
  }

  /** A table of three with calls due in 5 and 7 ticks: a third call, due in 1, pushes the end mark off. */
  method Overruns() returns (c: Clock, r: Outcome)
    ensures c.Valid() && c.callout.Length == 3 && |c.Table()| == 2 && Remaining(c.Table(), 0) == 5
    ensures r == Overrun
  {
    c := new Clock(3);
    var r1 := c.Timeout(Arm(1, 0, 5));
    InsertSums([], Arm(1, 0, 5), 1);
    ghost var s := c.Table();
    var r2 := c.Timeout(Arm(1, 0, 7));
    InsertSums(s, Arm(1, 0, 7), 1);
    assert Remaining(c.Table(), 0) == 5;
    r := c.Timeout(Arm(1, 0, 1));
  }
}
