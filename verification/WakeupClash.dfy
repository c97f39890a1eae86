/** A wakeup that sets off the wakeup of the swapper while both walk the same sleep queue
    (kernel/slp.c). The inner walk can take away the process the outer one comes to next, or the one it
    would unlink through. This is exactly when that goes wrong. */
module WakeupClash {
  import opened Common
  import opened Chains
  import opened Sched

  /** The k-th process of the bucket is the first one that waits for chan and is not in core. */
  ghost predicate Tripper(t: Tab, load: seq<bool>, chan: nat, k: nat)
    requires Sized(t) && |load| == NPROC
  {
    var l := t.slp[Hash(chan)];
    && k < |l| && l[k] < NPROC && t.wchan[l[k]] == chan && !load[l[k]]
    && (forall i :: 0 <= i < k && l[i] < NPROC && t.wchan[l[i]] == chan ==> load[l[i]])
  }

  ghost predicate WaitsFor(t: Tab, p: nat, chan: nat) {
    p < |t.wchan| && t.wchan[p] == chan
  }

  /** Shape one: a sleeper on runout comes right after it, and somebody behind that one waits for chan.
      The outer walk goes on along the run queue and never reaches them. */
  ghost predicate LosesRest(t: Tab, chan: nat, swapper: nat, k: nat)
    requires Sized(t)
  {
    var l := t.slp[Hash(chan)];
    && k + 1 < |l| && WaitsFor(t, l[k + 1], swapper)
    && (exists m :: k + 1 < m < |l| && WaitsFor(t, l[m], chan))
  }

  /** Shape two: the last process before it that does not wait for chan sleeps on runout, and the one
      right after it waits for chan. The outer walk unlinks that one through a process that has gone to
      the run queue. */
  ghost predicate CutsThrough(t: Tab, chan: nat, swapper: nat, k: nat)
    requires Sized(t)
  {
    var l := t.slp[Hash(chan)];
    && k + 1 < |l| && WaitsFor(t, l[k + 1], chan)
    && (exists j :: 0 <= j < k && WaitsFor(t, l[j], swapper) && (forall i :: j < i < k ==> WaitsFor(t, l[i], chan)))
  }

  /** wakeup(chan) goes wrong: a condition on the queues before the call. */
  ghost predicate Clash(t: Tab, load: seq<bool>, chan: nat, swapper: nat) {
    && Sized(t) && |load| == NPROC && t.runout && chan != swapper
    && (exists k: nat :: Tripper(t, load, chan, k) && (LosesRest(t, chan, swapper, k) || CutsThrough(t, chan, swapper, k)))
  }

  /** The memory a wakeup works on. */
  datatype Mem = Mem(stat: seq<Stat>, wchan: seq<nat>, link: seq<int>, slpque: seq<int>, runq: int, runout: bool)

  /** What wakeup(chan) promises, said of the memory alone: there are lists that the links are, with
      every process where its state says, and the sleepers on chan are runnable. */
  ghost predicate Right(t: Tab, load: seq<bool>, chan: nat, swapper: nat, off: set<nat>, m: Mem) {
    exists run: seq<nat>, slp: seq<seq<nat>> :: Holds(t, load, chan, swapper, off, m, run, slp)
  }

  ghost predicate Holds(t: Tab, load: seq<bool>, chan: nat, swapper: nat, off: set<nat>, m: Mem, run: seq<nat>, slp: seq<seq<nat>>) {
    var t' := Tab(m.stat, m.wchan, run, slp, m.runout);
    && Linked(m.link, m.slpque, m.runq, run, slp) && Placed(t', off)
    && Sized(t) && Woken(t, load, chan, swapper, t.slp[Hash(chan)], t')
  }

  // ----- the first process that sets it off ----------------------------------------------------

  lemma TripperOnce(t: Tab, load: seq<bool>, chan: nat, j: nat, k: nat)
    requires Sized(t) && |load| == NPROC && Tripper(t, load, chan, j) && Tripper(t, load, chan, k)
    ensures j == k
  {
  }

  /** The walk has come to k without setting anything off: k is the first to do so if it does. */
  lemma TripperHere(t: Tab, load: seq<bool>, chan: nat, k: nat)
    requires Quiet(t, load, chan, k) && t.runout && |load| == NPROC && k < |t.slp[Hash(chan)]|
    requires var x := t.slp[Hash(chan)][k]; x < NPROC && t.wchan[x] == chan && !load[x]
    ensures Tripper(t, load, chan, k)
  {
    var l := t.slp[Hash(chan)];
    forall i | 0 <= i < k && l[i] < NPROC && t.wchan[l[i]] == chan ensures load[l[i]] {
      assert l[..k][i] in l[..k];
    }
  }

  /** A walk that sets nothing off does not clash. */
  lemma QuietEnd(t: Tab, load: seq<bool>, chan: nat, swapper: nat)
    requires Sized(t) && Quiet(t, load, chan, |t.slp[Hash(chan)]|)
    ensures !Clash(t, load, chan, swapper)
  {
    var l := t.slp[Hash(chan)];
    assert l[..|l|] == l;
    if t.runout && |load| == NPROC {
      assert forall k: nat :: !Tripper(t, load, chan, k);
    }
  }

  /** Whether it clashes is decided at the process that sets it off. */
  lemma ClashAt(t: Tab, load: seq<bool>, chan: nat, swapper: nat, k: nat)
    requires Sized(t) && |load| == NPROC && t.runout && Tripper(t, load, chan, k)
    ensures Clash(t, load, chan, swapper) <==> chan != swapper && (LosesRest(t, chan, swapper, k) || CutsThrough(t, chan, swapper, k))
  {
    forall j: nat | Tripper(t, load, chan, j) ensures j == k {
      TripperOnce(t, load, chan, j, k);
    }
  }

  // ----- those who still wait ------------------------------------------------------------------

  lemma {:induction false} WaitingConcat(a: seq<nat>, b: seq<nat>, w: seq<nat>)
    ensures Waiting(a + b, w) == Waiting(a, w) + Waiting(b, w)
    decreases |b|
  {
    if b == [] {
      assert a + b == a;
    } else {
      var n := |b| - 1;
      assert (a + b)[..|a| + n] == a + b[..n];
      WaitingConcat(a, b[..n], w);
    }
  }

  function Last(l: seq<nat>): int {
    if l == [] then NONE else l[|l| - 1]
  }

  /** The last of those the walk has left behind is the last that did not wait for chan. */
  lemma {:induction false} LastLeft(l: seq<nat>, w: seq<nat>, j: nat)
    requires j <= |l| && (forall i :: j <= i < |l| ==> l[i] < |w| && w[l[i]] == 0)
    ensures Waiting(l, w) == Waiting(l[..j], w)
    decreases |l|
  {
    if j < |l| {
      var n := |l| - 1;
      LastLeft(l[..n], w, j);
      assert l[..n][..j] == l[..j];
    } else {
      assert l[..j] == l;
    }
  }

  // ----- the process that sets it off ----------------------------------------------------------

  /** What has happened to the bucket when the k-th process has set off the wakeup of the swapper. */
  ghost predicate Tripped(t: Tab, off: set<nat>, load: seq<bool>, chan: nat, swapper: nat, k: nat, tb: Tab) {
    && Placed(t, off) && Placed(tb, off) && t.runout && !tb.runout && |load| == NPROC && swapper != 0 && chan != 0
    && Tripper(t, load, chan, k)
    && Woken(t, load, chan, swapper, t.slp[Hash(chan)][..k + 1], tb) && Kept(t, tb)
  }

  /** The step, from what setrun() promises of it. */
  lemma {:induction false} TripStep(t: Tab, off: set<nat>, load: seq<bool>, chan: nat, swapper: nat, t1: Tab, k: nat, done: seq<nat>, t2: Tab)
    requires Placed(t, off) && Walked(t, load, chan, swapper, t1, k, done) && Quiet(t, load, chan, k) && k < |t.slp[Hash(chan)]|
    requires t.wchan[t.slp[Hash(chan)][k]] == chan && swapper != 0 && chan != 0 && t.slp[Hash(chan)][k] < NPROC
    requires t.runout && |load| == NPROC && !load[t.slp[Hash(chan)][k]]
    requires Placed(t1, off) && Placed(t2, off)
    requires var tc := Unslept(t1, Hash(chan), done, t.slp[Hash(chan)][k], t.slp[Hash(chan)][k + 1..]);
             Ran(tc, load, t.slp[Hash(chan)][k], swapper, t2) && Kept(tc, t2)
    ensures Tripped(t, off, load, chan, swapper, k, t2)
    ensures t2.slp[Hash(chan)] == Waiting(done, t2.wchan) + Waiting(t.slp[Hash(chan)][k + 1..], t2.wchan)
  {
    hide Placed, Trips;
    var h := Hash(chan);
    var l := t.slp[h];
    var x := l[k];
    var tc := Unslept(t1, h, done, x, l[k + 1..]);
    TripperHere(t, load, chan, k);
    assert l[..k + 1] == l[..k] + [x];
    WokenStep(t, load, chan, swapper, l[..k], x, t1.(slp := tc.slp), t2);
    WaitingConcat(done, l[k + 1..], t2.wchan);
    assert t2.slp[h] == Waiting(tc.slp[h], t2.wchan);
    TripKept(t, off, load, chan, swapper, t1, k, done, t2);
    assert !t2.runout by { TripRuns(t, load, chan, l[..k], t1, k); }
  }

  lemma TripRuns(t: Tab, load: seq<bool>, chan: nat, l: seq<nat>, t1: Tab, k: nat)
    requires Quiet(t, load, chan, k) && l == t.slp[Hash(chan)][..k] && Sized(t1) && (t1.runout <==> t.runout && !Trips(t, load, chan, l)) && t.runout
    ensures t1.runout
  {
  }

  lemma {:induction false} TripKept(t: Tab, off: set<nat>, load: seq<bool>, chan: nat, swapper: nat, t1: Tab, k: nat, done: seq<nat>, t2: Tab)
    requires Placed(t, off) && Walked(t, load, chan, swapper, t1, k, done) && Quiet(t, load, chan, k) && k < |t.slp[Hash(chan)]|
    requires t.slp[Hash(chan)][k] < NPROC && |load| == NPROC
    requires var tc := Unslept(t1, Hash(chan), done, t.slp[Hash(chan)][k], t.slp[Hash(chan)][k + 1..]);
             Ran(tc, load, t.slp[Hash(chan)][k], swapper, t2) && Kept(tc, t2)
    ensures Kept(t, t2)
  {
    hide Placed, Trips, Waiting, Woken, Quiet;
    var h := Hash(chan);
    var l := t.slp[h];
    var x := l[k];
    var tc := Unslept(t1, h, done, x, l[k + 1..]);
    assert forall p: nat :: p < NPROC && t2.wchan[p] != 0 ==> tc.wchan[p] != 0;
    assert t2.wchan[x] == 0;
    WalkedWaits(t, load, chan, swapper, t1, k, done);
    BucketKept(l, k, done, t1.wchan, t2.wchan);
    forall b | 0 <= b < SQSIZE && b != h ensures t2.slp[b] == Waiting(t.slp[b], t2.wchan) {
      WaitingTwice(t.slp[b], t1.wchan, t2.wchan);
    }
  }

  lemma WalkedWaits(t: Tab, load: seq<bool>, chan: nat, swapper: nat, t1: Tab, k: nat, done: seq<nat>)
    requires Walked(t, load, chan, swapper, t1, k, done)
    ensures forall p: nat :: p < NPROC && t1.wchan[p] != 0 ==> t.wchan[p] != 0
  {
  }

  lemma {:induction false} BucketKept(l: seq<nat>, k: nat, done: seq<nat>, w1: seq<nat>, w2: seq<nat>)
    requires k < |l| && done == Waiting(l[..k], w1) && |w1| == |w2| && l[k] < |w2| && w2[l[k]] == 0
    requires forall p: nat :: p < |w2| && w2[p] != 0 ==> w1[p] != 0
    ensures Waiting(done + l[k + 1..], w2) == Waiting(l, w2)
  {
    hide Waiting;
    assert l == l[..k] + [l[k]] + l[k + 1..];
    WaitingConcat(l[..k] + [l[k]], l[k + 1..], w2);
    WaitingNext(l[..k], l[k], w2);
    WaitingTwice(l[..k], w1, w2);
    WaitingConcat(done, l[k + 1..], w2);
  }

  /** Who of the bucket still waits after that. */
  lemma StillWaits(t: Tab, off: set<nat>, load: seq<bool>, chan: nat, swapper: nat, k: nat, tb: Tab, i: nat)
    requires Tripped(t, off, load, chan, swapper, k, tb) && i < |t.slp[Hash(chan)]|
    ensures var y := t.slp[Hash(chan)][i];
      && y < NPROC && t.wchan[y] != 0
      && (tb.wchan[y] == 0 <==> t.wchan[y] == swapper || (i <= k && t.wchan[y] == chan))
      && (tb.wchan[y] != 0 ==> tb.wchan[y] == t.wchan[y])
  {
    var l := t.slp[Hash(chan)];
    var y := l[i];
    BucketWaits(t, off, Hash(chan), y);
    assert l[k] in l[..k + 1] by { assert l[..k + 1][k] == l[k]; }
    assert Trips(t, load, chan, l[..k + 1]);
    assert Proper(l);
    assert y in l[..k + 1] <==> i <= k by {
      if i <= k { assert l[..k + 1][i] == y; }
    }
  }

  /** The last of the first k processes that does not wait for chan; -1 if all do. */
  function LastOther(l: seq<nat>, w: seq<nat>, chan: nat, k: nat): (j: int)
    requires k <= |l| && forall i :: 0 <= i < |l| ==> l[i] < |w|
    ensures -1 <= j < k && (j >= 0 ==> w[l[j]] != chan) && (forall i :: j < i < k ==> w[l[i]] == chan)
  {
    if k == 0 then -1 else if w[l[k - 1]] != chan then k - 1 else LastOther(l, w, chan, k - 1)
  }

  /** A quiet walk leaves behind those that do not wait for chan, as they were. */
  lemma {:induction false} LeftBehind(t: Tab, off: set<nat>, load: seq<bool>, chan: nat, swapper: nat, t1: Tab, k: nat, done: seq<nat>)
    requires Placed(t, off) && Walked(t, load, chan, swapper, t1, k, done) && Quiet(t, load, chan, k)
    ensures forall i :: 0 <= i < |t.slp[Hash(chan)]| ==> t.slp[Hash(chan)][i] < |t.wchan|
    ensures var l := t.slp[Hash(chan)];
      Last(done) == var j := LastOther(l, t.wchan, chan, k); if j < 0 then NONE else l[j]
  {
    hide Placed, Woken, Waiting;
    var l := t.slp[Hash(chan)];
    forall i | 0 <= i < |l| ensures l[i] < NPROC {
      BucketWaits(t, off, Hash(chan), l[i]);
    }
    var j := LastOther(l, t.wchan, chan, k);
    forall i | j + 1 <= i < |l[..k]| ensures l[..k][i] < NPROC && t1.wchan[l[..k][i]] == 0 {
      LeftWaits(t, off, load, chan, swapper, t1, k, done, i);
    }
    LastLeft(l[..k], t1.wchan, j + 1);
    assert l[..k][..j + 1] == l[..j + 1];
    if j >= 0 {
      LeftWaits(t, off, load, chan, swapper, t1, k, done, j);
      assert l[..j + 1] == l[..j] + [l[j]];
      WaitingNext(l[..j], l[j], t1.wchan);
    } else {
      assert l[..j + 1] == [];
      NoneWait(t1.wchan);
    }
  }

  lemma NoneWait(w: seq<nat>)
    ensures Waiting([], w) == []
  {
  }

  lemma LeftWaits(t: Tab, off: set<nat>, load: seq<bool>, chan: nat, swapper: nat, t1: Tab, k: nat, done: seq<nat>, i: nat)
    requires Placed(t, off) && Walked(t, load, chan, swapper, t1, k, done) && Quiet(t, load, chan, k) && i < k
    ensures var y := t.slp[Hash(chan)][i];
      y < NPROC && t.wchan[y] != 0 && t1.wchan[y] == if t.wchan[y] == chan then 0 else t.wchan[y]
  {
    hide Placed, Waiting;
    var l := t.slp[Hash(chan)];
    assert l[..k][i] in l[..k] && l[..k][i] == l[i];
    BucketWaits(t, off, Hash(chan), l[i]);
  }

  /** Who is in done, and what it waits for. */
  lemma {:induction false} LeftIs(t: Tab, off: set<nat>, load: seq<bool>, chan: nat, swapper: nat, t1: Tab, k: nat, done: seq<nat>, y: nat)
    requires Placed(t, off) && Walked(t, load, chan, swapper, t1, k, done) && Quiet(t, load, chan, k) && y in done
    ensures y < NPROC && t.wchan[y] != chan && exists i :: 0 <= i < k && t.slp[Hash(chan)][i] == y
  {
    hide Placed;
    var l := t.slp[Hash(chan)];
    WaitingOf(l[..k], t1.wchan, y);
    var i :| 0 <= i < k && l[..k][i] == y;
    assert l[i] == y;
    BucketWaits(t, off, Hash(chan), y);
  }

  /** The verdict, when the process at k has set it off and the table is tb. */
  lemma {:induction false} Judge(t: Tab, off: set<nat>, load: seq<bool>, chan: nat, swapper: nat, t1: Tab, k: nat, done: seq<nat>, tb: Tab)
    requires Tripped(t, off, load, chan, swapper, k, tb)
    requires Walked(t, load, chan, swapper, t1, k, done) && Quiet(t, load, chan, k)
    ensures var l := t.slp[Hash(chan)];
      Clash(t, load, chan, swapper) <==>
        && chan != swapper && k + 1 < |l| && l[k + 1] < NPROC
        && if tb.wchan[l[k + 1]] == 0 then exists m :: k + 1 < m < |l| && WaitsFor(t, l[m], chan)
           else done != [] && Last(done) < NPROC && tb.wchan[Last(done)] == 0 && t.wchan[l[k + 1]] == chan
  {
    hide Placed, Woken, Kept, Walked, Quiet, Tripper;
    TrippedFacts(t, off, load, chan, swapper, k, tb);
    var l := t.slp[Hash(chan)];
    ClashAt(t, load, chan, swapper, k);
    LeftBehind(t, off, load, chan, swapper, t1, k, done);
    if k + 1 < |l| {
      StillWaits(t, off, load, chan, swapper, k, tb, k + 1);
      var j := LastOther(l, t.wchan, chan, k);
      if j >= 0 {
        StillWaits(t, off, load, chan, swapper, k, tb, j);
      }
      if CutsThrough(t, chan, swapper, k) && chan != swapper {
        var j' :| 0 <= j' < k && WaitsFor(t, l[j'], swapper) && (forall i :: j' < i < k ==> WaitsFor(t, l[i], chan));
        assert j' == j;
      }
    }
  }

  lemma TrippedFacts(t: Tab, off: set<nat>, load: seq<bool>, chan: nat, swapper: nat, k: nat, tb: Tab)
    requires Tripped(t, off, load, chan, swapper, k, tb)
    ensures Sized(t) && Sized(tb) && |load| == NPROC && t.runout && Tripper(t, load, chan, k) && k < |t.slp[Hash(chan)]|
  {
  }

  // ----- the rest of the walk ------------------------------------------------------------------

  /** Everybody in a bucket is waiting. */
  lemma BucketStands(tb: Tab, off: set<nat>, b: nat)
    requires Placed(tb, off) && b < SQSIZE
    ensures tb.slp[b] == Waiting(tb.slp[b], tb.wchan) && forall x :: x in tb.slp[b] ==> x < NPROC && tb.wchan[x] != 0
  {
    hide Waiting, Proper;
    forall x | x in tb.slp[b] ensures x < NPROC && tb.wchan[x] != 0 {
      BucketWaits(tb, off, b, x);
    }
    AllWaiting(tb.slp[b], tb.wchan);
  }

  /** Nobody of done waits for chan, so passing them wakes nobody. */
  lemma PassedBy(tb: Tab, load: seq<bool>, chan: nat, swapper: nat, done: seq<nat>)
    requires Sized(tb) && |load| == NPROC && !tb.runout && forall y :: y in done && y < NPROC ==> tb.wchan[y] != chan
    ensures Woken(tb, load, chan, swapper, done, tb) && !Trips(tb, load, chan, done)
  {
  }

  /** The outer walk goes on from where it stood: those it left behind still wait, and not for chan. */
  lemma {:induction false} WalkFrom(tb: Tab, off: set<nat>, load: seq<bool>, chan: nat, swapper: nat, done: seq<nat>, rest: seq<nat>)
    requires Placed(tb, off) && |load| == NPROC && !tb.runout && tb.slp[Hash(chan)] == done + rest
    requires forall y :: y in done && y < NPROC ==> tb.wchan[y] != chan
    ensures Walked(tb, load, chan, swapper, tb, |done|, done) && Quiet(tb, load, chan, |done|)
  {
    assert Sized(tb);
    hide Placed, Waiting, Hash, Woken, Trips;
    var l := tb.slp[Hash(chan)];
    forall b: nat | b < SQSIZE ensures tb.slp[b] == Waiting(tb.slp[b], tb.wchan) {
      BucketStands(tb, off, b);
    }
    assert l[..|done|] == done && l[|done|..] == rest;
    BucketStands(tb, off, Hash(chan));
    assert forall x :: x in done ==> x in l;
    AllWaiting(done, tb.wchan);
    PassedBy(tb, load, chan, swapper, done);
  }

  /** Two walks that meet in tb make one. */
  lemma {:induction false} WholeWalk(t: Tab, off: set<nat>, load: seq<bool>, chan: nat, swapper: nat, k: nat, tb: Tab, t1: Tab)
    requires Tripped(t, off, load, chan, swapper, k, tb)
    requires Woken(tb, load, chan, swapper, tb.slp[Hash(chan)], t1) && Kept(tb, t1)
    ensures Woken(t, load, chan, swapper, t.slp[Hash(chan)], t1) && Kept(t, t1)
  {
    hide Waiting;
    TrippedFacts(t, off, load, chan, swapper, k, tb);
    KeptTrans(t, tb, t1);
    var l := t.slp[Hash(chan)];
    TripsAll(t, load, chan, k);
    forall p: nat | p < NPROC
      ensures if (p in l && t.wchan[p] == chan) || t.wchan[p] == swapper then t1.stat[p] == Runnable && t1.wchan[p] == 0
              else t1.stat[p] == t.stat[p] && t1.wchan[p] == t.wchan[p]
    {
      if tb.wchan[p] == chan {
        InBucket(tb, off, p);
      }
      if t.wchan[p] == chan {
        InBucket(t, off, p);
      }
    }
  }

  lemma TripsAll(t: Tab, load: seq<bool>, chan: nat, k: nat)
    requires Sized(t) && |load| == NPROC && t.runout && Tripper(t, load, chan, k)
    ensures Trips(t, load, chan, t.slp[Hash(chan)][..k + 1]) && Trips(t, load, chan, t.slp[Hash(chan)])
  {
    var l := t.slp[Hash(chan)];
    assert l[..k + 1][k] == l[k];
    assert l[k] in l[..k + 1] && l[k] in l;
  }

  /** The outer walk has been led away along the run queue: it is right if nobody is left. */
  lemma {:induction false} LedAway(t: Tab, off: set<nat>, load: seq<bool>, chan: nat, swapper: nat, k: nat, tb: Tab)
    requires Tripped(t, off, load, chan, swapper, k, tb)
    requires chan == swapper || forall m :: k < m < |t.slp[Hash(chan)]| ==> !WaitsFor(t, t.slp[Hash(chan)][m], chan)
    ensures Woken(t, load, chan, swapper, t.slp[Hash(chan)], tb)
  {
    var l := t.slp[Hash(chan)];
    TripsAll(t, load, chan, k);
    if chan != swapper {
      forall p | p in l && p < NPROC && t.wchan[p] == chan ensures p in l[..k + 1] {
        var m :| 0 <= m < |l| && l[m] == p;
        assert WaitsFor(t, l[m], chan);
        assert l[..k + 1][m] == p;
      }
    }
  }

  /** And wrong if somebody is. */
  lemma {:induction false} LeftAsleep(t: Tab, off: set<nat>, load: seq<bool>, chan: nat, swapper: nat, k: nat, tb: Tab, m: nat, mem: Mem)
    requires Tripped(t, off, load, chan, swapper, k, tb) && chan != swapper
    requires k < m < |t.slp[Hash(chan)]| && WaitsFor(t, t.slp[Hash(chan)][m], chan) && mem.wchan == tb.wchan
    ensures !Right(t, load, chan, swapper, off, mem)
  {
    var l := t.slp[Hash(chan)];
    StillWaits(t, off, load, chan, swapper, k, tb, m);
    assert l[m] in l;
    forall run: seq<nat>, slp: seq<seq<nat>> ensures !Holds(t, load, chan, swapper, off, mem, run, slp) {
      NotWoken(t, load, chan, swapper, l, Tab(mem.stat, mem.wchan, run, slp, mem.runout), l[m]);
    }
  }

  lemma NotWoken(t: Tab, load: seq<bool>, chan: nat, swapper: nat, l: seq<nat>, t': Tab, p: nat)
    requires Sized(t) && p in l && p < NPROC && t.wchan[p] == chan && |t'.wchan| == NPROC && t'.wchan[p] != 0
    ensures !Woken(t, load, chan, swapper, l, t')
  {
  }

  // ----- after a cut through a process that is on the run queue --------------------------------

  /** Following the links from start leads over front to c. */
  ghost predicate Path(link: seq<int>, start: int, front: seq<nat>, c: nat) {
    && start == First(front + [c])
    && (forall i :: 0 <= i < |front| ==> front[i] < |link| && link[front[i]] == (front + [c])[i + 1])
  }

  lemma {:induction false} PathIn(link: seq<int>, start: int, front: seq<nat>, c: nat, l: seq<nat>)
    requires Path(link, start, front, c) && Chain(link, start, l)
    ensures c in l
    decreases |front|
  {
    if front == [] {
      assert l[0] == c;
    } else {
      assert l[0] == front[0];
      ChainTail(link, start, l);
      assert (front + [c])[1..] == front[1..] + [c];
      PathIn(link, link[l[0]], front[1..], c, l[1..]);
    }
  }

  lemma PathFrame(link: seq<int>, start: int, front: seq<nat>, c: nat, p: nat, v: int)
    requires Path(link, start, front, c) && p !in front && p < |link|
    ensures Path(link[p := v], start, front, c)
  {
  }

  /** The bucket h still leads to c, which is on the run queue; and the run queue runs on into the part
      of the bucket the walk has not come to. */
  ghost predicate Torn(m: Mem, h: nat, front: seq<nat>, c: nat, head: seq<nat>, kept: seq<nat>, todo: seq<nat>, p: int, q: int) {
    && |m.link| == |m.stat| == |m.wchan| == NPROC && |m.slpque| == SQSIZE && h < SQSIZE && !m.runout
    && Chain(m.link, m.runq, head + kept + todo) && Proper(head + kept + todo)
    && kept != [] && p == First(todo) && q == Last(kept)
    && Path(m.link, m.slpque[h], front, c) && c < NPROC && m.wchan[c] == 0
    && (forall x :: x in front ==> x !in kept && x !in todo)
    && (forall x :: x in todo ==> x < NPROC && m.stat[x] == Sleeping)
  }

  lemma {:induction false} TornWrong(t: Tab, load: seq<bool>, chan: nat, swapper: nat, off: set<nat>, m: Mem,
                                     front: seq<nat>, c: nat, head: seq<nat>, kept: seq<nat>, todo: seq<nat>, p: int, q: int)
    requires Torn(m, Hash(chan), front, c, head, kept, todo, p, q)
    ensures !Right(t, load, chan, swapper, off, m)
  {
    forall run: seq<nat>, slp: seq<seq<nat>> ensures !Holds(t, load, chan, swapper, off, m, run, slp) {
      if Linked(m.link, m.slpque, m.runq, run, slp) && Placed(Tab(m.stat, m.wchan, run, slp, m.runout), off) {
        PathIn(m.link, m.slpque[Hash(chan)], front, c, slp[Hash(chan)]);
        BucketWaits(Tab(m.stat, m.wchan, run, slp, m.runout), off, Hash(chan), c);
        assert false;
      }
    }
  }

  /** The walk passes a process that does not wait for chan. */
  lemma TornSkip(m: Mem, h: nat, front: seq<nat>, c: nat, head: seq<nat>, kept: seq<nat>, todo: seq<nat>, p: int, q: int)
    requires Torn(m, h, front, c, head, kept, todo, p, q) && todo != []
    ensures 0 <= p < NPROC && Torn(m, h, front, c, head, kept + [p], todo[1..], m.link[p], p)
  {
    TornNext(m.link, m.runq, head, kept, todo);
    assert head + kept + todo == head + (kept + [todo[0]]) + todo[1..];
    assert todo[0] in todo;
    forall y | y in todo[1..] ensures y in todo {
    }
    forall x | x in front ensures x !in kept + [todo[0]] && x !in todo[1..] {
    }
  }

  lemma TornNext(link: seq<int>, runq: int, head: seq<nat>, kept: seq<nat>, todo: seq<nat>)
    requires Chain(link, runq, head + kept + todo) && todo != []
    ensures todo[0] < |link| && link[todo[0]] == First(todo[1..])
  {
    var n := |head + kept|;
    assert (head + kept + todo)[n] == todo[0] && (head + kept + todo)[n + 1..] == todo[1..];
  }

  /** The walk cuts one that does and puts it on the run queue. */
  lemma {:induction false} TornCut(m: Mem, h: nat, front: seq<nat>, c: nat, head: seq<nat>, kept: seq<nat>, todo: seq<nat>, p: int, q: int)
    requires Torn(m, h, front, c, head, kept, todo, p, q) && todo != []
    ensures 0 <= p < NPROC && 0 <= q < NPROC && m.stat[p] == Sleeping
    ensures var m1 := m.(link := m.link[q := m.link[p]], wchan := m.wchan[p := 0]);
      && Chain(m1.link, m1.runq, head + kept + todo[1..]) && Proper(head + kept + todo[1..]) && p !in head + kept + todo[1..]
      && Torn(m1.(link := m1.link[p := m1.runq], runq := p, stat := m1.stat[p := Runnable]), h, front, c, [p] + head, kept, todo[1..], m.link[p], q)
  {
    hide Chain, Proper, Path;
    assert p == todo[0] && p in todo && q in kept;
    TornChain(m.link, m.runq, head, kept, todo);
    PathFrame(m.link, m.slpque[h], front, c, q, m.link[p]);
    PathFrame(m.link[q := m.link[p]], m.slpque[h], front, c, p, m.runq);
    forall y | y in todo[1..] ensures y in todo && y != p {
      assert y in head + kept + todo[1..];
    }
  }

  lemma {:induction false} TornChain(link: seq<int>, runq: int, head: seq<nat>, kept: seq<nat>, todo: seq<nat>)
    requires Chain(link, runq, head + kept + todo) && Proper(head + kept + todo) && kept != [] && todo != [] && |link| == NPROC
    ensures var x, q, d := todo[0], kept[|kept| - 1], head + kept + todo[1..];
      && x < NPROC && q < NPROC && link[x] == First(todo[1..])
      && Chain(link[q := link[x]], runq, d) && Proper(d) && x !in d
      && Chain(link[q := link[x]][x := runq], x, [x] + head + kept + todo[1..]) && Proper([x] + head + kept + todo[1..])
  {
    hide Chain, Proper;
    var x, d := todo[0], head + kept;
    var rest := todo[1..];
    var q := kept[|kept| - 1];
    TornNext(link, runq, head, kept, todo);
    assert d + todo == d + [x] + rest;
    assert d[|d| - 1] == q;
    assert q < NPROC by { ProperAt(d + todo, |d| - 1); }
    CutProper(d, x, rest);
    assert NoDup(d + [x] + rest) by { ProperAt(d + [x] + rest, 0); }
    ChainCut(link, runq, d, x, rest);
    ChainPush(link[q := First(rest)], runq, d + rest, x);
    ProperPush(x, d + rest);
    assert [x] + (d + rest) == [x] + head + kept + rest;
  }

  lemma ProperAt(l: seq<nat>, i: nat)
    requires Proper(l) && i < |l|
    ensures l[i] < NPROC && NoDup(l)
  {
  }

  lemma ProperPush(x: nat, l: seq<nat>)
    requires Proper(l) && x !in l && x < NPROC
    ensures Proper([x] + l)
  {
  }

  /** Writing the run queue's link at y to lead into the bucket. */
  lemma {:induction false} ChainSplice(link: seq<int>, runq: int, a: seq<nat>, y: nat, b: seq<nat>, todo: seq<nat>)
    requires Chain(link, runq, a + [y] + b) && NoDup(a + [y] + b) && y < |link| && y !in todo
    requires forall i :: 0 <= i < |todo| ==> todo[i] < |link| && link[todo[i]] == First(todo[i + 1..])
    ensures Chain(link[y := First(todo)], runq, a + [y] + todo)
  {
    var l, m, n := a + [y] + b, a + [y] + todo, |a|;
    var k := link[y := First(todo)];
    assert l[n] == y;
    forall i | 0 <= i < |m| ensures m[i] < |k| && k[m[i]] == First(m[i + 1..]) {
      if i < n {
        assert m[i] == l[i] && l[i] != l[n];
        assert m[i + 1] == l[i + 1];
      } else if i == n {
        assert m[i + 1..] == todo;
      } else {
        assert m[i] == todo[i - n - 1] && m[i + 1..] == todo[i - n..];
      }
    }
  }

  lemma TailLinks(link: seq<int>, head: int, front: seq<nat>, c: nat, todo: seq<nat>)
    requires Chain(link, head, front + [c] + todo)
    ensures forall i :: 0 <= i < |todo| ==> todo[i] < |link| && link[todo[i]] == First(todo[i + 1..])
    ensures c < |link| && link[c] == First(todo) && Path(link, head, front, c)
  {
    var l, n := front + [c] + todo, |front|;
    assert l[n] == c && l[n + 1..] == todo;
    forall i | 0 <= i < |todo| ensures todo[i] < |link| && link[todo[i]] == First(todo[i + 1..]) {
      assert l[n + 1 + i] == todo[i] && l[n + 2 + i..] == todo[i + 1..];
    }
    forall i | 0 <= i < |front| ensures front[i] < |link| && link[front[i]] == (front + [c])[i + 1] {
      assert l[i] == front[i] && l[i + 1] == (front + [c])[i + 1];
    }
  }

  /** The cut that tears the queues: c is unlinked through y, which is on the run queue. */
  lemma {:induction false} Tear(tb: Tab, off: set<nat>, m: Mem, h: nat, front: seq<nat>, c: nat, todo: seq<nat>, y: nat)
    requires Placed(tb, off) && Linked(m.link, m.slpque, m.runq, tb.run, tb.slp) && !m.runout && m.stat == tb.stat && m.wchan == tb.wchan
    requires h < SQSIZE && tb.slp[h] == front + [c] + todo && y in tb.run
    ensures c < NPROC && y < NPROC && tb.stat[c] == Sleeping
    ensures exists a: seq<nat> :: TearOk(m, h, front, c, todo, y, a)
  {
    hide Placed, Chain, Proper, Path;
    PlacedProper(tb, off, h);
    var j :| 0 <= j < |tb.run| && tb.run[j] == y;
    var a, b := tb.run[..j], tb.run[j + 1..];
    assert tb.run == a + [y] + b;
    forall x | x in front + [c] + todo ensures x < NPROC && x !in tb.run && tb.stat[x] == Sleeping {
      BucketWaits(tb, off, h, x);
    }
    assert c in front + [c] + todo;
    ProperAt(tb.run, j);
    JoinProper(a, y, b, front, c, todo);
    TailLinks(m.link, m.slpque[h], front, c, todo);
    ChainSplice(m.link, m.runq, a, y, b, todo);
    TearLinks(m, h, front, c, todo, y, a);
    assert TearOk(m, h, front, c, todo, y, a);
  }

  lemma {:induction false} TearLinks(m: Mem, h: nat, front: seq<nat>, c: nat, todo: seq<nat>, y: nat, a: seq<nat>)
    requires |m.link| == |m.stat| == |m.wchan| == NPROC && |m.slpque| == SQSIZE && h < SQSIZE && !m.runout
    requires c < NPROC && y < NPROC && c != y && m.link[c] == First(todo) && Path(m.link, m.slpque[h], front, c)
    requires Chain(m.link[y := First(todo)], m.runq, a + [y] + todo) && Proper(a + [y] + todo) && c !in a + [y] + todo
    requires c !in front && y !in front && (forall x :: x in front ==> x !in todo && x !in [y])
    requires forall x :: x in todo ==> x < NPROC && m.stat[x] == Sleeping
    ensures TearOk(m, h, front, c, todo, y, a)
  {
    hide Chain, Proper, Path;
    var link1, d := m.link[y := First(todo)], a + [y] + todo;
    ChainPush(link1, m.runq, d, c);
    ProperPush(c, d);
    assert [c] + d == [c] + a + [y] + todo;
    PathFrame(m.link, m.slpque[h], front, c, y, First(todo));
    PathFrame(link1, m.slpque[h], front, c, c, m.runq);
    assert forall x :: x in todo ==> x in d;
  }

  /** What the tear leaves, with a the part of the run queue before y. */
  ghost predicate TearOk(m: Mem, h: nat, front: seq<nat>, c: nat, todo: seq<nat>, y: nat, a: seq<nat>) {
    && c < |m.link| && y < |m.link| && c < |m.wchan| && c < |m.stat|
    && Chain(m.link[y := m.link[c]], m.runq, a + [y] + todo) && Proper(a + [y] + todo) && c !in a + [y] + todo
    && var m1 := m.(link := m.link[y := m.link[c]], wchan := m.wchan[c := 0]);
    && Torn(m1.(link := m1.link[c := m1.runq], runq := c, stat := m1.stat[c := Runnable]), h, front, c, [c] + a, [y], todo, m.link[c], y)
  }

  lemma PlacedProper(tb: Tab, off: set<nat>, h: nat)
    requires Placed(tb, off) && h < SQSIZE
    ensures Sized(tb) && Proper(tb.run) && Proper(tb.slp[h])
  {
  }

  lemma ProperParts(x: seq<nat>, y: seq<nat>)
    requires Proper(x + y)
    ensures Proper(x) && Proper(y) && forall u :: u in x ==> u !in y
  {
    var z := x + y;
    assert forall i :: 0 <= i < |x| ==> z[i] == x[i];
    assert forall i :: 0 <= i < |y| ==> z[|x| + i] == y[i];
  }

  lemma ProperJoin(x: seq<nat>, y: seq<nat>)
    requires Proper(x) && Proper(y) && forall u :: u in x ==> u !in y
    ensures Proper(x + y)
  {
    var z := x + y;
    forall i, j | 0 <= i < j < |z| ensures z[i] != z[j] {
      assert i < |x| ==> z[i] in x;
      assert j >= |x| ==> z[j] in y;
    }
  }

  lemma {:induction false} JoinProper(a: seq<nat>, y: nat, b: seq<nat>, front: seq<nat>, c: nat, todo: seq<nat>)
    requires Proper(a + [y] + b) && Proper(front + [c] + todo) && forall x :: x in front + [c] + todo ==> x !in a + [y] + b
    ensures Proper(a + [y] + todo) && c !in a + [y] + todo && c !in front && y !in front && y !in todo && c != y
    ensures forall x :: x in front ==> x !in todo && x !in [y]
  {
    hide Proper;
    ProperParts(a + [y], b);
    ProperParts(front + [c], todo);
    ProperParts(front, [c]);
    assert c in [c] && c in front + [c] && y in a + [y];
    assert forall x :: x in front ==> x in front + [c];
    assert forall x :: x in front + [c] || x in todo ==> x in front + [c] + todo;
    assert forall x :: x in a + [y] ==> x in a + [y] + b;
    ProperJoin(a + [y], todo);
  }
}
