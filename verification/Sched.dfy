/** The run queue and the sleep queues, which share one link field (kernel/slp.c). */
module Sched {
  import opened Common
  import opened Chains

  const NPROC: nat := 150
  const SQSIZE: nat := 64
  const PZERO: int := 25
  const PUSER: int := 50

  datatype Stat = Null | Sleeping | Runnable | Idle | Zombie | Stopped

  /** HASH(chan): the sleep bucket of a channel. */
  function Hash(chan: nat): (h: nat)
    ensures h < SQSIZE
  {
    chan / 32 % SQSIZE
  }

  /** What the queues hold: the states and channels of the processes, the run queue and the sleep
      queues as lists, and runout. */
  datatype Tab = Tab(stat: seq<Stat>, wchan: seq<nat>, run: seq<nat>, slp: seq<seq<nat>>, runout: bool)

  predicate Sized(t: Tab) {
    |t.stat| == |t.wchan| == NPROC && |t.slp| == SQSIZE
  }

  // ----- where every process is ----------------------------------------------------------------

  /** The links are the lists. */
  ghost predicate Linked(link: seq<int>, slpque: seq<int>, runq: int, run: seq<nat>, slp: seq<seq<nat>>) {
    && |slp| == |slpque| == SQSIZE && |link| == NPROC && Chain(link, runq, run)
    && forall b :: 0 <= b < SQSIZE ==> Chain(link, slpque[b], slp[b])
  }

  /** p is on the run queue exactly when it is runnable, and on a sleep queue exactly when it waits
      for a channel of that bucket. */
  ghost predicate Home(t: Tab, p: nat)
    requires Sized(t) && p < NPROC
  {
    && (p in t.run <==> t.stat[p] == Runnable) && (t.stat[p] == Sleeping <==> t.wchan[p] != 0)
    && forall b :: 0 <= b < SQSIZE ==> (p in t.slp[b] <==> t.wchan[p] != 0 && Hash(t.wchan[p]) == b)
  }

  /** p is on no queue, and waits for nothing. */
  ghost predicate Off(t: Tab, p: nat)
    requires Sized(t) && p < NPROC
  {
    p !in t.run && t.wchan[p] == 0 && forall b :: 0 <= b < SQSIZE ==> p !in t.slp[b]
  }

  ghost predicate Proper(l: seq<nat>) {
    NoDup(l) && forall i :: 0 <= i < |l| ==> l[i] < NPROC
  }

  ghost predicate At(t: Tab, off: set<nat>, p: nat)
    requires Sized(t) && p < NPROC
  {
    if p in off then Off(t, p) else Home(t, p)
  }

  /** Every process but those in off is where its state says, and those in off are on no queue. */
  ghost predicate Placed(t: Tab, off: set<nat>) {
    && Sized(t) && Proper(t.run) && (forall b :: 0 <= b < SQSIZE ==> Proper(t.slp[b]))
    && forall p: nat :: p < NPROC ==> At(t, off, p)
  }

  // ----- the parts of a step -------------------------------------------------------------------

  /** A runnable process that was on no queue goes to the head of the run queue. */
  lemma {:induction false} PlacedPush(t: Tab, off: set<nat>, p: nat)
    requires Placed(t, off) && p in off && p < NPROC && t.stat[p] == Runnable
    ensures Placed(t.(run := [p] + t.run), off - {p})
  {
    var t' := t.(run := [p] + t.run);
    assert At(t, off, p);
    forall q: nat | q < NPROC ensures At(t', off - {p}, q) {
      assert At(t, off, q);
    }
  }

  lemma {:induction false} LinkedPush(link: seq<int>, slpque: seq<int>, runq: int, t: Tab, p: nat)
    requires Linked(link, slpque, runq, t.run, t.slp) && p < NPROC && p !in t.run && forall b :: 0 <= b < SQSIZE ==> p !in t.slp[b]
    ensures Linked(link[p := runq], slpque, p, [p] + t.run, t.slp)
  {
    hide Chain;
    ChainPush(link, runq, t.run, p);
    forall b | 0 <= b < SQSIZE ensures Chain(link[p := runq], slpque[b], t.slp[b]) {
      ChainFrame(link, slpque[b], t.slp[b], p, runq);
    }
  }

  /** A sleeper goes to the head of its bucket. */
  lemma {:induction false} PlacedSleep(t: Tab, off: set<nat>, p: nat, chan: nat)
    requires Placed(t, off) && p in off && p < NPROC && chan != 0
    ensures var h := Hash(chan);
            Placed(t.(stat := t.stat[p := Sleeping], wchan := t.wchan[p := chan], slp := t.slp[h := [p] + t.slp[h]]), off - {p})
  {
    var h := Hash(chan);
    var t' := t.(stat := t.stat[p := Sleeping], wchan := t.wchan[p := chan], slp := t.slp[h := [p] + t.slp[h]]);
    assert At(t, off, p);
    assert Proper(t.slp[h]);
    forall q: nat | q < NPROC ensures At(t', off - {p}, q) {
      assert At(t, off, q);
      assert q in t'.slp[h] <==> q == p || q in t.slp[h];
    }
  }

  lemma {:induction false} LinkedSleep(link: seq<int>, slpque: seq<int>, runq: int, t: Tab, p: nat, h: nat)
    requires Linked(link, slpque, runq, t.run, t.slp) && p < NPROC && h < SQSIZE && p !in t.run && forall b :: 0 <= b < SQSIZE ==> p !in t.slp[b]
    ensures Linked(link[p := slpque[h]], slpque[h := p], runq, t.run, t.slp[h := [p] + t.slp[h]])
  {
    hide Chain;
    ChainPush(link, slpque[h], t.slp[h], p);
    ChainFrame(link, runq, t.run, p, slpque[h]);
    forall b | 0 <= b < SQSIZE && b != h ensures Chain(link[p := slpque[h]], slpque[b], t.slp[b]) {
      ChainFrame(link, slpque[b], t.slp[b], p, slpque[h]);
    }
  }

  lemma PlacedRunout(t: Tab, off: set<nat>, b: bool)
    requires Placed(t, off)
    ensures Placed(t.(runout := b), off)
  {
    var t' := t.(runout := b);
    forall q: nat | q < NPROC ensures At(t', off, q) {
      assert At(t, off, q);
    }
  }

  /** Changing the state of a process that is on no queue and is to be on none. */
  lemma {:induction false} PlacedStat(t: Tab, off: set<nat>, p: nat, st: Stat)
    requires Placed(t, off) && p in off && p < NPROC
    ensures Placed(t.(stat := t.stat[p := st]), off)
  {
    var t' := t.(stat := t.stat[p := st]);
    forall q: nat | q < NPROC ensures At(t', off, q) {
      assert At(t, off, q);
    }
  }

  /** A process that is neither runnable nor asleep may be counted as off the queues or not. */
  lemma {:induction false} PlacedOff(t: Tab, off: set<nat>, p: nat)
    requires Placed(t, off) && p < NPROC && t.stat[p] != Runnable && t.stat[p] != Sleeping
    ensures Placed(t, off + {p}) && Placed(t, off - {p})
  {
    assert At(t, off, p);
    forall q: nat | q < NPROC ensures At(t, off + {p}, q) && At(t, off - {p}, q) {
      assert At(t, off, q);
    }
  }

  /** Taking p off its sleep queue. */
  lemma {:induction false} PlacedWake(t: Tab, off: set<nat>, p: nat, done: seq<nat>, rest: seq<nat>, h: nat)
    requires Placed(t, off) && h < SQSIZE && t.slp[h] == done + [p] + rest && p < NPROC
    ensures Placed(t.(wchan := t.wchan[p := 0], slp := t.slp[h := done + rest]), off + {p}) && p !in off
  {
    var t' := t.(wchan := t.wchan[p := 0], slp := t.slp[h := done + rest]);
    assert t.slp[h][|done|] == p && Proper(t.slp[h]);
    CutProper(done, p, rest);
    assert At(t, off, p);
    forall q: nat | q < NPROC ensures At(t', off + {p}, q) {
      assert At(t, off, q);
      assert q != p ==> (q in t'.slp[h] <==> q in t.slp[h]);
    }
  }

  lemma {:induction false} CutProper(done: seq<nat>, p: nat, rest: seq<nat>)
    requires Proper(done + [p] + rest)
    ensures Proper(done + rest) && p !in done + rest && p < NPROC
    ensures forall q :: q in done + rest <==> q in done + [p] + rest && q != p
  {
    var l, m := done + [p] + rest, done + rest;
    assert l[|done|] == p;
    forall i | 0 <= i < |m| ensures m[i] == l[if i < |done| then i else i + 1] {
    }
  }

  lemma {:induction false} LinkedCut(link: seq<int>, slpque: seq<int>, runq: int, t: Tab, p: nat, done: seq<nat>, rest: seq<nat>, h: nat)
    requires Linked(link, slpque, runq, t.run, t.slp) && h < SQSIZE && t.slp[h] == done + [p] + rest && Proper(t.slp[h])
    requires done != [] ==> done[|done| - 1] !in t.run && forall b :: 0 <= b < SQSIZE && b != h ==> done[|done| - 1] !in t.slp[b]
    ensures done == [] ==> Linked(link, slpque[h := First(rest)], runq, t.run, t.slp[h := done + rest])
    ensures done != [] ==> done[|done| - 1] < NPROC && Linked(link[done[|done| - 1] := First(rest)], slpque, runq, t.run, t.slp[h := done + rest])
  {
    hide Chain;
    var n := |done|;
    if n > 0 {
      assert t.slp[h][n - 1] == done[n - 1];
      ChainCut(link, slpque[h], done, p, rest);
      ChainFrame(link, runq, t.run, done[n - 1], First(rest));
      forall b | 0 <= b < SQSIZE && b != h ensures Chain(link[done[n - 1] := First(rest)], slpque[b], t.slp[b]) {
        ChainFrame(link, slpque[b], t.slp[b], done[n - 1], First(rest));
      }
    } else {
      assert done + rest == rest;
      ChainCut(link, slpque[h], done, p, rest);
    }
  }

  // ----- what a wakeup does --------------------------------------------------------------------

  /** Waking the sleepers on chan among l sets off a wakeup of the swapper: runout is set, and one of
      them is not in core. */
  ghost predicate Trips(t: Tab, load: seq<bool>, chan: nat, l: seq<nat>) {
    t.runout && exists p :: p in l && p < |t.wchan| && p < |load| && t.wchan[p] == chan && !load[p]
  }

  /** The part l of the queue has been dealt with: its sleepers on chan are runnable, and the swapper
      too if that was due; nobody else has changed. */
  ghost predicate Woken(t: Tab, load: seq<bool>, chan: nat, swapper: nat, l: seq<nat>, t': Tab) {
    && Sized(t) && Sized(t') && |load| == NPROC
    && (t'.runout <==> t.runout && !Trips(t, load, chan, l))
    && forall p: nat :: p < NPROC ==>
         if (p in l && t.wchan[p] == chan) || (Trips(t, load, chan, l) && t.wchan[p] == swapper) then
           t'.stat[p] == Runnable && t'.wchan[p] == 0
         else t'.stat[p] == t.stat[p] && t'.wchan[p] == t.wchan[p]
  }

  /** One process has been made runnable, and the swapper woken if that was due. */
  ghost predicate Ran(t: Tab, load: seq<bool>, p: nat, swapper: nat, t': Tab) {
    && Sized(t) && Sized(t') && |load| == NPROC && p < NPROC
    && (t'.runout <==> t.runout && load[p])
    && forall q: nat :: q < NPROC ==>
         if q == p || (t.runout && !load[p] && t.wchan[q] == swapper) then t'.stat[q] == Runnable && t'.wchan[q] == 0
         else t'.stat[q] == t.stat[q] && t'.wchan[q] == t.wchan[q]
  }

  /** The walk's next process does not wait for chan. */
  lemma WokenSkip(t: Tab, load: seq<bool>, chan: nat, swapper: nat, l: seq<nat>, x: nat, t': Tab)
    requires Woken(t, load, chan, swapper, l, t') && x < NPROC && t.wchan[x] != chan
    ensures Woken(t, load, chan, swapper, l + [x], t')
  {
    assert Trips(t, load, chan, l + [x]) == Trips(t, load, chan, l);
  }

  /** It does, and has been made runnable. */
  lemma {:induction false} WokenStep(t: Tab, load: seq<bool>, chan: nat, swapper: nat, l: seq<nat>, x: nat, t1: Tab, t2: Tab)
    requires Woken(t, load, chan, swapper, l, t1) && x < NPROC && t.wchan[x] == chan && swapper != 0
    requires Ran(t1.(wchan := t1.wchan[x := 0]), load, x, swapper, t2)
    ensures Woken(t, load, chan, swapper, l + [x], t2)
  {
    assert x in l + [x];
    assert Trips(t, load, chan, l + [x]) <==> Trips(t, load, chan, l) || (t.runout && !load[x]);
  }

  // ----- those who still wait ------------------------------------------------------------------

  /** Those of l that still wait, in the same order. */
  function Waiting(l: seq<nat>, wchan: seq<nat>): seq<nat> {
    if l == [] then []
    else
      var n := |l| - 1;
      Waiting(l[..n], wchan) + if l[n] < |wchan| && wchan[l[n]] != 0 then [l[n]] else []
  }

  lemma WaitingNext(l: seq<nat>, x: nat, wchan: seq<nat>)
    requires x < |wchan|
    ensures Waiting(l + [x], wchan) == Waiting(l, wchan) + if wchan[x] != 0 then [x] else []
  {
    assert (l + [x])[..|l|] == l;
  }

  lemma {:induction false} WaitingSame(l: seq<nat>, w: seq<nat>, w': seq<nat>)
    requires |w| == |w'| && forall x :: x in l && x < |w| ==> (w[x] != 0 <==> w'[x] != 0)
    ensures Waiting(l, w) == Waiting(l, w')
  {
    if l != [] {
      var n := |l| - 1;
      assert l[n] in l;
      WaitingSame(l[..n], w, w');
    }
  }

  lemma AllWaiting(l: seq<nat>, w: seq<nat>)
    requires forall x :: x in l ==> x < |w| && w[x] != 0
    ensures Waiting(l, w) == l
  {
    hide Waiting;
    forall i | 0 <= i < |l| ensures l[i] < |w| && w[l[i]] != 0 {
      assert l[i] in l;
    }
    EachWaiting(l, w);
  }

  lemma {:induction false} EachWaiting(l: seq<nat>, w: seq<nat>)
    requires forall i :: 0 <= i < |l| ==> l[i] < |w| && w[l[i]] != 0
    ensures Waiting(l, w) == l
  {
    if l != [] {
      EachWaiting(l[..|l| - 1], w);
    }
  }

  lemma {:induction false} WaitingTwice(l: seq<nat>, w: seq<nat>, w': seq<nat>)
    requires |w| == |w'| && forall x :: x in l && x < |w| && w'[x] != 0 ==> w[x] != 0
    ensures Waiting(Waiting(l, w), w') == Waiting(l, w')
  {
    if l != [] {
      var n := |l| - 1;
      assert l[n] in l;
      WaitingTwice(l[..n], w, w');
      if l[n] < |w| && w[l[n]] != 0 {
        assert Waiting(l, w) == Waiting(l[..n], w) + [l[n]];
        WaitingNext(Waiting(l[..n], w), l[n], w');
      } else {
        assert Waiting(l, w) == Waiting(l[..n], w);
        assert Waiting(l, w') == Waiting(l[..n], w');
      }
    }
  }

  /** The sleep queues lose those who wait no more, and keep their order. */
  ghost predicate Kept(t: Tab, t': Tab) {
    && Sized(t) && Sized(t')
    && (forall p: nat :: p < NPROC && t'.wchan[p] != 0 ==> t.wchan[p] != 0)
    && forall b :: 0 <= b < SQSIZE ==> t'.slp[b] == Waiting(t.slp[b], t'.wchan)
  }

  lemma {:induction false} KeptTrans(t: Tab, t1: Tab, t2: Tab)
    requires Kept(t, t1) && Kept(t1, t2)
    ensures Kept(t, t2)
  {
    forall b | 0 <= b < SQSIZE ensures t2.slp[b] == Waiting(t.slp[b], t2.wchan) {
      WaitingTwice(t.slp[b], t1.wchan, t2.wchan);
    }
  }

  // ----- reading the placement -----------------------------------------------------------------

  /** Who waits for chan is in its bucket. */
  lemma InBucket(t: Tab, off: set<nat>, p: nat)
    requires Placed(t, off) && p < NPROC && t.wchan[p] != 0
    ensures p in t.slp[Hash(t.wchan[p])] && p !in off && t.stat[p] == Sleeping
  {
    assert At(t, off, p);
  }

  /** Who is in a bucket waits for a channel of the bucket, and is nowhere else. */
  lemma BucketWaits(t: Tab, off: set<nat>, b: nat, p: nat)
    requires Placed(t, off) && b < SQSIZE && p in t.slp[b]
    ensures p < NPROC && p !in off && t.wchan[p] != 0 && Hash(t.wchan[p]) == b && t.stat[p] == Sleeping && p !in t.run
    ensures forall b' :: 0 <= b' < SQSIZE && b' != b ==> p !in t.slp[b']
  {
    assert Proper(t.slp[b]);
    assert At(t, off, p);
  }

  lemma NotQueued(t: Tab, off: set<nat>, p: nat)
    requires Placed(t, off) && p in off && p < NPROC
    ensures p !in t.run && t.wchan[p] == 0 && forall b :: 0 <= b < SQSIZE ==> p !in t.slp[b]
  {
    assert At(t, off, p);
  }

  /** The k-th step of a walk along the run queue. */
  lemma RunAt(link: seq<int>, slpque: seq<int>, runq: int, t: Tab, k: nat)
    requires Linked(link, slpque, runq, t.run, t.slp) && k <= |t.run|
    ensures k == 0 ==> runq == First(t.run[k..])
    ensures k < |t.run| ==> First(t.run[k..]) == t.run[k] < NPROC && link[t.run[k]] == First(t.run[k + 1..])
    ensures k == |t.run| ==> First(t.run[k..]) == NONE
  {
    assert t.run[0..] == t.run;
    assert k < |t.run| ==> t.run[k..][0] == t.run[k];
  }

  // ----- a wakeup under way --------------------------------------------------------------------

  /** wakeup(chan), begun in t, has walked k processes of its bucket and is in t1 now, with those of
      them that still wait in done. */
  ghost predicate Walked(t: Tab, load: seq<bool>, chan: nat, swapper: nat, t1: Tab, k: nat, done: seq<nat>) {
    && Sized(t) && Sized(t1)
    && var h := Hash(chan);
       var l := t.slp[h];
       && k <= |l| && t1.slp[h] == done + l[k..] && done == Waiting(l[..k], t1.wchan)
       && Woken(t, load, chan, swapper, l[..k], t1)
       && forall b :: 0 <= b < SQSIZE && b != h ==> t1.slp[b] == Waiting(t.slp[b], t1.wchan)
  }

  /** None of the first k processes of the bucket sets off a wakeup of the swapper. */
  ghost predicate Quiet(t: Tab, load: seq<bool>, chan: nat, k: nat) {
    Sized(t) && k <= |t.slp[Hash(chan)]| && !Trips(t, load, chan, t.slp[Hash(chan)][..k])
  }

  lemma {:induction false} WalkStart(t: Tab, off: set<nat>, load: seq<bool>, chan: nat, swapper: nat)
    requires Placed(t, off) && |load| == NPROC
    ensures Walked(t, load, chan, swapper, t, 0, [])
  {
    hide Proper;
    var l := t.slp[Hash(chan)];
    assert l[..0] == [] && [] + l[0..] == l;
    forall b: nat | b < SQSIZE ensures t.slp[b] == Waiting(t.slp[b], t.wchan) {
      forall x | x in t.slp[b] ensures x < NPROC && t.wchan[x] != 0 {
        BucketWaits(t, off, b, x);
      }
      AllWaiting(t.slp[b], t.wchan);
    }
  }

  /** The process the walk comes to is as it was when the walk began. */
  lemma {:induction false} WalkAhead(t: Tab, off: set<nat>, load: seq<bool>, chan: nat, swapper: nat, t1: Tab, k: nat, done: seq<nat>)
    requires Placed(t, off) && Walked(t, load, chan, swapper, t1, k, done) && Quiet(t, load, chan, k)
    requires k < |t.slp[Hash(chan)]|
    ensures var x := t.slp[Hash(chan)][k];
            && x < NPROC && t1.wchan[x] == t.wchan[x] != 0 && t1.stat[x] == t.stat[x] == Sleeping
            && t1.slp[Hash(chan)] == done + [x] + t.slp[Hash(chan)][k + 1..]
  {
    var h := Hash(chan);
    var l := t.slp[h];
    var x := l[k];
    BucketWaits(t, off, h, x);
    assert Proper(l);
    assert x !in l[..k];
    assert l[k..] == [x] + l[k + 1..];
    assert done + l[k..] == done + [x] + l[k + 1..];
  }

  lemma {:induction false} WalkSkip(t: Tab, off: set<nat>, load: seq<bool>, chan: nat, swapper: nat, t1: Tab, k: nat, done: seq<nat>)
    requires Placed(t, off) && Walked(t, load, chan, swapper, t1, k, done) && Quiet(t, load, chan, k)
    requires k < |t.slp[Hash(chan)]| && t.wchan[t.slp[Hash(chan)][k]] != chan
    ensures Walked(t, load, chan, swapper, t1, k + 1, done + [t.slp[Hash(chan)][k]])
  {
    hide Placed, Woken;
    var l := t.slp[Hash(chan)];
    WalkAhead(t, off, load, chan, swapper, t1, k, done);
    assert l[..k + 1] == l[..k] + [l[k]];
    WaitingNext(l[..k], l[k], t1.wchan);
    WokenSkip(t, load, chan, swapper, l[..k], l[k], t1);
  }

  /** The process x that the walk has come to, taken off its queue. */
  function Unslept(t: Tab, h: nat, done: seq<nat>, x: nat, rest: seq<nat>): Tab
    requires Sized(t) && x < NPROC && h < SQSIZE
  {
    t.(wchan := t.wchan[x := 0], slp := t.slp[h := done + rest])
  }

  /** Nobody in the walked bucket but x is touched when x is made runnable. */
  lemma {:induction false} BucketStays(t: Tab, off: set<nat>, load: seq<bool>, chan: nat, swapper: nat, t1: Tab, k: nat, done: seq<nat>,
                                       t2: Tab, y: nat)
    requires Placed(t, off) && Walked(t, load, chan, swapper, t1, k, done) && k < |t.slp[Hash(chan)]| && Quiet(t, load, chan, k + 1)
    requires t.wchan[t.slp[Hash(chan)][k]] == chan && swapper != 0 && t.slp[Hash(chan)][k] < NPROC
    requires Ran(Unslept(t1, Hash(chan), done, t.slp[Hash(chan)][k], t.slp[Hash(chan)][k + 1..]), load, t.slp[Hash(chan)][k], swapper, t2)
    requires y in t.slp[Hash(chan)] && y != t.slp[Hash(chan)][k]
    ensures y < NPROC && t2.wchan[y] == t1.wchan[y]
  {
    hide Proper;
    var h := Hash(chan);
    var l := t.slp[h];
    BucketWaits(t, off, h, y);
    assert l[k] in l[..k + 1];
  }

  lemma {:induction false} WalkStep(t: Tab, off: set<nat>, load: seq<bool>, chan: nat, swapper: nat, t1: Tab, k: nat, done: seq<nat>, t2: Tab)
    requires Placed(t, off) && Walked(t, load, chan, swapper, t1, k, done) && k < |t.slp[Hash(chan)]| && Quiet(t, load, chan, k + 1)
    requires t.wchan[t.slp[Hash(chan)][k]] == chan && swapper != 0 && t.slp[Hash(chan)][k] < NPROC
    requires Placed(t1, off)
    requires var tc := Unslept(t1, Hash(chan), done, t.slp[Hash(chan)][k], t.slp[Hash(chan)][k + 1..]);
             Ran(tc, load, t.slp[Hash(chan)][k], swapper, t2) && Kept(tc, t2)
    ensures Walked(t, load, chan, swapper, t2, k + 1, done)
  {
    var h := Hash(chan);
    var l := t.slp[h];
    var x := l[k];
    var tc := Unslept(t1, h, done, x, l[k + 1..]);
    assert Proper(l);
    forall y | y in l && y != x ensures y < NPROC && t2.wchan[y] == t1.wchan[y] {
      BucketStays(t, off, load, chan, swapper, t1, k, done, t2, y);
    }
    hide Placed, Trips;
    assert l[..k + 1] == l[..k] + [x];
    WaitingNext(l[..k], x, t2.wchan);
    WaitingSame(l[..k], t1.wchan, t2.wchan);
    WokenStep(t, load, chan, swapper, l[..k], x, t1.(slp := tc.slp), t2);
    forall b | 0 <= b < SQSIZE && b != h ensures t2.slp[b] == Waiting(t.slp[b], t2.wchan) {
      WaitingTwice(t.slp[b], t1.wchan, t2.wchan);
    }
    RestWaits(t, off, load, chan, swapper, t1, k, done, t2);
  }

  /** So the bucket is what was kept of it, and what is still to be walked. */
  lemma {:induction false} RestWaits(t: Tab, off: set<nat>, load: seq<bool>, chan: nat, swapper: nat, t1: Tab, k: nat, done: seq<nat>, t2: Tab)
    requires Placed(t, off) && Walked(t, load, chan, swapper, t1, k, done) && k < |t.slp[Hash(chan)]| && Quiet(t, load, chan, k + 1)
    requires t.wchan[t.slp[Hash(chan)][k]] == chan && swapper != 0 && t.slp[Hash(chan)][k] < NPROC
    requires Placed(t1, off)
    requires var tc := Unslept(t1, Hash(chan), done, t.slp[Hash(chan)][k], t.slp[Hash(chan)][k + 1..]);
             Ran(tc, load, t.slp[Hash(chan)][k], swapper, t2) && Kept(tc, t2)
    ensures t2.slp[Hash(chan)] == done + t.slp[Hash(chan)][k + 1..]
  {
    var h := Hash(chan);
    var l := t.slp[h];
    var m := done + l[k + 1..];
    WalkAhead(t, off, load, chan, swapper, t1, k, done);
    assert t1.slp[h] == done + [l[k]] + l[k + 1..];
    assert Proper(t1.slp[h]);
    CutProper(done, l[k], l[k + 1..]);
    hide Proper;
    forall y | y in m ensures y < NPROC && t2.wchan[y] != 0 {
      BucketWaits(t1, off, h, y);
      StillThere(t, load, chan, swapper, t1, k, done, y);
      BucketStays(t, off, load, chan, swapper, t1, k, done, t2, y);
    }
    AllWaiting(m, t2.wchan);
  }

  lemma {:induction false} StillThere(t: Tab, load: seq<bool>, chan: nat, swapper: nat, t1: Tab, k: nat, done: seq<nat>, y: nat)
    requires Walked(t, load, chan, swapper, t1, k, done) && y in t1.slp[Hash(chan)]
    ensures y in t.slp[Hash(chan)]
  {
    var l := t.slp[Hash(chan)];
    if y in done {
      WaitingOf(l[..k], t1.wchan, y);
    }
  }

  lemma {:induction false} WaitingOf(l: seq<nat>, w: seq<nat>, y: nat)
    ensures y in Waiting(l, w) <==> y in l && y < |w| && w[y] != 0
  {
    if l != [] {
      WaitingOf(l[..|l| - 1], w, y);
    }
  }

  lemma {:induction false} WalkEnd(t: Tab, load: seq<bool>, chan: nat, swapper: nat, t1: Tab, done: seq<nat>)
    requires Sized(t) && Walked(t, load, chan, swapper, t1, |t.slp[Hash(chan)]|, done)
    ensures Woken(t, load, chan, swapper, t.slp[Hash(chan)], t1) && Kept(t, t1) && (t1.runout ==> t.runout)
  {
    var l := t.slp[Hash(chan)];
    assert l[..|l|] == l && done + l[|l|..] == done;
  }
}
