/** sleep(), wakeup(), setrq(), setrun() and what swtch(), psignal(), stop(), newproc() and exit() do
    to the queues, on the linked lists themselves. */
module RunQueue {
  import opened Chains
  import opened Sched
  import opened WakeupClash
  import opened WakeupWalk

  class Queues {
    const runoutChan: nat
    const runinChan: nat
    var stat: seq<Stat>
    var wchan: seq<nat>
    var load: seq<bool>
    var pri: seq<int>
    var link: seq<int>
    var slpque: seq<int>
    var runq: int
    var runout: bool
    var runin: bool
    var runrun: bool
    var curpri: int
    ghost var run: seq<nat>
    ghost var slp: seq<seq<nat>>

    ghost function Table(): Tab
      reads this
    {
      Tab(stat, wchan, run, slp, runout)
    }

    ghost predicate Valid(off: set<nat>)
      reads this
    {
      && |load| == |pri| == |link| == NPROC && |slpque| == SQSIZE && Sized(Table()) && runoutChan != 0 && runinChan != 0
      && Linked(link, slpque, runq, run, slp) && Placed(Table(), off)
    }

    ghost function Memory(): Mem
      reads this
    {
      Mem(stat, wchan, link, slpque, runq, runout)
    }

    /** No process, and nobody on any queue. */
    constructor (runoutChan: nat, runinChan: nat)
      requires runoutChan != 0 && runinChan != 0
      ensures Valid({}) && this.runoutChan == runoutChan && this.runinChan == runinChan
      ensures stat == seq(NPROC, _ => Null) && load == seq(NPROC, _ => false) && run == [] && !runout && !runin
      ensures forall b :: 0 <= b < SQSIZE ==> slp[b] == []
    {
      this.runoutChan := runoutChan;
      this.runinChan := runinChan;
      stat := seq(NPROC, _ => Null);
      wchan := seq(NPROC, _ => 0);
      load := seq(NPROC, _ => false);
      pri := seq(NPROC, _ => 0);
      link := seq(NPROC, _ => NONE);
      slpque := seq(SQSIZE, _ => NONE);
      runq := NONE;
      runout, runin, runrun := false, false, false;
      curpri := 0;
      run := [];
      slp := seq(SQSIZE, _ => []);
      new;
      forall p: nat | p < NPROC ensures At(Table(), {}, p) {
      }
    }

    /** A process begins to run without having been on the run queue, as the first ones do. */
    method Admit(p: nat, inCore: bool)
      requires Valid({}) && p < NPROC && stat[p] == Null
      modifies this`stat, this`load
      ensures Valid({p}) && stat == old(stat)[p := Runnable] && load == old(load)[p := inCore]
    {
      hide Chain, Placed, Linked;
      PlacedOff(Table(), {}, p);
      assert {} + {p} == {p};
      PlacedStat(Table(), {p}, p, Runnable);
      stat := stat[p := Runnable];
      load := load[p := inCore];
    }

    /** sched() says that it waits for somebody to swap in. */
    method WantSomebody(ghost off: set<nat>)
      requires Valid(off)
      modifies this`runout
      ensures Valid(off) && runout
    {
      hide Chain, Placed, Linked;
      PlacedRunout(Table(), off, true);
      runout := true;
    }

    /** setrq: p goes to the head of the run queue, unless it is on it already: then the "proc on q"
        diagnostic appears and nothing changes. */
    method SetRq(p: nat) returns (diag: bool)
      requires |link| == NPROC && Chain(link, runq, run) && Proper(run) && p < NPROC
      modifies this`link, this`runq, this`run
      ensures diag <==> p in old(run)
      ensures diag ==> link == old(link) && runq == old(runq) && run == old(run)
      ensures !diag ==> link == old(link)[p := old(runq)] && runq == p && run == [p] + old(run)
    {
      var q := runq;
      ghost var k := 0;
      assert run[0..] == run;
      while q != NONE
        invariant 0 <= k <= |run| && q == First(run[k..]) && p !in run[..k]
        decreases |run| - k
        modifies {}
      {
        assert run[k..][0] == run[k] && run[..k + 1] == run[..k] + [run[k]];
        if q == p {
          return true;
        }
        q := link[q];
        k := k + 1;
      }
      assert run[..k] == run;
      link := link[p := runq];
      runq := p;
      run := [p] + run;
      diag := false;
    }

    /** setrq of a process that is on no queue: the diagnostic does not appear. */
    method Queue(p: nat, ghost off: set<nat>) returns (diag: bool)
      requires Valid(off) && p in off && p < NPROC && stat[p] == Runnable
      modifies this`link, this`runq, this`run
      ensures Valid(off - {p}) && run == [p] + old(run) && !diag
    {
      hide Chain, Placed, Linked;
      Loose(Memory(), run, slp, off, p);
      PlacedPush(Table(), off, p);
      NotQueued(Table(), off, p);
      LinkedPush(link, slpque, runq, Table(), p);
      diag := SetRq(p);
    }

    /** wakeup(chan): exactly the sleepers on chan become runnable, and the swapper if it is due, and the
        queues stay in order, if and only if the queues do not clash.  The diagnostic never appears. */
    method Wakeup(chan: nat, ghost off: set<nat>) returns (diag: bool)
      requires Valid(off) && chan != 0
      modifies this`wchan, this`stat, this`link, this`slpque, this`runq, this`run, this`slp, this`runout, this`runrun
      ensures Right(old(Table()), load, chan, runoutChan, off, Memory()) <==> !Clash(old(Table()), load, chan, runoutChan)
      ensures !Clash(old(Table()), load, chan, runoutChan) ==>
        && Valid(off) && Kept(old(Table()), Table())
        && Woken(old(Table()), load, chan, runoutChan, old(slp)[Hash(chan)], Table())
      ensures |stat| == NPROC && (runout ==> old(runout)) && !diag
      decreases if runout then 1 else 0, 2
    {
      hide Chain, Placed, Linked, Woken, Ran, Kept, Clash, Right, WalkOk, CutOk, CutIs, RunDone, Pushed, Left, Stage, Hash, Proper;
      var i := Hash(chan);
      ghost var a := Call(Table(), off, load, chan, runoutChan);
      ghost var w := Begin(a, Memory());
      var p, q := slpque[i], NONE;
      diag := false;
      LeftOver(a, w, Memory(), run, slp, p, q);
      while p != NONE
        invariant WalkOk(a, w, Memory(), run, slp, p, q) && a.load == load && (runout ==> old(runout)) && |load| == |pri| == |stat| == NPROC
        invariant Sized(a.t) && (w.Calm? || w.Stale? ==> Sized(w.tb)) && Left(a, w, run) >= 0 && !diag
        decreases Stage(w), Left(a, w, run)
      {
        Here(a, w, Memory(), run, slp, p, q);
        if wchan[p] == chan && stat[p] != Zombie {
          var again;
          p, w, again := TakeOff(i, p, q, a, w);
          diag := diag || again;
        } else {
          w := Skip(a, w, Memory(), run, slp, p, q);
          q := p;
          p := link[p];
        }
        LeftOver(a, w, Memory(), run, slp, p, q);
      }
      Verdict(a, w, Memory(), run, slp, q);
      if !Clash(a.t, load, chan, runoutChan) {
        Sizes(link, slpque, runq, Table(), off);
      }
    }

    /** The step of the walk at a process p that waits for chan: p leaves the bucket and is made runnable. */
    method TakeOff(i: nat, p: nat, q: int, ghost a: Call, ghost w: Walk) returns (sp: int, ghost w': Walk, diag: bool)
      requires WalkOk(a, w, Memory(), run, slp, p, q) && a.load == load && a.swapper == runoutChan && i == Hash(a.chan) && runinChan != 0 && runoutChan != 0
      requires |link| == |stat| == |wchan| == |pri| == |load| == NPROC && |slpque| == SQSIZE && p < NPROC && -1 <= q < NPROC
      requires wchan[p] == a.chan && !w.Away?
      modifies this`wchan, this`stat, this`link, this`slpque, this`runq, this`run, this`slp, this`runout, this`runrun
      ensures WalkOk(a, w', Memory(), run, slp, sp, q) && (runout ==> old(runout)) && !diag
      ensures Less(a, w', run, w, old(run))
      decreases if runout then 1 else 0, 1
    {
      hide Chain, Placed, Linked, Woken, Ran, Kept, WalkOk, CutOk, CutIs, RunDone, Pushed, Less, Hash, Proper;
      ghost var m, run0, slp0 := Memory(), run, slp;
      ghost var run1, slp1, x := Cut(a, w, m, run, slp, p, q);
      sp := link[p];
      Unlink(i, p, q);
      run, slp := run1, slp1;
      ghost var m1 := Memory();
      Handed(a, w, m1, run, slp, p);
      if w.Plain? || w.Calm? {
        Sizes(link, slpque, runq, Table(), a.off + {p});
        assert Valid(a.off + {p});
      }
      diag := SetRun(p, a.off + {p});
      Handled(a, w, m1, run1, slp1, p, Memory(), run, slp);
      w' := CutDone(a, w, m, run0, slp0, p, q, run1, slp1, x, Memory(), run, slp);
    }

    /** Takes p out of bucket i, where it follows q. */
    method Unlink(i: nat, p: nat, q: int)
      requires p < |link| && p < |wchan| && i < |slpque| && -1 <= q < |link|
      modifies this`link, this`slpque, this`wchan
      ensures Memory() == CutMem(old(Memory()), i, p, q)
    {
      if q == NONE {
        slpque := slpque[i := link[p]];
      } else {
        link := link[q := link[p]];
      }
      wchan := wchan[p := 0];
    }

    /** setrun(p). A process that waits is woken, with all who wait with it; any other goes on the run queue,
        and the swapper is woken if it waits for somebody to swap in. */
    method SetRun(p: nat, ghost off: set<nat>) returns (diag: bool)
      requires |stat| == |wchan| == |load| == |pri| == |link| == NPROC && p < NPROC && stat[p] != Null && stat[p] != Zombie
      requires wchan[p] == 0 ==> Chain(link, runq, run) && Proper(run) && p !in run
      requires wchan[p] != 0 || runout ==> Valid(off) && (wchan[p] == 0 ==> p in off)
      modifies this`wchan, this`stat, this`link, this`slpque, this`runq, this`run, this`slp, this`runout, this`runrun
      ensures old(wchan[p]) == 0 && !old(runout) ==> Pushed(old(Memory()), old(run), old(slp), p, Memory(), run, slp)
      ensures old(wchan[p]) == 0 && old(Valid(off)) && p in off ==>
        Valid(off - {p}) && Kept(old(Table()), Table()) && Ran(old(Table()), load, p, runoutChan, Table())
      ensures old(wchan[p]) != 0 ==>
        (Right(old(Table()), load, old(wchan[p]), runoutChan, off, Memory()) <==> !Clash(old(Table()), load, old(wchan[p]), runoutChan))
      ensures old(wchan[p]) != 0 && !Clash(old(Table()), load, old(wchan[p]), runoutChan) ==>
        && Valid(off) && Kept(old(Table()), Table())
        && Woken(old(Table()), load, old(wchan[p]), runoutChan, old(slp)[Hash(old(wchan[p]))], Table())
      ensures (runout ==> old(runout)) && !diag
      decreases if runout then 1 else 0, if wchan[p] != 0 then 3 else 0
    {
      hide Chain, Placed, Linked, Clash, Right, Woken, Ran, Kept, Hash, Proper;
      var c := wchan[p];
      if c != 0 {
        diag := Wakeup(c, off);
        return;
      }
      ghost var m, t := Memory(), Table();
      stat := stat[p := Runnable];
      diag := SetRq(p);
      if pri[p] < curpri {
        runrun := true;
      }
      if runout && !load[p] {
        var again := SwapperDue(p, m, t, off);
        diag := diag || again;
      } else if Fine(m, t.run, t.slp, off) && p in off {
        PushedFine(m, t.run, t.slp, off, p, Memory(), run, slp);
        RanPlain(t, off, load, p, runoutChan, Table());
      }
    }

    /** The end of setrun when the process is not in core and the swapper waits for one. */
    method SwapperDue(p: nat, ghost m: Mem, ghost t: Tab, ghost off: set<nat>) returns (diag: bool)
      requires p < NPROC && p in off && runout && |load| == |pri| == NPROC && !load[p] && runoutChan != 0 && runinChan != 0
      requires Fine(m, t.run, t.slp, off) && t == WakeupWalk.Table(m, t.run, t.slp)
      requires Pushed(m, t.run, t.slp, p, Memory(), run, slp)
      modifies this`wchan, this`stat, this`link, this`slpque, this`runq, this`run, this`slp, this`runout, this`runrun
      ensures Valid(off - {p}) && Kept(t, Table()) && !runout && Ran(t, load, p, runoutChan, Table()) && !diag
      decreases 0, 3
    {
      hide Chain, Placed, Linked, Clash, Right, Woken, Ran, Kept, Hash, Proper;
      ghost var t1 := Table();
      PushedFine(m, t.run, t.slp, off, p, Memory(), run, slp);
      PlacedRunout(t1, off - {p}, false);
      runout := false;
      NoRunout(Table(), load, runoutChan, runoutChan);
      Sizes(link, slpque, runq, Table(), off - {p});
      diag := Wakeup(runoutChan, off - {p});
      RanOut(t, off, load, p, runoutChan, t1, Table());
    }

    /** sleep(chan, newpri) up to the switch, in the process cur; sig says whether issig() finds a
        signal.  False: the sleep is abandoned, and nothing has changed but the priority. */
    method Sleep(cur: nat, chan: nat, newpri: int, sig: bool) returns (slept: bool)
      requires Valid({cur}) && cur < NPROC && stat[cur] == Runnable && chan != 0
      modifies this
      ensures load == old(load) && pri == old(pri)[cur := newpri]
      ensures slept <==> !(newpri > PZERO && sig)
      ensures !slept ==> Valid({cur}) && Table() == old(Table())
      ensures slept && !(newpri > PZERO && old(runin)) ==> Valid({}) && Table() == Slept(old(Table()), cur, chan)
      ensures slept && newpri > PZERO && old(runin) ==>
        var t := Slept(old(Table()), cur, chan);
        && (Right(t, load, runinChan, runoutChan, {}, Memory()) <==> !Clash(t, load, runinChan, runoutChan))
        && (!Clash(t, load, runinChan, runoutChan) ==> Valid({}) && Woken(t, load, runinChan, runoutChan, t.slp[Hash(runinChan)], Table()))
    {
      hide Chain, Placed, Linked, Clash, Right, Woken, Kept, Slept;
      GoToSleep(cur, chan, newpri);
      slept := true;
      if newpri > PZERO {
        if sig {
          AbandonSleep(cur, chan, old(Table()));
          return false;
        }
        if runin {
          runin := false;
          var diag := Wakeup(runinChan, {});
        }
      }
    }

    /** The first half of sleep: cur goes to the head of its bucket. */
    method GoToSleep(cur: nat, chan: nat, newpri: int)
      requires Valid({cur}) && cur < NPROC && chan != 0
      modifies this`stat, this`wchan, this`pri, this`link, this`slpque, this`slp
      ensures Valid({}) && Table() == Slept(old(Table()), cur, chan) && pri == old(pri)[cur := newpri]
      ensures slpque[Hash(chan)] == cur
      ensures Linked(link, slpque[Hash(chan) := link[cur]], runq, run, old(slp))
    {
      hide Chain, Placed, Linked, Hash;
      ghost var t := Table();
      NotQueued(t, {cur}, cur);
      PlacedSleep(t, {cur}, cur, chan);
      LinkedSleep(link, slpque, runq, t, cur, Hash(chan));
      LinkedBack(link, slpque, runq, t, cur, Hash(chan));
      stat := stat[cur := Sleeping];
      wchan := wchan[cur := chan];
      pri := pri[cur := newpri];
      var h := Hash(chan);
      link := link[cur := slpque[h]];
      slpque := slpque[h := cur];
      slp := slp[h := [cur] + slp[h]];
      assert {cur} - {cur} == {};
    }

    /** A signal is pending: cur, still at the head of its bucket, is taken off again. */
    method AbandonSleep(cur: nat, chan: nat, ghost t: Tab)
      requires Valid({}) && cur < NPROC && Sized(t) && Placed(t, {cur}) && t.stat[cur] == Runnable && Table() == Slept(t, cur, chan)
      requires Linked(link, slpque[Hash(chan) := link[cur]], runq, run, t.slp)
      modifies this`stat, this`wchan, this`slpque, this`slp
      ensures Valid({cur}) && Table() == t
    {
      hide Chain, Placed, Linked, Hash;
      NotQueued(t, {cur}, cur);
      wchan := wchan[cur := 0];
      stat := stat[cur := Runnable];
      slpque := slpque[Hash(chan) := link[cur]];
      slp := t.slp;
      assert stat == t.stat && wchan == t.wchan;
    }

    /** swtch's search: the process to run, taken off the run queue; NONE when there is none. */
    method Dispatch() returns (pp: int)
      requires Valid({})
      modifies this`link, this`runq, this`run, this`curpri, this`runrun
      ensures pp == NONE ==> Valid({}) && Table() == old(Table())
      ensures pp == NONE ==> forall p :: p in run && p < NPROC ==> !load[p] || pri[p] >= 128
      ensures pp != NONE ==> 0 <= pp < NPROC && Valid({pp}) && stat[pp] == Runnable && load[pp] && curpri == pri[pp]
      ensures pp != NONE ==>
        exists j :: 0 <= j < |old(run)| && old(run)[j] == pp && run == old(run)[..j] + old(run)[j + 1..]
      ensures pp != NONE ==> forall p :: p in run && p < NPROC && load[p] ==> pri[pp] <= pri[p]
    {
      hide Chain, Placed, Linked, Hash;
      runrun := false;
      var pq, n;
      ghost var j;
      pp, pq, n, j := Best();
      if pp == NONE {
        return;
      }
      Dequeue(link, slpque, runq, Table(), j);
      if pq == NONE {
        runq := link[pp];
      } else {
        link := link[pq := link[pp]];
      }
      run := run[..j] + run[j + 1..];
      curpri := n;
    }

    /** The walk of swtch: the first process of the best priority that is in core, and the one before it. */
    method Best() returns (pp: int, pq: int, n: int, ghost j: nat)
      requires Valid({})
      ensures pp == NONE ==> n == 128
      ensures pp != NONE ==> j < |run| && pp == run[j] && pp < NPROC && load[pp] && n == pri[pp] < 128
      ensures pp != NONE ==> stat[pp] == Runnable && pq == if j == 0 then NONE else run[j - 1]
      ensures forall i :: 0 <= i < |run| ==> run[i] < NPROC && (load[run[i]] ==> n <= pri[run[i]])
      ensures pp != NONE ==> forall i :: 0 <= i < j && load[run[i]] ==> n < pri[run[i]]
    {
      hide Chain, Placed, Linked, Hash;
      var q := NONE;
      var p := runq;
      ghost var k := 0;
      ghost var t := Table();
      pp, pq, n, j := NONE, NONE, 128, 0;
      RunAt(link, slpque, runq, t, 0);
      while p != NONE
        invariant k <= |run| && p == First(run[k..]) && q == (if k == 0 then NONE else run[k - 1])
        invariant forall i :: 0 <= i < k ==> run[i] < NPROC && (load[run[i]] ==> n <= pri[run[i]])
        invariant pp == NONE ==> n == 128
        invariant pp != NONE ==> j < k && pp == run[j] && stat[pp] == Runnable && load[pp] && n == pri[pp] < 128
        invariant pp != NONE ==> pq == if j == 0 then NONE else run[j - 1]
        invariant pp != NONE ==> forall i :: 0 <= i < j && load[run[i]] ==> n < pri[run[i]]
        decreases |run| - k
      {
        RunAt(link, slpque, runq, t, k);
        InRun(t, {}, k);
        if stat[p] == Runnable && load[p] {
          if pri[p] < n {
            pp, pq, n := p, q, pri[p];
            j := k;
          }
        }
        q := p;
        p := link[p];
        k := k + 1;
      }
    }

    /** qswtch: the current process goes to the run queue. */
    method QSwitch(cur: nat) returns (diag: bool)
      requires Valid({cur}) && cur < NPROC && stat[cur] == Runnable
      modifies this`link, this`runq, this`run
      ensures Valid({}) && !diag && run == [cur] + old(run)
    {
      hide Placed, Linked;
      diag := Queue(cur, {cur});
      assert {cur} - {cur} == {};
    }

    /** newproc: the slot c becomes a runnable process on the run queue. */
    method Enqueue(c: nat, cur: nat) returns (diag: bool)
      requires Valid({cur}) && c < NPROC && stat[c] == Null && c != cur
      modifies this`stat, this`link, this`runq, this`run
      ensures Valid({cur}) && !diag && run == [c] + old(run) && stat == old(stat)[c := Runnable]
    {
      hide Placed, Linked;
      PlacedOff(Table(), {cur}, c);
      PlacedStat(Table(), {cur} + {c}, c, Runnable);
      stat := stat[c := Runnable];
      diag := Queue(c, {cur} + {c});
      assert {cur} + {c} - {c} == {cur};
    }

    /** psignal as far as the queues go: an interruptible sleeper, and all who sleep with it, wake. */
    method PSignal(p: nat, cur: nat)
      requires Valid({cur}) && cur < NPROC && stat[cur] == Runnable
      requires p < NPROC
      modifies this
      ensures load == old(load)
      ensures var newpri := if old(pri[p]) > PUSER then PUSER else old(pri[p]);
              && pri == old(pri)[p := newpri]
              && if old(stat[p]) == Sleeping && newpri > PZERO then
                   var t, c := old(Table()), old(wchan[p]);
                   && (Right(t, load, c, runoutChan, {cur}, Memory()) <==> !Clash(t, load, c, runoutChan))
                   && (!Clash(t, load, c, runoutChan) ==> Valid({cur}) && Woken(t, load, c, runoutChan, t.slp[Hash(c)], Table()))
                 else Valid({cur}) && Table() == old(Table())
    {
      hide Placed, Linked, Clash, Right, Woken, Kept, Hash;
      if pri[p] > PUSER {
        pri := pri[p := PUSER];
      }
      if stat[p] == Sleeping && pri[p] > PZERO {
        SleeperWaits(Table(), {cur}, p);
        var diag := SetRun(p, {cur});
      }
    }

    /** stop: the parent is woken, and the current process is on no queue until setrun. */
    method Stop(cur: nat, parent: nat) returns (ghost woken: Tab)
      requires Valid({cur}) && cur < NPROC && parent != 0
      modifies this
      ensures |stat| == |woken.stat| == NPROC && load == old(load)
      ensures Table() == woken.(stat := stat) && stat == woken.stat[cur := Stopped]
      ensures Right(old(Table()), load, parent, runoutChan, {cur}, Memory().(stat := woken.stat)) <==> !Clash(old(Table()), load, parent, runoutChan)
      ensures !Clash(old(Table()), load, parent, runoutChan) ==>
        Valid({}) && Woken(old(Table()), load, parent, runoutChan, old(slp)[Hash(parent)], woken)
    {
      hide Placed, Linked, Clash, Right, Woken, Kept, Hash;
      var diag := Wakeup(parent, {cur});
      woken := Table();
      if Valid({cur}) {
        PlacedStat(Table(), {cur}, cur, Stopped);
        PlacedOff(Table().(stat := stat[cur := Stopped]), {cur}, cur);
        assert {cur} - {cur} == {};
      }
      stat := stat[cur := Stopped];
    }

    /** setrun of a stopped process, by exit() or ptrace(). */
    method Continue(p: nat, cur: nat)
      requires Valid({cur}) && p < NPROC && p != cur && stat[p] == Stopped
      modifies this
      ensures Valid({cur}) && load == old(load) && Ran(old(Table()), load, p, runoutChan, Table())
    {
      hide Placed, Linked, Clash, Right, Woken, Kept, Ran, Hash;
      PlacedOff(Table(), {cur}, p);
      StoppedWaits(Table(), {cur} + {p}, p);
      Loose(Memory(), run, slp, {cur} + {p}, p);
      var diag := SetRun(p, {cur} + {p});
      assert {cur} + {p} - {p} == {cur};
    }

    /** The end of exit: the process is a zombie, and on no queue. */
    method Die(cur: nat)
      requires Valid({cur}) && cur < NPROC
      modifies this`stat
      ensures Valid({}) && stat == old(stat)[cur := Zombie]
    {
      hide Placed, Linked;
      PlacedStat(Table(), {cur}, cur, Zombie);
      stat := stat[cur := Zombie];
      PlacedOff(Table(), {cur}, cur);
      assert {cur} - {cur} == {};
    }
  }

  /** The table with cur asleep on chan. */
  function Slept(t: Tab, cur: nat, chan: nat): Tab
    requires Sized(t) && cur < NPROC
  {
    var h := Hash(chan);
    t.(stat := t.stat[cur := Sleeping], wchan := t.wchan[cur := chan], slp := t.slp[h := [cur] + t.slp[h]])
  }

  /** Taking the sleeper off again gives back the lists. */
  lemma {:induction false} LinkedBack(link: seq<int>, slpque: seq<int>, runq: int, t: Tab, p: nat, h: nat)
    requires Linked(link, slpque, runq, t.run, t.slp) && p < NPROC && h < SQSIZE && p !in t.run && forall b :: 0 <= b < SQSIZE ==> p !in t.slp[b]
    ensures Linked(link[p := slpque[h]], slpque[h := p][h := slpque[h]], runq, t.run, t.slp)
  {
    hide Chain;
    assert slpque[h := p][h := slpque[h]] == slpque;
    ChainFrame(link, runq, t.run, p, slpque[h]);
    forall b | 0 <= b < SQSIZE ensures Chain(link[p := slpque[h]], slpque[b], t.slp[b]) {
      ChainFrame(link, slpque[b], t.slp[b], p, slpque[h]);
    }
  }

  lemma InRun(t: Tab, off: set<nat>, k: nat)
    requires Placed(t, off) && k < |t.run|
    ensures t.run[k] < NPROC && t.run[k] !in off && t.stat[t.run[k]] == Runnable
  {
    assert Proper(t.run);
    assert t.run[k] in t.run;
    assert At(t, off, t.run[k]);
  }

  /** Unlinking the j-th process of the run queue. */
  lemma {:induction false} Dequeue(link: seq<int>, slpque: seq<int>, runq: int, t: Tab, j: nat)
    requires Linked(link, slpque, runq, t.run, t.slp) && Placed(t, {}) && j < |t.run|
    ensures var p, run' := t.run[j], t.run[..j] + t.run[j + 1..];
            && p < NPROC && Placed(t.(run := run'), {p})
            && (j == 0 ==> Linked(link, slpque, link[p], run', t.slp))
            && (j > 0 ==> t.run[j - 1] < NPROC && Linked(link[t.run[j - 1] := link[p]], slpque, runq, run', t.slp))
  {
    hide Chain;
    var p, a, b := t.run[j], t.run[..j], t.run[j + 1..];
    assert t.run == a + [p] + b;
    InRun(t, {}, j);
    RunAt(link, slpque, runq, t, j);
    FirstIs(t.run, j);
    PlacedDequeue(t, a, p, b);
    if j > 0 {
      InRun(t, {}, j - 1);
      RunOnly(t, {}, t.run[j - 1]);
      ChainCut(link, runq, a, p, b);
      forall c | 0 <= c < SQSIZE ensures Chain(link[t.run[j - 1] := First(b)], slpque[c], t.slp[c]) {
        ChainFrame(link, slpque[c], t.slp[c], t.run[j - 1], First(b));
      }
    } else {
      assert a + b == b;
      ChainCut(link, runq, a, p, b);
    }
  }

  lemma FirstIs(l: seq<nat>, j: nat)
    requires j < |l|
    ensures First(l[j..]) == l[j]
  {
    assert l[j..][0] == l[j];
  }

  lemma RunOnly(t: Tab, off: set<nat>, p: nat)
    requires Placed(t, off) && p in t.run && p < NPROC
    ensures forall b :: 0 <= b < SQSIZE ==> p !in t.slp[b]
  {
    assert At(t, off, p);
  }

  lemma {:induction false} PlacedDequeue(t: Tab, a: seq<nat>, p: nat, b: seq<nat>)
    requires Placed(t, {}) && t.run == a + [p] + b && p < NPROC
    ensures Placed(t.(run := a + b), {p})
  {
    var t' := t.(run := a + b);
    CutProper(a, p, b);
    assert t.run[|a|] == p;
    assert At(t, {}, p);
    forall q: nat | q < NPROC ensures At(t', {p}, q) {
      assert At(t, {}, q);
    }
  }

  lemma SleeperWaits(t: Tab, off: set<nat>, p: nat)
    requires Placed(t, off) && p < NPROC && t.stat[p] == Sleeping
    ensures t.wchan[p] != 0 || p in off
  {
    assert At(t, off, p);
  }

  lemma StoppedWaits(t: Tab, off: set<nat>, p: nat)
    requires Placed(t, off) && p < NPROC && p in off
    ensures t.wchan[p] == 0
  {
    assert At(t, off, p);
  }

  /** A process is on one queue at most: the run queue, or the bucket of the channel it waits for. */
  lemma {:induction false} OnOneQueue(t: Tab, off: set<nat>, p: nat)
    requires Placed(t, off) && p < NPROC
    ensures p in t.run ==> t.stat[p] == Runnable && forall b :: 0 <= b < SQSIZE ==> p !in t.slp[b]
    ensures forall b :: 0 <= b < SQSIZE && p in t.slp[b] ==> t.stat[p] == Sleeping && b == Hash(t.wchan[p])
    ensures t.stat[p] == Runnable && p !in off ==> p in t.run
    ensures t.stat[p] == Sleeping && p !in off ==> p in t.slp[Hash(t.wchan[p])]
  {
    assert At(t, off, p);
  }

  lemma Sizes(link: seq<int>, slpque: seq<int>, runq: int, t: Tab, off: set<nat>)
    requires Linked(link, slpque, runq, t.run, t.slp) && Placed(t, off)
    ensures |link| == NPROC && |slpque| == SQSIZE && Sized(t)
  {
  }

  lemma {:induction false} RanPlain(t: Tab, off: set<nat>, load: seq<bool>, p: nat, swapper: nat, t1: Tab)
    requires Placed(t, off) && p in off && p < NPROC && |load| == NPROC && !(t.runout && !load[p])
    requires t1 == t.(stat := t.stat[p := Runnable], run := [p] + t.run)
    ensures Ran(t, load, p, swapper, t1) && Kept(t, t1)
  {
    assert At(t, off, p);
    forall b: nat | b < SQSIZE ensures t1.slp[b] == Waiting(t.slp[b], t1.wchan) {
      forall x | x in t.slp[b] ensures x < NPROC && t.wchan[x] != 0 {
        BucketWaits(t, off, b, x);
      }
      AllWaiting(t.slp[b], t.wchan);
    }
  }

  lemma {:induction false} RanOut(t: Tab, off: set<nat>, load: seq<bool>, p: nat, swapper: nat, t1: Tab, t2: Tab)
    requires Placed(t, off) && p in off && p < NPROC && |load| == NPROC && t.runout && !load[p] && swapper != 0
    requires t1 == t.(stat := t.stat[p := Runnable], run := [p] + t.run)
    requires Woken(t1.(runout := false), load, swapper, swapper, t1.slp[Hash(swapper)], t2) && Kept(t1.(runout := false), t2)
    ensures Ran(t, load, p, swapper, t2) && Kept(t, t2)
  {
    assert At(t, off, p);
    forall q: nat | q < NPROC && t.wchan[q] == swapper ensures q in t.slp[Hash(swapper)] {
      InBucket(t, off, q);
    }
  }

  // ----- queues that clash ---------------------------------------------------------------------

  const RUNOUT: nat := 0x20
  const RUNIN: nat := 0x40

  /** A channel of the same bucket as runout. */
  const CHAN: nat := 0x820

  /** A process runs and goes to sleep. */
  method RunAndSleep(q: Queues, p: nat, inCore: bool, chan: nat)
    requires q.Valid({}) && p < NPROC && q.stat[p] == Null && chan != 0
    modifies q
    ensures q.Valid({}) && q.load == old(q.load)[p := inCore] && q.runout == old(q.runout)
    ensures q.stat == old(q.stat)[p := Sleeping] && q.wchan == old(q.wchan)[p := chan]
    ensures q.slp == old(q.slp)[Hash(chan) := [p] + old(q.slp)[Hash(chan)]]
  {
    hide Chain, Placed, Linked, Hash;
    q.Admit(p, inCore);
    q.GoToSleep(p, chan, 0);
  }

  /** Process 2 waits for CHAN and is not in core, process 0 waits on runout behind it, and process 1 waits
      for CHAN behind that: wakeup(CHAN) leaves process 1 asleep. */
  method LosesOne() returns (q: Queues, ghost t: Tab)
    ensures Sized(t) && t.slp[Hash(CHAN)] == [2, 0, 1] && LosesRest(t, CHAN, RUNOUT, 0) && Placed(t, {})
    ensures !Right(t, q.load, CHAN, RUNOUT, {}, q.Memory())
  {
    hide Placed, Linked, Right, Kept, Woken;
    q := new Queues(RUNOUT, RUNIN);
    RunAndSleep(q, 1, true, CHAN);
    RunAndSleep(q, 0, true, RUNOUT);
    RunAndSleep(q, 2, false, CHAN);
    q.WantSomebody({});
    t := q.Table();
    assert Hash(CHAN) == Hash(RUNOUT) == 1;
    assert Tripper(t, q.load, CHAN, 0);
    assert t.slp[1] == [2, 0, 1] && WaitsFor(t, t.slp[1][2], CHAN);
    assert Clash(t, q.load, CHAN, RUNOUT);
    var diag := q.Wakeup(CHAN, {});
  }

  /** Process 0 waits on runout, process 2 behind it waits for CHAN and is not in core, and process 1 behind
      that waits for CHAN: after wakeup(CHAN) the links make no queues that fit the states. */
  method TearsQueues() returns (q: Queues, ghost t: Tab)
    ensures Sized(t) && t.slp[Hash(CHAN)] == [0, 2, 1] && CutsThrough(t, CHAN, RUNOUT, 1) && Placed(t, {})
    ensures !Right(t, q.load, CHAN, RUNOUT, {}, q.Memory())
  {
    hide Placed, Linked, Right, Kept, Woken;
    q := new Queues(RUNOUT, RUNIN);
    RunAndSleep(q, 1, true, CHAN);
    RunAndSleep(q, 2, false, CHAN);
    RunAndSleep(q, 0, true, RUNOUT);
    q.WantSomebody({});
    t := q.Table();
    assert Hash(CHAN) == Hash(RUNOUT) == 1;
    assert t.slp[1] == [0, 2, 1] && WaitsFor(t, t.slp[1][0], RUNOUT);
    assert Tripper(t, q.load, CHAN, 1);
    assert Clash(t, q.load, CHAN, RUNOUT);
    var diag := q.Wakeup(CHAN, {});
  }
}
