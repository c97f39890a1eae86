/** A run from boot after which the table of the core map has no slot left to end it. */
module ProcCrowd {
  import opened Common
  import opened ResourceMap
  import opened Space
  import opened Pages
  import opened ProcMem
  import opened ProcSteps
  import opened ProcOps
  import opened ProcText
  import opened ProcRun
  import opened ProcLaws
  import opened Kernel
  import ProcLost

  function U(p: nat): UArea {
    UArea(p, 0, 0, 0, 0)
  }

  /** Every second page from 34 on, e of them. */
  function Holes(e: nat): (h: seq<Run>)
    ensures |h| == e && forall i :: 0 <= i < e ==> h[i] == Run(1, 34 + 2 * i)
  {
    if e == 0 then [] else Holes(e - 1) + [Run(1, 32 + 2 * e)]
  }

  /** Of the processes 1 to k, each with the page 32 + p, the first e with an even number have exited. */
  predicate Gone(p: nat, e: nat) {
    0 < p <= 2 * e && p % 2 == 0
  }

  predicate Slotted(q: Proc, p: nat, k: nat, e: nat) {
    if p > k then q.stat == Null && q.text == None
    else if Gone(p, e) then q.stat == Zombie && q.text == None
    else q == Proc(Runs, true, 32 + p, 1, None)
  }

  ghost predicate Crowd(s: Sys, n: nat, k: nat, e: nat, cur: nat) {
    && Good(s) && |s.procs| == NPROC && k < NPROC && 2 * e < k + 1 && k < n && cur <= k
    && (forall p: nat :: p < NPROC ==> Slotted(s.procs[p], p, k, e))
    && s.coremap == Holes(e) + [Run(n - k, 33 + k)] && s.live.procp == cur
  }

  /** The page of a process between two that stay is one free run more. */
  lemma HoleJoins(e: nat, size: nat, a: nat)
    requires size > 0 && a > 35 + 2 * e
    ensures Join(Holes(e) + [Run(size, a)], 1, 34 + 2 * e) == Holes(e + 1) + [Run(size, a)]
  {
    hide Slot, Join;
    var m := Holes(e) + [Run(size, a)];
    SlotUnique(m, 34 + 2 * e, e);
    JoinAlone(m, 1, 34 + 2 * e);
    assert m[..e] == Holes(e) && m[e..] == [Run(size, a)];
    assert Holes(e + 1) == Holes(e) + [Run(1, 34 + 2 * e)];
  }

  /** A one-page process is copied to the first free page. */
  lemma {:induction false} ForkIs(s: Sys, size: nat, a: nat, c: nat, cur: nat) returns (s': Sys)
    requires Good(s) && |s.procs| == NPROC && cur < NPROC && c < NPROC && s.live.procp == cur && s.procs[c].stat == Null
    requires s.procs[cur] == Proc(Runs, true, s.procs[cur].addr, 1, None) && s.coremap == [Run(size, a)] && size > 1
    ensures Enabled(s, Fork(c, U(cur))) && Step(s, Fork(c, U(cur))) == Some(s') && Good(s') && s'.live.procp == cur
    ensures s'.procs == s.procs[c := Proc(Runs, true, a, 1, None)] && s'.coremap == [Run(size - 1, a + 1)]
  {
    var op := Fork(c, U(cur));
    ProcLost.Take(a, size);
    hide Good, Alloc, Put, Get;
    assert Step(s, op).Some?;
    s' := Step(s, op).value;
    StepGood(s, op);
  }

  lemma SlotsForked(ps: seq<Proc>, ps': seq<Proc>, k: nat)
    requires |ps| == NPROC && k + 1 < NPROC && forall p: nat :: p < NPROC ==> Slotted(ps[p], p, k, 0)
    requires ps' == ps[k + 1 := Proc(Runs, true, 33 + k, 1, None)]
    ensures forall p: nat :: p < NPROC ==> Slotted(ps'[p], p, k + 1, 0)
  {
  }

  lemma {:induction false} Forks(s: Sys, n: nat, k: nat, cur: nat) returns (s': Sys)
    requires Crowd(s, n, k, 0, cur) && k + 1 < NPROC && k + 1 < n
    ensures Enabled(s, Fork(k + 1, U(cur))) && Step(s, Fork(k + 1, U(cur))) == Some(s') && Crowd(s', n, k + 1, 0, cur)
  {
    hide Good, Enabled, Step;
    assert Slotted(s.procs[cur], cur, k, 0) && Slotted(s.procs[k + 1], k + 1, k, 0);
    assert Holes(0) == [] && s.coremap == [Run(n - k, 33 + k)];
    s' := ForkIs(s, n - k, 33 + k, k + 1, cur);
    SlotsForked(s.procs, s'.procs, k);
  }

  lemma {:induction false} Switches(s: Sys, n: nat, k: nat, e: nat, cur: nat, q: nat) returns (s': Sys)
    requires Crowd(s, n, k, e, cur) && q <= k && !Gone(q, e)
    ensures Enabled(s, Switch(q)) && Step(s, Switch(q)) == Some(s') && Crowd(s', n, k, e, q)
  {
    assert Slotted(s.procs[cur], cur, k, e) && Slotted(s.procs[q], q, k, e);
    ResumeKeeps(s, Loaded(s), q);
    StepGood(s, Switch(q));
    hide Good, Put, Get;
    s' := Resume(s, q);
    assert s'.procs == s.procs && s'.coremap == s.coremap;
  }

  lemma {:induction false} ExitIs(s: Sys, p: nat) returns (s': Sys)
    requires Good(s) && |s.procs| == NPROC && 0 < p < NPROC && s.live.procp == p && s.procs[p] == Proc(Runs, true, s.procs[p].addr, 1, None)
    ensures Enabled(s, Exits) && Step(s, Exits) == Some(s') && Good(s') && s'.live.procp == p
    ensures s'.procs == s.procs[p := s.procs[p].(stat := Zombie)] && s'.coremap == Join(s.coremap, 1, s.procs[p].addr)
  {
    hide Good, Join;
    s' := Exit(s);
    StepGood(s, Exits);
  }

  lemma SlotsLeft(ps: seq<Proc>, ps': seq<Proc>, k: nat, e: nat)
    requires |ps| == NPROC && 2 * e + 2 <= k < NPROC && forall p: nat :: p < NPROC ==> Slotted(ps[p], p, k, e)
    requires ps' == ps[2 * e + 2 := ps[2 * e + 2].(stat := Zombie)]
    ensures forall p: nat :: p < NPROC ==> Slotted(ps'[p], p, k, e + 1)
  {
  }

  lemma {:induction false} Leaves(s: Sys, n: nat, k: nat, e: nat) returns (s': Sys)
    requires Crowd(s, n, k, e, 2 * e + 2) && 2 * e + 2 < k
    ensures Enabled(s, Exits) && Step(s, Exits) == Some(s') && Crowd(s', n, k, e + 1, 2 * e + 2)
  {
    hide Good, Enabled, Step, Join, Holes;
    assert Slotted(s.procs[2 * e + 2], 2 * e + 2, k, e);
    HoleJoins(e, n - k, 33 + k);
    s' := ExitIs(s, 2 * e + 2);
    SlotsLeft(s.procs, s'.procs, k, e);
  }

  lemma {:induction false} AfterMore(s: Sys, ops: seq<Op>, op: Op)
    requires After(s, ops).Some? && Enabled(After(s, ops).value, op)
    ensures After(s, ops + [op]) == Step(After(s, ops).value, op)
    decreases |ops|
  {
    hide Step, Enabled;
    if ops == [] {
      assert [op][1..] == [];
    } else {
      assert (ops + [op])[1..] == ops[1..] + [op];
      AfterMore(Step(s, ops[0]).value, ops[1..], op);
    }
  }

  /** Process 0 makes process 1, and that one all the others up to k. */
  lemma {:induction false} Crowded(n: nat, k: nat) returns (ops: seq<Op>, s: Sys)
    requires 1 <= k < NPROC && k < n
    ensures After(Boot(n, 0, U(0)), ops) == Some(s) && Crowd(s, n, k, 0, 1)
  {
    hide Good, Crowd, Step, Enabled, After;
    if k == 1 {
      var b := Boot(n, 0, U(0));
      Starts(n);
      NoOps(b);
      var s1 := Forks(b, n, 0, 0);
      AfterMore(b, [], Fork(1, U(0)));
      s := Switches(s1, n, 1, 0, 0, 1);
      ops := [] + [Fork(1, U(0))];
      AfterMore(b, ops, Switch(1));
      ops := ops + [Switch(1)];
    } else {
      var o, s1 := Crowded(n, k - 1);
      s := Forks(s1, n, k - 1, 1);
      AfterMore(Boot(n, 0, U(0)), o, Fork(k, U(1)));
      ops := o + [Fork(k, U(1))];
    }
  }

  lemma Starts(n: nat)
    requires n > 0
    ensures Crowd(Boot(n, 0, U(0)), n, 0, 0, 0)
  {
    BootGood(n, 0, U(0));
    hide Good;
    assert Holes(0) == [];
  }

  lemma NoOps(s: Sys)
    ensures After(s, []) == Some(s)
  {
  }

  /** Then the first e with an even number exit. */
  lemma {:induction false} Thinned(n: nat, k: nat, e: nat) returns (ops: seq<Op>, s: Sys, cur: nat)
    requires 1 <= k < NPROC && k < n && 2 * e < k
    ensures After(Boot(n, 0, U(0)), ops) == Some(s) && Crowd(s, n, k, e, cur)
  {
    hide Good, Crowd, Step, Enabled, After;
    if e == 0 {
      ops, s := Crowded(n, k);
      cur := 1;
    } else {
      var o, s1, c := Thinned(n, k, e - 1);
      cur := 2 * e;
      var s2 := Switches(s1, n, k, e - 1, c, cur);
      AfterMore(Boot(n, 0, U(0)), o, Switch(cur));
      s := Leaves(s2, n, k, e - 1);
      AfterMore(Boot(n, 0, U(0)), o + [Switch(cur)], Exits);
      ops := o + [Switch(cur)] + [Exits];
    }
  }

  /** With 400 pages of core, 99 processes of one page, every second of which exits, leave 50 free runs: the
      table of the core map is full, and nothing ends it. */
  lemma CoreMapFills() returns (ops: seq<Op>, s: Sys)
    ensures After(Boot(400, 0, U(0)), ops) == Some(s) && Good(s) && |s.coremap| == CMAPSIZ
  {
    hide Good, After, Boot;
    var cur;
    ops, s, cur := Thinned(400, 99, 49);
  }
}
