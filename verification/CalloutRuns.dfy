/** Whole runs of the callout table: every call that is armed runs exactly once, at the first tick at or
    after its deadline that does not find calls blocked (kernel/clock.c). */
module CalloutRuns {
  import opened Callouts

  /** A request, the number of ticks that had passed when it was made, whether a call of the last of those
      made it, and the tick it is due at. */
  datatype Ticket = Ticket(id: nat, armed: nat, inPass: bool, deadline: nat, func: nat, arg: int)

  /** A table together with the history that led to it: whose entry is whose, which ticks found calls
      blocked, and which requests ran at which ticks. Ticks are numbered from 1. */
  datatype Timer = Timer(table: seq<Callo>, tickets: seq<Ticket>, blocked: seq<bool>, fired: seq<Ticket>, at: seq<nat>, made: nat)

  datatype Op = Request(arm: Arm) | Tick(block: bool, script: seq<seq<Arm>>)

  const START := Timer([], [], [], [], [], 0)

  function Now(w: Timer): nat {
    |w.blocked|
  }

  function Splice(ts: seq<Ticket>, k: nat, t: Ticket): seq<Ticket>
    requires k <= |ts|
  {
    ts[..k] + [t] + ts[k..]
  }

  lemma SpliceAt(ts: seq<Ticket>, k: nat, t: Ticket, i: nat)
    requires k <= |ts| && i <= |ts|
    ensures |Splice(ts, k, t)| == |ts| + 1
    ensures Splice(ts, k, t)[i] == if i < k then ts[i] else if i == k then t else ts[i - 1]
  {
  }

  function Issue(w: Timer, arm: Arm, inPass: bool): Ticket
    requires arm.delay >= 0
  {
    Ticket(w.made, Now(w), inPass, Now(w) + arm.delay, arm.func, arm.arg)
  }

  function ArmOne(w: Timer, arm: Arm, inPass: bool): (w': Timer)
    requires |w.tickets| == |w.table| && arm.delay >= 0
    ensures |w'.tickets| == |w'.table| == |w.table| + 1
  {
    InsertSums(w.table, arm, 0);
    var k := Place(w.table, arm.delay, 0);
    w.(table := Insert(w.table, arm), tickets := Splice(w.tickets, k, Issue(w, arm, inPass)), made := w.made + 1)
  }

  function ArmMany(w: Timer, arms: seq<Arm>): (w': Timer)
    requires |w.tickets| == |w.table| && Legal(arms)
    ensures |w'.tickets| == |w'.table| == |w.table| + |arms|
    decreases |arms|
  {
    if arms == [] then w else ArmMany(ArmOne(w, arms[0], true), arms[1..])
  }

  function Passed(w: Timer, block: bool): Timer {
    w.(table := Ticked(w.table), blocked := w.blocked + [block])
  }

  /** The first call has run. */
  function Fired(w: Timer): Timer
    requires 0 < |w.tickets| == |w.table|
  {
    w.(table := w.table[1..], tickets := w.tickets[1..], fired := w.fired + [w.tickets[0]], at := w.at + [Now(w)])
  }

  /** A pass from its `k`-th call on. */
  function Passes(w: Timer, script: seq<seq<Arm>>, k: nat): (w': Timer)
    requires |w.tickets| == |w.table| && LegalScript(script)
    ensures |w'.tickets| == |w'.table|
    decreases if k < |script| then |script| - k else 0, |w.table|
  {
    ArmsLegal(script, k);
    if HeadDue(w.table) then Passes(ArmMany(Fired(w), Arms(script, k)), script, k + 1) else w
  }

  ghost predicate Fit(op: Op) {
    match op
    case Request(arm) => arm.delay >= 0 && arm.func != 0
    case Tick(_, script) => LegalScript(script)
  }

  function Step(w: Timer, op: Op): Timer
    requires |w.tickets| == |w.table| && Fit(op)
  {
    match op
    case Request(arm) => ArmOne(w, arm, false)
    case Tick(block, script) => if block then Passed(w, true) else Passes(Passed(w, false), script, 0)
  }

  ghost predicate Before(a: Ticket, b: Ticket) {
    a.deadline < b.deadline || (a.deadline == b.deadline && a.id < b.id)
  }

  /** Entry `i` belongs to ticket `i`: its times up to and including its own add up to the ticks left,
      and to none once it is due. */
  ghost predicate Even(w: Timer, i: nat)
    requires i < |w.table| == |w.tickets|
  {
    && Remaining(w.table, i) == (if w.tickets[i].deadline <= Now(w) then 0 else w.tickets[i].deadline - Now(w))
    && w.table[i].func == w.tickets[i].func && w.table[i].arg == w.tickets[i].arg
  }

  /** The table encodes the deadlines. */
  ghost predicate Tied(w: Timer) {
    && |w.tickets| == |w.table| && Nonneg(w.table)
    && (forall i :: 0 <= i < |w.table| ==> Even(w, i))
  }

  /** Earlier deadlines first, and first come first served among equals. */
  ghost predicate Ordered(w: Timer) {
    && (forall i, j :: 0 <= i < j < |w.tickets| ==> Before(w.tickets[i], w.tickets[j]))
    && (forall i :: 0 <= i < |w.tickets| ==> w.tickets[i].id < w.made)
  }

  /** A call asked for by a call of the same tick, without delay. */
  predicate AtOnce(t: Ticket) {
    t.inPass && t.deadline <= t.armed
  }

  /** No tick after the request and at or after its deadline has let calls run yet. */
  ghost predicate Waiting(blocked: seq<bool>, t: Ticket) {
    && t.armed <= |blocked| && !AtOnce(t)
    && (forall u :: t.armed <= u < |blocked| && t.deadline <= u + 1 ==> blocked[u])
  }

  /** Tick `n` is the first one that could run the call: the one that asked for it, if that was to be at once. */
  ghost predicate Exact(blocked: seq<bool>, t: Ticket, n: nat) {
    && 0 < n <= |blocked| && t.deadline <= n && !blocked[n - 1]
    && if AtOnce(t) then n == t.armed
       else t.armed < n && forall u :: t.armed <= u < n - 1 && t.deadline <= u + 1 ==> blocked[u]
  }

  ghost predicate OnTime(w: Timer) {
    && |w.at| == |w.fired|
    && (forall i :: 0 <= i < |w.tickets| ==> Waiting(w.blocked, w.tickets[i]))
    && (forall i :: 0 <= i < |w.fired| ==> Exact(w.blocked, w.fired[i], w.at[i]))
  }

  function Bag(ts: seq<Ticket>): multiset<nat> {
    if ts == [] then multiset{} else Bag(ts[..|ts| - 1]) + multiset{ts[|ts| - 1].id}
  }

  function All(n: nat): (m: multiset<nat>)
    ensures forall i: nat :: m[i] == if i < n then 1 else 0
  {
    if n == 0 then multiset{} else All(n - 1) + multiset{n - 1}
  }

  /** Every request made is either pending or done, once. */
  ghost predicate Once(w: Timer) {
    Bag(w.tickets) + Bag(w.fired) == All(w.made)
  }

  /** Calls run in the order of their ticks, and within a tick in the order of their deadlines. */
  ghost predicate InOrder(w: Timer) {
    && |w.at| == |w.fired|
    && (forall i, j :: 0 <= i < j < |w.fired| ==> w.at[i] < w.at[j] || (w.at[i] == w.at[j] && Before(w.fired[i], w.fired[j])))
  }

  ghost predicate Inv(w: Timer) {
    Tied(w) && Ordered(w) && OnTime(w) && Once(w) && InOrder(w)
  }

  lemma {:induction false} BagAdds(a: seq<Ticket>, b: seq<Ticket>)
    ensures Bag(a + b) == Bag(a) + Bag(b)
    decreases |b|
  {
    if b == [] {
      assert a + b == a;
    } else {
      assert (a + b)[..|a + b| - 1] == a + b[..|b| - 1];
      BagAdds(a, b[..|b| - 1]);
    }
  }

  lemma ArmEven(w: Timer, arm: Arm, inPass: bool, i: nat)
    requires Tied(w) && arm.delay >= 0 && i <= |w.table|
    ensures |ArmOne(w, arm, inPass).table| == |ArmOne(w, arm, inPass).tickets| == |w.table| + 1
    ensures Even(ArmOne(w, arm, inPass), i)
  {
    hide Splice, Place;
    var k := Place(w.table, arm.delay, 0);
    InsertSums(w.table, arm, i + 1);
    SpliceAt(w.tickets, k, Issue(w, arm, inPass), i);
    if i < k {
      assert Even(w, i);
    } else if i > k {
      assert Even(w, i - 1);
    }
  }

  /** A request takes its place without touching anyone else's. */
  lemma ArmTied(w: Timer, arm: Arm, inPass: bool)
    requires Tied(w) && arm.delay >= 0
    ensures Tied(ArmOne(w, arm, inPass))
  {
    hide Even, Splice, Place;
    InsertNonneg(w.table, arm);
    ArmEven(w, arm, inPass, 0);
    forall i | 0 <= i < |w.table| + 1 ensures Even(ArmOne(w, arm, inPass), i) {
      ArmEven(w, arm, inPass, i);
    }
  }

  /** Every ticket in place `i` is before the new one when `i` is before its place, and after it if not. */
  lemma Between(w: Timer, arm: Arm, inPass: bool, i: nat)
    requires Tied(w) && Ordered(w) && arm.delay >= 0 && i < |w.tickets|
    ensures i < Place(w.table, arm.delay, 0) ==> Before(w.tickets[i], Issue(w, arm, inPass))
    ensures i >= Place(w.table, arm.delay, 0) ==> Before(Issue(w, arm, inPass), w.tickets[i])
  {
    var k := Place(w.table, arm.delay, 0);
    assert Even(w, i);
    if k <= i {
      assert Even(w, k) && Remaining(w.table, k) > arm.delay;
      assert i > k ==> Before(w.tickets[k], w.tickets[i]);
    }
  }

  lemma ArmOrdered(w: Timer, arm: Arm, inPass: bool)
    requires Tied(w) && Ordered(w) && arm.delay >= 0
    ensures Ordered(ArmOne(w, arm, inPass))
  {
    hide Splice, Place, Before, Issue;
    var k, w' := Place(w.table, arm.delay, 0), ArmOne(w, arm, inPass);
    SpliceAt(w.tickets, k, Issue(w, arm, inPass), 0);
    assert Issue(w, arm, inPass).id == w.made by { IssueIs(w, arm, inPass); }
    forall i, j | 0 <= i < j < |w'.tickets| ensures Before(w'.tickets[i], w'.tickets[j]) {
      SpliceAt(w.tickets, k, Issue(w, arm, inPass), i);
      SpliceAt(w.tickets, k, Issue(w, arm, inPass), j);
      if i < k { Between(w, arm, inPass, i); }
      if j > k { Between(w, arm, inPass, j - 1); }
    }
    forall i | 0 <= i < |w'.tickets| ensures w'.tickets[i].id < w'.made {
      SpliceAt(w.tickets, k, Issue(w, arm, inPass), i);
    }
  }

  lemma IssueIs(w: Timer, arm: Arm, inPass: bool)
    requires arm.delay >= 0
    ensures Issue(w, arm, inPass).id == w.made && (!inPass ==> Waiting(w.blocked, Issue(w, arm, inPass)))
    ensures Issue(w, arm, inPass).deadline >= Now(w) == Issue(w, arm, inPass).armed && Issue(w, arm, inPass).inPass == inPass
  {
  }

  lemma BagOne(t: Ticket)
    ensures Bag([t]) == multiset{t.id}
  {
    assert [t][..0] == [];
  }

  lemma SpliceBag(ts: seq<Ticket>, k: nat, t: Ticket)
    requires k <= |ts|
    ensures Bag(Splice(ts, k, t)) == Bag(ts) + multiset{t.id}
  {
    hide Bag;
    BagAdds(ts[..k] + [t], ts[k..]);
    BagAdds(ts[..k], [t]);
    BagOne(t);
    BagAdds(ts[..k], ts[k..]);
    assert ts[..k] + ts[k..] == ts;
  }

  lemma ArmOnTime(w: Timer, arm: Arm)
    requires Tied(w) && OnTime(w) && arm.delay >= 0
    ensures OnTime(ArmOne(w, arm, false))
  {
    hide Splice, Place, Waiting, Exact, Issue;
    var k, w' := Place(w.table, arm.delay, 0), ArmOne(w, arm, false);
    SpliceAt(w.tickets, k, Issue(w, arm, false), 0);
    forall i | 0 <= i < |w'.tickets| ensures Waiting(w'.blocked, w'.tickets[i]) {
      SpliceAt(w.tickets, k, Issue(w, arm, false), i);
      IssueIs(w, arm, false);
    }
  }

  lemma ArmOnce(w: Timer, arm: Arm, inPass: bool)
    requires Once(w) && |w.tickets| == |w.table| && arm.delay >= 0
    ensures Once(ArmOne(w, arm, inPass))
  {
    hide Bag, Place, Splice, Insert, All, Issue;
    IssueIs(w, arm, inPass);
    SpliceBag(w.tickets, Place(w.table, arm.delay, 0), Issue(w, arm, inPass));
    AllGrows(w.made);
  }

  lemma ArmInv(w: Timer, arm: Arm)
    requires Inv(w) && arm.delay >= 0
    ensures Inv(ArmOne(w, arm, false))
  {
    hide Tied, Ordered, OnTime, Once, Place, Splice, Insert, Issue, Before;
    assert |w.tickets| == |w.table| by { TiedSizes(w); }
    ArmTied(w, arm, false);
    ArmOrdered(w, arm, false);
    ArmOnTime(w, arm);
    ArmOnce(w, arm, false);
  }

  lemma TiedSizes(w: Timer)
    requires Tied(w)
    ensures |w.tickets| == |w.table| && Nonneg(w.table)
  {
  }

  lemma AllGrows(n: nat)
    ensures All(n + 1) == All(n) + multiset{n}
  {
  }

  lemma PassedTied(w: Timer, block: bool)
    requires Tied(w)
    ensures Tied(Passed(w, block))
  {
    var p := Passed(w, block);
    TickedSums(w.table, 0);
    forall i | 0 <= i < |p.table| ensures Even(p, i) {
      TickedSums(w.table, i + 1);
      assert Even(w, i);
    }
  }

  /** An entry is due exactly when its deadline has come, and those that are due head the table. */
  lemma DueIs(w: Timer, i: nat)
    requires Tied(w) && i < |w.table|
    ensures i < Zeros(w.table, 0) <==> w.tickets[i].deadline <= Now(w)
  {
    TickedSums(w.table, i + 1);
    assert Even(w, i);
  }

  lemma StillWaiting(blocked: seq<bool>, block: bool, t: Ticket)
    requires Waiting(blocked, t) && (block || t.deadline > |blocked| + 1)
    ensures Waiting(blocked + [block], t)
  {
  }

  lemma StillExact(blocked: seq<bool>, block: bool, t: Ticket, n: nat)
    requires Exact(blocked, t, n)
    ensures Exact(blocked + [block], t, n)
  {
    var b := blocked + [block];
    assert b[n - 1] == blocked[n - 1];
  }

  /** A blocked tick runs nothing. */
  lemma BlockedInv(w: Timer)
    requires Inv(w)
    ensures Inv(Passed(w, true))
  {
    var p := Passed(w, true);
    PassedTied(w, true);
    forall i | 0 <= i < |p.tickets| ensures Waiting(p.blocked, p.tickets[i]) {
      StillWaiting(w.blocked, true, w.tickets[i]);
    }
    forall i | 0 <= i < |p.fired| ensures Exact(p.blocked, p.fired[i], p.at[i]) {
      StillExact(w.blocked, true, w.fired[i], w.at[i]);
    }
  }

  // ----- a pass --------------------------------------------------------------------------------

  /** In the middle of a pass: made during it, or no tick before it could have run the call. */
  ghost predicate MayRun(blocked: seq<bool>, t: Ticket)
    requires blocked != []
  {
    || (t.inPass && t.armed == |blocked|)
    || (t.armed < |blocked| && Waiting(blocked[..|blocked| - 1], t))
  }

  /** Everything that has run in this tick was before the ticket. */
  ghost predicate RunBefore(w: Timer, t: Ticket)
    requires |w.at| == |w.fired|
  {
    forall i :: 0 <= i < |w.fired| && w.at[i] == Now(w) ==> Before(w.fired[i], t)
  }

  ghost predicate MidTime(w: Timer) {
    && |w.at| == |w.fired| && w.blocked != [] && !w.blocked[|w.blocked| - 1]
    && (forall i :: 0 <= i < |w.tickets| ==> MayRun(w.blocked, w.tickets[i]) && RunBefore(w, w.tickets[i]))
    && (forall i :: 0 <= i < |w.fired| ==> Exact(w.blocked, w.fired[i], w.at[i]) && w.fired[i].id < w.made && w.fired[i].deadline <= Now(w))
  }

  ghost predicate MidInv(w: Timer) {
    Tied(w) && Ordered(w) && MidTime(w) && Once(w) && InOrder(w)
  }

  lemma FiredBelow(w: Timer, i: nat)
    requires Once(w) && i < |w.fired|
    ensures w.fired[i].id < w.made
  {
    hide Bag, All;
    InBag(w.fired, w.fired[i].id);
    assert w.fired[i].id in Bag(w.fired) && w.fired[i].id in Bag(w.tickets) + Bag(w.fired);
    assert All(w.made)[w.fired[i].id] > 0;
  }

  lemma {:induction false} PassStarts(w: Timer)
    requires Inv(w)
    ensures MidInv(Passed(w, false))
  {
    var p := Passed(w, false);
    PassedTied(w, false);
    assert p.blocked[..|p.blocked| - 1] == w.blocked;
    hide Tied, Once, Waiting, Bag, All;
    forall i | 0 <= i < |p.fired|
      ensures Exact(p.blocked, p.fired[i], p.at[i]) && p.at[i] < Now(p) && p.fired[i].id < p.made && p.fired[i].deadline <= Now(p)
    {
      assert Exact(w.blocked, w.fired[i], w.at[i]);
      StillExact(w.blocked, false, w.fired[i], w.at[i]);
      FiredBelow(w, i);
    }
    forall i | 0 <= i < |p.tickets| ensures MayRun(p.blocked, p.tickets[i]) && RunBefore(p, p.tickets[i]) {
      assert Waiting(w.blocked, w.tickets[i]);
      WaitsNow(w.blocked, w.tickets[i]);
    }
  }

  lemma WaitsNow(blocked: seq<bool>, t: Ticket)
    requires Waiting(blocked, t)
    ensures t.armed <= |blocked|
  {
  }

  lemma FiredTied(p: Timer)
    requires Tied(p) && HeadDue(p.table)
    ensures 0 < |p.tickets| == |p.table| && Tied(Fired(p))
  {
    var f := Fired(p);
    assert p.table[0].time == 0;
    forall i | 0 <= i < |f.table| ensures Even(f, i) {
      SumTail(p.table, 1, i + 1);
      assert Even(p, 1 + i);
    }
  }

  /** Running what may run in an open tick is on time. */
  lemma RunsExactly(blocked: seq<bool>, t: Ticket)
    requires blocked != [] && !blocked[|blocked| - 1] && MayRun(blocked, t) && t.deadline <= |blocked|
    ensures Exact(blocked, t, |blocked|)
  {
    var n := |blocked|;
    if !(t.inPass && t.armed == n) {
      assert forall u :: 0 <= u < n - 1 ==> blocked[..n - 1][u] == blocked[u];
    }
  }

  lemma HeadIsDue(p: Timer)
    requires Tied(p) && HeadDue(p.table)
    ensures 0 < |p.tickets| == |p.table| && p.tickets[0].deadline <= Now(p)
  {
    DueIs(p, 0);
  }

  lemma {:induction false} FiredTime(p: Timer)
    requires MidInv(p) && HeadDue(p.table)
    ensures 0 < |p.tickets| == |p.table| && MidTime(Fired(p)) && InOrder(Fired(p))
  {
    HeadIsDue(p);
    hide Tied, Once, Exact, MayRun, Before, HeadDue;
    var f, t := Fired(p), p.tickets[0];
    assert MayRun(p.blocked, t) && RunBefore(p, t);
    RunsExactly(p.blocked, t);
    forall i | 0 <= i < |f.tickets| ensures MayRun(f.blocked, f.tickets[i]) && RunBefore(f, f.tickets[i]) {
      assert f.tickets[i] == p.tickets[i + 1] && RunBefore(p, p.tickets[i + 1]) && Before(t, p.tickets[i + 1]);
    }
    forall i, j | 0 <= i < j < |f.fired|
      ensures f.at[i] < f.at[j] || (f.at[i] == f.at[j] && Before(f.fired[i], f.fired[j]))
    {
      if j == |p.fired| {
        assert Exact(p.blocked, p.fired[i], p.at[i]);
        AtMost(p.blocked, p.fired[i], p.at[i]);
      }
    }
  }

  lemma AtMost(blocked: seq<bool>, t: Ticket, n: nat)
    requires Exact(blocked, t, n)
    ensures n <= |blocked|
  {
  }

  lemma FiredOnce(p: Timer)
    requires Once(p) && 0 < |p.tickets| == |p.table|
    ensures Once(Fired(p))
  {
    hide Bag, All;
    var t := p.tickets[0];
    assert p.tickets == [t] + p.tickets[1..];
    BagAdds([t], p.tickets[1..]);
    BagAdds(p.fired, [t]);
  }

  lemma {:induction false} FiredMid(p: Timer)
    requires MidInv(p) && HeadDue(p.table)
    ensures 0 < |p.tickets| == |p.table| && MidInv(Fired(p))
  {
    hide Tied, MidTime, Once, InOrder, Before, HeadDue;
    FiredTied(p);
    FiredTime(p);
    FiredOnce(p);
  }

  lemma {:induction false} ArmMidTime(w: Timer, arm: Arm)
    requires Tied(w) && Ordered(w) && MidTime(w) && arm.delay >= 0
    ensures MidTime(ArmOne(w, arm, true))
  {
    hide Splice, Place, Exact, MayRun, Issue, RunBefore, Tied, Ordered;
    TiedSizes(w);
    var k, t, w' := Place(w.table, arm.delay, 0), Issue(w, arm, true), ArmOne(w, arm, true);
    IssueIs(w, arm, true);
    assert MayRun(w.blocked, t) by { MayRunNew(w.blocked, t); }
    assert RunBefore(w, t) by { RunBeforeNew(w, t); }
    forall i | 0 <= i < |w'.tickets| ensures MayRun(w'.blocked, w'.tickets[i]) && RunBefore(w', w'.tickets[i]) {
      SpliceAt(w.tickets, k, t, i);
      SameBefore(w, w', w'.tickets[i]);
    }
  }

  lemma MayRunNew(blocked: seq<bool>, t: Ticket)
    requires blocked != [] && t.inPass && t.armed == |blocked|
    ensures MayRun(blocked, t)
  {
  }

  lemma RunBeforeNew(w: Timer, t: Ticket)
    requires |w.at| == |w.fired| && t.deadline >= Now(w) && t.id == w.made
    requires forall i :: 0 <= i < |w.fired| ==> w.fired[i].id < w.made && w.fired[i].deadline <= Now(w)
    ensures RunBefore(w, t)
  {
  }

  lemma SameBefore(w: Timer, w': Timer, t: Ticket)
    requires |w.at| == |w.fired| && w'.at == w.at && w'.fired == w.fired && w'.blocked == w.blocked && RunBefore(w, t)
    ensures RunBefore(w', t)
  {
  }

  lemma {:induction false} ArmMid(w: Timer, arm: Arm)
    requires MidInv(w) && arm.delay >= 0
    ensures |w.tickets| == |w.table| && MidInv(ArmOne(w, arm, true))
  {
    hide Tied, Ordered, MidTime, Once, Place, Splice, Insert, Issue, Before;
    TiedSizes(w);
    ArmTied(w, arm, true);
    ArmOrdered(w, arm, true);
    ArmMidTime(w, arm);
    ArmOnce(w, arm, true);
  }

  lemma {:induction false} ArmManyMid(w: Timer, arms: seq<Arm>)
    requires MidInv(w) && Legal(arms)
    ensures |w.tickets| == |w.table| && MidInv(ArmMany(w, arms)) && ArmMany(w, arms).table == InsertAll(w.table, arms)
    decreases |arms|
  {
    TiedSizes(w);
    if arms != [] {
      hide MidInv, Place, Splice, Insert, Issue;
      ArmMid(w, arms[0]);
      ArmManyMid(ArmOne(w, arms[0], true), arms[1..]);
    }
  }

  /** When no call is due any more, the rest waits. */
  lemma {:induction false} PassOver(w: Timer)
    requires MidInv(w) && !HeadDue(w.table)
    ensures Inv(w)
  {
    forall i | 0 <= i < |w.tickets| ensures Waiting(w.blocked, w.tickets[i]) {
      assert MayRun(w.blocked, w.tickets[i]);
      DueIs(w, i);
      assert Zeros(w.table, 0) == 0;
      NotYet(w.blocked, w.tickets[i]);
    }
  }

  lemma NotYet(blocked: seq<bool>, t: Ticket)
    requires blocked != [] && MayRun(blocked, t) && t.deadline > |blocked|
    ensures Waiting(blocked, t)
  {
    var n := |blocked|;
    if t.armed < n {
      assert forall u :: 0 <= u < n - 1 ==> blocked[..n - 1][u] == blocked[u];
    }
  }

  lemma {:induction false} PassesInv(w: Timer, script: seq<seq<Arm>>, k: nat)
    requires MidInv(w) && LegalScript(script)
    ensures |w.tickets| == |w.table| && Inv(Passes(w, script, k)) && Passes(w, script, k).table == Pass(w.table, script, k)
    decreases if k < |script| then |script| - k else 0, |w.table|
  {
    hide MidInv, Inv, Legal, InsertAll;
    assert |w.tickets| == |w.table| by { MidSizes(w); }
    if HeadDue(w.table) {
      FiredMid(w);
      ArmsLegal(script, k);
      ArmManyMid(Fired(w), Arms(script, k));
      PassesInv(ArmMany(Fired(w), Arms(script, k)), script, k + 1);
    } else {
      PassOver(w);
    }
  }

  lemma MidSizes(w: Timer)
    requires MidInv(w)
    ensures |w.tickets| == |w.table|
  {
  }

  /** Every step of a run keeps the history straight, and does to the table what the kernel does. */
  lemma StepInv(w: Timer, op: Op)
    requires Inv(w) && Fit(op)
    ensures Inv(Step(w, op))
    ensures Step(w, op).table == match op
                                 case Request(arm) => Insert(w.table, arm)
                                 case Tick(block, script) => AfterTick(w.table, block, script)
  {
    match op
    case Request(arm) => ArmInv(w, arm);
    case Tick(block, script) =>
      if block {
        BlockedInv(w);
      } else {
        PassStarts(w);
        PassesInv(Passed(w, false), script, 0);
      }
  }

  /** The state after a run. */
  ghost function After(ops: seq<Op>): (w: Timer)
    requires forall i :: 0 <= i < |ops| ==> Fit(ops[i])
    ensures Inv(w)
  {
    if ops == [] then START else
    var w := After(ops[..|ops| - 1]);
    StepInv(w, ops[|ops| - 1]);
    Step(w, ops[|ops| - 1])
  }

  /** In every run each request is pending once or has run once, never both; if it ran, it ran at the
      first open tick at or after its deadline, and if it is pending there has been no such tick. */
  lemma RunsOnce(ops: seq<Op>, id: nat)
    requires forall i :: 0 <= i < |ops| ==> Fit(ops[i])
    requires id < After(ops).made
    ensures var w := After(ops);
      && Bag(w.tickets)[id] + Bag(w.fired)[id] == 1
      && (id in Bag(w.tickets) <==> exists i :: 0 <= i < |w.tickets| && w.tickets[i].id == id && Waiting(w.blocked, w.tickets[i]))
      && (id in Bag(w.fired) <==> exists i :: 0 <= i < |w.fired| && w.fired[i].id == id && Exact(w.blocked, w.fired[i], w.at[i]))
  {
    hide Tied, Ordered, InOrder, Waiting, Exact, After, All, Bag;
    var w := After(ops);
    assert All(w.made)[id] == 1;
    InBag(w.tickets, id);
    InBag(w.fired, id);
    assert forall i :: 0 <= i < |w.tickets| ==> Waiting(w.blocked, w.tickets[i]);
    assert forall i :: 0 <= i < |w.fired| ==> Exact(w.blocked, w.fired[i], w.at[i]);
  }

  lemma {:induction false} InBag(ts: seq<Ticket>, id: nat)
    ensures id in Bag(ts) <==> exists i :: 0 <= i < |ts| && ts[i].id == id
  {
    if ts != [] {
      InBag(ts[..|ts| - 1], id);
      if ts[|ts| - 1].id != id {
        assert forall i :: 0 <= i < |ts| - 1 ==> ts[..|ts| - 1][i] == ts[i];
      }
    }
  }
}
