/** The clock's table of pending calls. An entry's time counts ticks after the entry before it, so that
    one decrement moves every deadline (kernel/clock.c). */
module Callouts {
  /** A pending call; function 0 ends the table. */
  datatype Callo = Callo(time: int, func: nat, arg: int)

  /** A request to call `func(arg)` in `delay` ticks. */
  datatype Arm = Arm(func: nat, arg: int, delay: int)

  /** Ticks from now until the first `i` entries are all due. */
  function Sum(s: seq<Callo>, i: nat): int
    requires i <= |s|
  {
    if i == 0 then 0 else Sum(s, i - 1) + s[i - 1].time
  }

  /** Ticks from now until entry `i` is due. */
  function Remaining(s: seq<Callo>, i: nat): int
    requires i < |s|
  {
    Sum(s, i + 1)
  }

  ghost predicate Nonneg(s: seq<Callo>) {
    forall i :: 0 <= i < |s| ==> s[i].time >= 0
  }

  /** Where a call due in `t` ticks belongs: behind every entry due no later. */
  function Place(s: seq<Callo>, t: int, i: nat): (k: nat)
    requires i <= |s|
    ensures i <= k <= |s|
    ensures forall j :: i <= j < k ==> Remaining(s, j) <= t
    ensures k < |s| ==> Remaining(s, k) > t
    decreases |s| - i
  {
    if i < |s| && Remaining(s, i) <= t then Place(s, t, i + 1) else i
  }

  function Inserted(s: seq<Callo>, k: nat, left: int, func: nat, arg: int): seq<Callo>
    requires k <= |s|
  {
    s[..k] + [Callo(left, func, arg)] + if k < |s| then [s[k].(time := s[k].time - left)] + s[k + 1..] else []
  }

  function Insert(s: seq<Callo>, arm: Arm): seq<Callo> {
    var k := Place(s, arm.delay, 0);
    Inserted(s, k, arm.delay - Sum(s, k), arm.func, arm.arg)
  }

  lemma {:induction false} SumPrefix(s: seq<Callo>, s': seq<Callo>, i: nat)
    requires i <= |s| && i <= |s'| && s[..i] == s'[..i]
    ensures Sum(s, i) == Sum(s', i)
  {
    if i > 0 {
      assert s[i - 1] == s[..i][i - 1] && s'[i - 1] == s'[..i][i - 1];
      assert s[..i - 1] == s[..i][..i - 1] && s'[..i - 1] == s'[..i][..i - 1];
      SumPrefix(s, s', i - 1);
    }
  }

  /** A new call leaves every other deadline where it was and gets its own. */
  lemma {:induction false} InsertSums(s: seq<Callo>, arm: Arm, i: nat)
    requires i <= |s| + 1
    ensures var k, s' := Place(s, arm.delay, 0), Insert(s, arm);
      |s'| == |s| + 1 && Sum(s', i) == (if i <= k then Sum(s, i) else if i == k + 1 then arm.delay else Sum(s, i - 1))
  {
    var k, s' := Place(s, arm.delay, 0), Insert(s, arm);
    if i <= k {
      assert s'[..i] == s[..i];
      SumPrefix(s, s', i);
    } else {
      InsertSums(s, arm, i - 1);
    }
  }

  lemma InsertNonneg(s: seq<Callo>, arm: Arm)
    requires Nonneg(s) && arm.delay >= 0
    ensures Nonneg(Insert(s, arm))
  {
    var k, s' := Place(s, arm.delay, 0), Insert(s, arm);
    assert k < |s| ==> Remaining(s, k) > arm.delay;
    if k > 0 { assert Remaining(s, k - 1) <= arm.delay; }
    forall i | 0 <= i < |s'| ensures s'[i].time >= 0 {
      assert i > k + 1 ==> s'[i] == s[i - 1];
    }
  }

  /** The first entry that is not due yet. */
  function Zeros(s: seq<Callo>, i: nat): (k: nat)
    requires i <= |s|
    ensures i <= k <= |s|
    ensures forall j :: i <= j < k ==> s[j].time <= 0
    ensures k < |s| ==> s[k].time > 0
    decreases |s| - i
  {
    if i < |s| && s[i].time <= 0 then Zeros(s, i + 1) else i
  }

  function Ticked(s: seq<Callo>): seq<Callo> {
    var k := Zeros(s, 0);
    if k < |s| then s[k := s[k].(time := s[k].time - 1)] else s
  }

  /** A tick brings every deadline one nearer; what is due stays due. */
  lemma {:induction false} TickedSums(s: seq<Callo>, i: nat)
    requires Nonneg(s) && i <= |s|
    ensures Nonneg(Ticked(s)) && Sum(s, i) >= 0
    ensures Sum(Ticked(s), i) == if Sum(s, i) == 0 then 0 else Sum(s, i) - 1
    ensures i <= Zeros(s, 0) ==> Sum(s, i) == 0
    ensures i > Zeros(s, 0) ==> Sum(s, i) > 0
  {
    if i > 0 { TickedSums(s, i - 1); }
  }

  ghost predicate Legal(arms: seq<Arm>) {
    forall i :: 0 <= i < |arms| ==> arms[i].delay >= 0 && arms[i].func != 0
  }

  function InsertAll(s: seq<Callo>, arms: seq<Arm>): (r: seq<Callo>)
    ensures |r| == |s| + |arms|
    decreases |arms|
  {
    if arms == [] then s else
    InsertSums(s, arms[0], 0);
    InsertAll(Insert(s, arms[0]), arms[1..])
  }

  ghost predicate AllDue(s: seq<Callo>, z: nat)
    requires z <= |s|
  {
    forall i :: 0 <= i < z ==> s[i].time == 0
  }

  lemma {:induction false} SumTail(s: seq<Callo>, z: nat, i: nat)
    requires z <= |s| && i <= |s| - z && AllDue(s, z)
    ensures Sum(s, z + i) == Sum(s[z..], i)
  {
    if i > 0 {
      SumTail(s, z, i - 1);
    } else if z > 0 {
      SumTail(s, z - 1, 0);
    }
  }

  lemma {:induction false} PlaceIs(s: seq<Callo>, t: int, i: nat, k: nat)
    requires i <= k <= |s| && (forall j :: i <= j < k ==> Remaining(s, j) <= t) && (k < |s| ==> Remaining(s, k) > t)
    ensures Place(s, t, i) == k
    decreases k - i
  {
    if i < k { PlaceIs(s, t, i + 1, k); }
  }

  /** Calls that are due are out of the way of new ones: putting a call in and then dropping the due
      ones is dropping them first. */
  lemma InsertTail(s: seq<Callo>, z: nat, arm: Arm)
    requires z <= |s| && AllDue(s, z) && arm.delay >= 0
    ensures |Insert(s, arm)| == |s| + 1 && Insert(s, arm)[..z] == s[..z]
    ensures Insert(s, arm)[z..] == Insert(s[z..], arm)
  {
    var k := Place(s[z..], arm.delay, 0);
    forall j | 0 <= j < z + k ensures Remaining(s, j) <= arm.delay {
      if j < z {
        SumTail(s, j + 1, 0);
      } else {
        SumTail(s, z, j + 1 - z);
        assert Remaining(s[z..], j - z) <= arm.delay;
      }
    }
    if z + k < |s| { SumTail(s, z, k + 1); }
    PlaceIs(s, arm.delay, 0, z + k);
    SumTail(s, z, k);
  }

  lemma {:induction false} InsertAllTail(s: seq<Callo>, z: nat, arms: seq<Arm>)
    requires z <= |s| && AllDue(s, z) && Legal(arms)
    ensures InsertAll(s, arms)[..z] == s[..z]
    ensures InsertAll(s, arms)[z..] == InsertAll(s[z..], arms)
    decreases |arms|
  {
    if arms != [] {
      InsertTail(s, z, arms[0]);
      var s' := Insert(s, arms[0]);
      forall i | 0 <= i < z ensures s'[i].time == 0 { assert s'[i] == s'[..z][i] == s[..z][i]; }
      InsertAllTail(s', z, arms[1..]);
    }
  }

  lemma {:induction false} InsertAllMore(s: seq<Callo>, a: seq<Arm>, b: seq<Arm>)
    ensures InsertAll(InsertAll(s, a), b) == InsertAll(s, a + b)
    decreases |a|
  {
    if a == [] {
      assert a + b == b;
    } else {
      assert (a + b)[1..] == a[1..] + b;
      InsertAllMore(Insert(s, a[0]), a[1..], b);
    }
  }

  /** What the `k`-th call of a pass asks for. */
  function Arms(script: seq<seq<Arm>>, k: nat): seq<Arm> {
    if k < |script| then script[k] else []
  }

  ghost predicate LegalScript(script: seq<seq<Arm>>) {
    forall i :: 0 <= i < |script| ==> Legal(script[i])
  }

  lemma ArmsLegal(script: seq<seq<Arm>>, k: nat)
    requires LegalScript(script)
    ensures Legal(Arms(script, k))
  {
  }

  /** What the first `z` calls of a pass ask for, in order. */
  function Asked(script: seq<seq<Arm>>, z: nat): seq<Arm> {
    if z == 0 then [] else Asked(script, z - 1) + Arms(script, z - 1)
  }

  lemma {:induction false} AskedGrows(script: seq<seq<Arm>>, p: nat, z: nat)
    requires p <= z
    ensures |Asked(script, p)| <= |Asked(script, z)|
    decreases z
  {
    if p < z { AskedGrows(script, p, z - 1); }
  }

  predicate HeadDue(s: seq<Callo>) {
    s != [] && s[0].time <= 0
  }

  /** The table when the `k`-th call of a pass, its first, has been run and removed. */
  function RunHead(s: seq<Callo>, script: seq<seq<Arm>>, k: nat): (r: seq<Callo>)
    requires s != []
    ensures |r| == |s| - 1 + |Arms(script, k)|
  {
    InsertAll(s[1..], Arms(script, k))
  }

  /** A pass from its `k`-th call on: as long as the first call is due it is run and removed, and what it asks
      for put in its place, which may be due itself. */
  function Pass(s: seq<Callo>, script: seq<seq<Arm>>, k: nat): seq<Callo>
    decreases if k < |script| then |script| - k else 0, |s|
  {
    if HeadDue(s) then Pass(RunHead(s, script, k), script, k + 1) else s
  }

  /** How many calls have been run when that pass ends. */
  function Calls(s: seq<Callo>, script: seq<seq<Arm>>, k: nat): (z: nat)
    ensures z >= k
    decreases if k < |script| then |script| - k else 0, |s|
  {
    if HeadDue(s) then Calls(RunHead(s, script, k), script, k + 1) else k
  }

  /** The table after a tick: when calls are not blocked, those due are gone and whatever they asked
      for is in its place or gone as well. */
  function AfterTick(s: seq<Callo>, blocked: bool, script: seq<seq<Arm>>): seq<Callo> {
    if blocked then Ticked(s) else Pass(Ticked(s), script, 0)
  }
}
