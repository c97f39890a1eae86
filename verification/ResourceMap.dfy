/** The resource maps of kernel/malloc.c: a table of free runs, ended by a run of size 0, from which
    core (in words) and swap space (in blocks) are handed out first fit. */
module ResourceMap {

  datatype Run = Run(size: nat, addr: nat)

  /** The unit u lies in run r. */
  predicate Covers(r: Run, u: int) {
    r.addr <= u < r.addr + r.size
  }

  /** The unit u is free. */
  predicate Free(e: seq<Run>, u: int) {
    exists i :: 0 <= i < |e| && Covers(e[i], u)
  }

  /** Nonempty runs above address 0, in increasing order, with a used unit between any two. */
  predicate Ordered(e: seq<Run>) {
    && (forall i :: 0 <= i < |e| ==> e[i].size > 0 && e[i].addr > 0)
    && (forall i, j :: 0 <= i < j < |e| ==> e[i].addr + e[i].size < e[j].addr)
  }

  /** The table starts with the runs e, and all slots from there on have size 0. */
  predicate Starts(m: seq<Run>, e: seq<Run>) {
    && |e| <= |m| && m[..|e|] == e
    && (forall k :: 0 <= k < |e| ==> m[k].size > 0)
    && forall k :: |e| <= k < |m| ==> m[k].size == 0
  }

  /** And there is such a slot, the first of which ends the table. */
  predicate Holds(m: seq<Run>, e: seq<Run>) {
    Starts(m, e) && |e| < |m|
  }

  // ----- what malloc and mfree do to the runs --------------------------------------------------

  /** Cut the first `size` units off run i. */
  function Cut(e: seq<Run>, i: nat, size: nat): seq<Run>
    requires i < |e| && e[i].size >= size
  {
    if e[i].size == size then e[..i] + e[i + 1..]
    else e[i := Run(e[i].size - size, e[i].addr + size)]
  }

  /** How many runs start at or below a. */
  function Slot(e: seq<Run>, a: nat): (k: nat)
    ensures k <= |e|
    ensures forall i :: 0 <= i < k ==> e[i].addr <= a
    ensures k < |e| ==> e[k].addr > a
  {
    if e == [] || e[0].addr > a then 0 else 1 + Slot(e[1..], a)
  }

  /** A run ends right below a. */
  predicate Left(e: seq<Run>, a: nat) {
    var k := Slot(e, a);
    k > 0 && e[k - 1].addr + e[k - 1].size == a
  }

  /** The run above a starts right after [a, a+size). */
  predicate Right(e: seq<Run>, size: nat, a: nat) {
    var k := Slot(e, a);
    k < |e| && a + size == e[k].addr
  }

  /** The run [a, a+size) becomes part of, its neighbours joined on. */
  function Joined(e: seq<Run>, size: nat, a: nat): Run {
    var k := Slot(e, a);
    var l, r := if Left(e, a) then e[k - 1].size else 0, if Right(e, size, a) then e[k].size else 0;
    Run(l + size + r, if Left(e, a) then e[k - 1].addr else a)
  }

  /** Give back [a, a+size): one run replaces it and the neighbours it touches. */
  function Join(e: seq<Run>, size: nat, a: nat): seq<Run> {
    var k := Slot(e, a);
    if size == 0 then e
    else
      e[..if Left(e, a) then k - 1 else k] + [Joined(e, size, a)] + e[if Right(e, size, a) then k + 1 else k..]
  }

  lemma {:induction false} SlotUnique(e: seq<Run>, a: nat, k: nat)
    requires k <= |e| && (forall i :: 0 <= i < k ==> e[i].addr <= a) && (k < |e| ==> e[k].addr > a)
    ensures k == Slot(e, a)
  {
    var s := Slot(e, a);
    assert s < |e| ==> e[s].addr > a;
    assert k < |e| ==> e[k].addr > a;
  }

  /** The units of a map cut in two. */
  lemma FreeSplit(e: seq<Run>, i: nat, u: int)
    requires i <= |e|
    ensures Free(e, u) <==> Free(e[..i], u) || Free(e[i..], u)
  {
    if Free(e, u) {
      var k :| 0 <= k < |e| && Covers(e[k], u);
      if k < i {
        assert e[..i][k] == e[k];
      } else {
        assert e[i..][k - i] == e[k];
      }
    }
    if Free(e[i..], u) {
      var k :| 0 <= k < |e[i..]| && Covers(e[i..][k], u);
      assert e[i + k] == e[i..][k];
    }
  }

  lemma FreeConcat(a: seq<Run>, b: seq<Run>, u: int)
    ensures Free(a + b, u) <==> Free(a, u) || Free(b, u)
  {
    FreeSplit(a + b, |a|, u);
    assert (a + b)[..|a|] == a && (a + b)[|a|..] == b;
  }

  /** Replacing the runs from i up to j by the runs x changes only the units of those runs. */
  lemma FreeReplace(e: seq<Run>, i: nat, j: nat, x: seq<Run>, u: int)
    requires i <= j <= |e|
    ensures Free(e, u) <==> Free(e[..i], u) || Free(e[i..j], u) || Free(e[j..], u)
    ensures Free(e[..i] + x + e[j..], u) <==> Free(e[..i], u) || Free(x, u) || Free(e[j..], u)
  {
    FreeSplit(e, i, u);
    FreeSplit(e[i..], j - i, u);
    assert e[i..][..j - i] == e[i..j] && e[i..][j - i..] == e[j..];
    FreeConcat(e[..i], x, u);
    FreeConcat(e[..i] + x, e[j..], u);
  }

  /** In an ordered map the runs before i end below run i and the runs after it start above. */
  lemma Apart(e: seq<Run>, i: nat, u: int)
    requires Ordered(e) && i < |e|
    ensures Free(e[..i], u) ==> u < e[i].addr
    ensures Free(e[i + 1..], u) ==> u > e[i].addr + e[i].size
    ensures Free(e[i..i + 1], u) <==> Covers(e[i], u)
  {
    assert e[i..i + 1] == [e[i]];
    if Free(e[..i], u) {
      var k :| 0 <= k < i && Covers(e[..i][k], u);
      assert e[..i][k] == e[k];
    }
    if Free(e[i + 1..], u) {
      var k :| 0 <= k < |e[i + 1..]| && Covers(e[i + 1..][k], u);
      assert e[i + 1..][k] == e[i + 1 + k];
    }
  }

  lemma FreeOne(r: Run, u: int)
    ensures Free([r], u) <==> Covers(r, u)
  {
    assert [r][0] == r;
  }

  /** Cutting as a replacement of run i. */
  lemma CutIsReplace(e: seq<Run>, i: nat, size: nat)
    requires i < |e| && e[i].size >= size
    ensures var x := if e[i].size == size then [] else [Run(e[i].size - size, e[i].addr + size)];
            Cut(e, i, size) == e[..i] + x + e[i + 1..]
  {
  }

  /** Cutting takes exactly [e[i].addr, e[i].addr+size) away, and keeps the map in order. */
  lemma {:induction false} CutTakes(e: seq<Run>, i: nat, size: nat)
    requires Ordered(e) && i < |e| && e[i].size >= size
    ensures Ordered(Cut(e, i, size))
    ensures forall u :: Free(Cut(e, i, size), u) <==> Free(e, u) && !(e[i].addr <= u < e[i].addr + size)
  {
    hide Free;
    var x := if e[i].size == size then [] else [Run(e[i].size - size, e[i].addr + size)];
    CutIsReplace(e, i, size);
    forall u ensures Free(Cut(e, i, size), u) <==> Free(e, u) && !(e[i].addr <= u < e[i].addr + size) {
      FreeReplace(e, i, i + 1, x, u);
      Apart(e, i, u);
      if x == [] {
        NoneFree(u);
      } else {
        FreeOne(x[0], u);
      }
    }
  }

  lemma NoneFree(u: int)
    ensures !Free([], u)
  {
  }

  /** Nothing of [a, a+size) is free. */
  predicate InUse(e: seq<Run>, size: nat, a: nat) {
    forall u :: a <= u < a + size ==> !Free(e, u)
  }

  /** Where an in-use range lies between its neighbours. */
  lemma {:induction false} Neighbours(e: seq<Run>, size: nat, a: nat)
    requires Ordered(e) && size > 0 && InUse(e, size, a)
    ensures var k := Slot(e, a);
            && (k > 0 ==> e[k - 1].addr + e[k - 1].size <= a)
            && (k < |e| ==> a + size <= e[k].addr)
  {
    var k := Slot(e, a);
    assert k > 0 && Covers(e[k - 1], a) ==> Free(e, a);
    assert k < |e| ==> Covers(e[k], e[k].addr) && Free(e, e[k].addr);
  }

  lemma OrderedConcat(x: seq<Run>, y: seq<Run>)
    requires Ordered(x) && Ordered(y)
    requires x != [] && y != [] ==> x[|x| - 1].addr + x[|x| - 1].size < y[0].addr
    ensures Ordered(x + y)
  {
    var z := x + y;
    forall p, q | 0 <= p < q < |z| ensures z[p].addr + z[p].size < z[q].addr {
      if p < |x| <= q {
        assert x[p].addr <= x[|x| - 1].addr;
        assert y[0].addr <= y[q - |x|].addr;
      }
    }
  }

  /** A run that fits between its new neighbours keeps the map in order. */
  lemma OrderedReplace(e: seq<Run>, i: nat, j: nat, r: Run)
    requires Ordered(e) && i <= j <= |e| && r.size > 0 && r.addr > 0
    requires i > 0 ==> e[i - 1].addr + e[i - 1].size < r.addr
    requires j < |e| ==> r.addr + r.size < e[j].addr
    ensures Ordered(e[..i] + [r] + e[j..])
  {
    OrderedConcat(e[..i], [r]);
    OrderedConcat(e[..i] + [r], e[j..]);
  }

  /** Joining adds exactly [a, a+size), and leaves the map ordered and fully coalesced. */
  lemma {:induction false} JoinGives(e: seq<Run>, size: nat, a: nat)
    requires Ordered(e) && a > 0 && InUse(e, size, a)
    ensures Ordered(Join(e, size, a))
    ensures forall u :: Free(Join(e, size, a), u) <==> Free(e, u) || a <= u < a + size
  {
    hide Free, Ordered, Join;
    JoinOrdered(e, size, a);
    forall u ensures Free(Join(e, size, a), u) <==> Free(e, u) || a <= u < a + size {
      JoinUnit(e, size, a, u);
    }
  }

  lemma JoinOrdered(e: seq<Run>, size: nat, a: nat)
    requires Ordered(e) && a > 0 && InUse(e, size, a)
    ensures Ordered(Join(e, size, a))
  {
    if size > 0 {
      Neighbours(e, size, a);
      hide Free, Slot, InUse;
      var k := Slot(e, a);
      OrderedReplace(e, if Left(e, a) then k - 1 else k, if Right(e, size, a) then k + 1 else k, Joined(e, size, a));
    }
  }

  lemma JoinUnit(e: seq<Run>, size: nat, a: nat, u: int)
    requires Ordered(e) && InUse(e, size, a)
    ensures Free(Join(e, size, a), u) <==> Free(e, u) || a <= u < a + size
  {
    if size > 0 {
      Neighbours(e, size, a);
      hide Free, Slot, InUse, Ordered;
      var k, left, right := Slot(e, a), Left(e, a), Right(e, size, a);
      var i, j := if left then k - 1 else k, if right then k + 1 else k;
      var r := Joined(e, size, a);
      FreeReplace(e, i, j, [r], u);
      FreeOne(r, u);
      Touched(e, k, left, right, u);
    }
  }

  /** The units of the neighbours that are joined on. */
  lemma Touched(e: seq<Run>, k: nat, left: bool, right: bool, u: int)
    requires k <= |e| && (left ==> k > 0) && (right ==> k < |e|)
    ensures Free(e[if left then k - 1 else k..if right then k + 1 else k], u) <==>
              (left && Covers(e[k - 1], u)) || (right && Covers(e[k], u))
  {
    var lo, hi := if left then [e[k - 1]] else [], if right then [e[k]] else [];
    assert e[if left then k - 1 else k..if right then k + 1 else k] == lo + hi;
    FreeConcat(lo, hi, u);
  }

  // ----- what the map is a map of ---------------------------------------------------------------

  /** The units of the first run, and of the rest. */
  lemma FreeHead(e: seq<Run>, u: int)
    requires Ordered(e) && e != []
    ensures Free(e, u) <==> Covers(e[0], u) || Free(e[1..], u)
    ensures Free(e[1..], u) ==> u > e[0].addr + e[0].size
    ensures Ordered(e[1..])
  {
    Apart(e, 0, u);
    FreeReplace(e, 0, 1, [], u);
    NoneFree(u);
    assert e[..0] == [] && e[0..1] == [e[0]];
    FreeOne(e[0], u);
  }

  lemma {:induction false} HeadBelow(d: seq<Run>, e: seq<Run>)
    requires Ordered(d) && Ordered(e) && forall u :: Free(d, u) <==> Free(e, u)
    requires d != [] && e != []
    ensures d[0].addr <= e[0].addr && (d[0].addr == e[0].addr ==> d[0].size <= e[0].size)
  {
    hide Free;
    FreeHead(e, e[0].addr);
    FreeHead(d, e[0].addr);
    FreeHead(d, e[0].addr + e[0].size);
    FreeHead(e, e[0].addr + e[0].size);
  }

  /** The runs are determined by the free units. */
  lemma {:induction false} Canonical(d: seq<Run>, e: seq<Run>)
    requires Ordered(d) && Ordered(e) && forall u :: Free(d, u) <==> Free(e, u)
    ensures d == e
    decreases |d|
  {
    hide Free;
    if d == [] || e == [] {
      SomeFree(d);
      SomeFree(e);
    } else {
      HeadBelow(d, e);
      HeadBelow(e, d);
      assert d[0] == e[0];
      forall u ensures Free(d[1..], u) <==> Free(e[1..], u) {
        FreeHead(d, u);
        FreeHead(e, u);
      }
      FreeHead(d, 0);
      FreeHead(e, 0);
      Canonical(d[1..], e[1..]);
      assert d == [d[0]] + d[1..] && e == [e[0]] + e[1..];
    }
  }

  lemma SomeFree(e: seq<Run>)
    requires Ordered(e)
    ensures e == [] ==> forall u :: !Free(e, u)
    ensures e != [] ==> Free(e, e[0].addr)
  {
    if e != [] {
      assert Covers(e[0], e[0].addr);
    }
  }

  /** Giving back what malloc handed out restores the map. */
  lemma {:induction false} JoinUndoesCut(e: seq<Run>, i: nat, size: nat)
    requires Ordered(e) && i < |e| && e[i].size >= size
    ensures InUse(Cut(e, i, size), size, e[i].addr)
    ensures Join(Cut(e, i, size), size, e[i].addr) == e
  {
    hide Cut, Join;
    var c := Cut(e, i, size);
    CutTakes(e, i, size);
    JoinGives(c, size, e[i].addr);
    forall u | e[i].addr <= u < e[i].addr + size ensures Free(e, u) {
      assert Covers(e[i], u);
    }
    Canonical(Join(c, size, e[i].addr), e);
  }

  /** All of [a, a+size) is free. */
  ghost predicate Available(e: seq<Run>, size: nat, a: int) {
    forall u :: a <= u < a + size ==> Free(e, u)
  }

  /** In a coalesced map free units next to each other belong to one run. */
  lemma {:induction false} OneRun(e: seq<Run>, size: nat, a: int) returns (i: nat)
    requires Ordered(e) && size > 0 && Available(e, size, a)
    ensures i < |e| && e[i].addr <= a && a + size <= e[i].addr + e[i].size
  {
    assert Free(e, a);
    i :| 0 <= i < |e| && Covers(e[i], a);
    var end := e[i].addr + e[i].size;
    assert !Free(e, end) by {
      hide Free;
      FreeReplace(e, i, i + 1, [], end);
      Apart(e, i, end);
    }
  }

  /** malloc's choice is the lowest place where `size` units are free, and it fails only when there
      is no such place. */
  lemma {:induction false} FirstFitIsLowest(e: seq<Run>, size: nat, i: nat)
    requires Ordered(e) && size > 0 && i <= |e| && (forall k :: 0 <= k < i ==> e[k].size < size)
    ensures i < |e| ==> forall a :: Available(e, size, a) ==> a >= e[i].addr
    ensures i == |e| ==> forall a :: !Available(e, size, a)
    ensures i < |e| && e[i].size >= size ==> Available(e, size, e[i].addr)
  {
    hide Free;
    forall a | Available(e, size, a) ensures i < |e| && a >= e[i].addr {
      var j := OneRun(e, size, a);
    }
    if i < |e| && e[i].size >= size {
      forall u | e[i].addr <= u < e[i].addr + size ensures Free(e, u) {
        FreeReplace(e, i, i + 1, [], u);
        Apart(e, i, u);
      }
    }
  }

  // ----- the table in memory -------------------------------------------------------------------

  /** The runs of a table: everything before the first size 0. */
  function Runs(m: seq<Run>): (e: seq<Run>)
    ensures |e| <= |m| && m[..|e|] == e
    ensures forall k :: 0 <= k < |e| ==> e[k].size > 0
    ensures |e| < |m| ==> m[|e|].size == 0
  {
    if m == [] || m[0].size == 0 then [] else [m[0]] + Runs(m[1..])
  }

  ghost predicate Valid(m: seq<Run>) {
    Holds(m, Runs(m)) && Ordered(Runs(m))
  }

  /** A table has only one list of runs. */
  lemma {:induction false} RunsAre(m: seq<Run>, e: seq<Run>)
    requires Starts(m, e)
    ensures Runs(m) == e
    decreases |m|
  {
    if e != [] {
      assert m[0] == e[0];
      assert m[1..][..|e| - 1] == e[1..];
      RunsAre(m[1..], e[1..]);
      assert e == [e[0]] + e[1..];
    }
  }

  lemma HoldsUpdate(m: seq<Run>, e: seq<Run>, k: nat, r: Run)
    requires Holds(m, e) && k < |e| && r.size > 0
    ensures Holds(m[k := r], e[k := r])
  {
  }

  lemma SetIsReplace(e: seq<Run>, k: nat, r: Run)
    requires k < |e|
    ensures e[k := r] == e[..k] + [r] + e[k + 1..]
  {
  }

  lemma {:induction false} JoinBoth(e: seq<Run>, size: nat, a: nat)
    requires Left(e, a) && Right(e, size, a) && size > 0
    ensures var k := Slot(e, a);
            Join(e, size, a) == e[..k - 1] + [Run(e[k - 1].size + size + e[k].size, e[k - 1].addr)] + e[k + 1..]
  {
    hide Slot;
  }

  lemma {:induction false} JoinOnLeft(e: seq<Run>, size: nat, a: nat)
    requires Left(e, a) && !Right(e, size, a)
    ensures var k := Slot(e, a); Join(e, size, a) == e[k - 1 := Run(e[k - 1].size + size, e[k - 1].addr)]
  {
    hide Slot;
    var k := Slot(e, a);
    SetIsReplace(e, k - 1, Run(e[k - 1].size + size, e[k - 1].addr));
    assert size == 0 ==> e[k - 1 := e[k - 1]] == e;
  }

  lemma {:induction false} JoinOnRight(e: seq<Run>, size: nat, a: nat)
    requires !Left(e, a) && Right(e, size, a) && size > 0
    ensures var k := Slot(e, a);
            Join(e, size, a) == e[k := Run(e[k].size + size, e[k].addr - size)]
  {
    hide Slot;
    var k := Slot(e, a);
    SetIsReplace(e, k, Joined(e, size, a));
  }

  lemma {:induction false} JoinAlone(e: seq<Run>, size: nat, a: nat)
    requires !Left(e, a) && !Right(e, size, a)
    ensures var k := Slot(e, a);
            Join(e, size, a) == if size == 0 then e else e[..k] + [Run(size, a)] + e[k..]
  {
    hide Slot;
  }

  /** A table that agrees with the runs x slot by slot. */
  lemma StartsBySlot(m: seq<Run>, x: seq<Run>)
    requires |x| <= |m| && forall k :: 0 <= k < |x| ==> m[k] == x[k] && x[k].size > 0
    requires forall k :: |x| <= k < |m| ==> m[k].size == 0
    ensures Starts(m, x)
  {
  }

  /** malloc: the lowest run large enough gives up its first `size` units; 0 when there is none. */
  method Malloc(m: array<Run>, size: nat) returns (a: nat, ghost i: nat)
    requires Valid(m[..])
    modifies m
    ensures var e := old(Runs(m[..]));
            if a == 0 then m[..] == old(m[..]) && forall k :: 0 <= k < |e| ==> e[k].size < size
            else
              && i < |e| && a == e[i].addr && e[i].size >= size && (forall k :: 0 <= k < i ==> e[k].size < size)
              && Runs(m[..]) == Cut(e, i, size)
    ensures Valid(m[..])
  {
    ghost var e := Runs(m[..]);
    var bp := 0;
    i := 0;
    while m[bp].size != 0
      invariant 0 <= bp <= |e| && m[..] == old(m[..])
      invariant forall k :: 0 <= k < bp ==> e[k].size < size
      decreases |e| - bp
    {
      assert m[bp] == e[bp];
      if m[bp].size >= size {
        a, i := m[bp].addr, bp;
        CutTakes(e, bp, size);
        m[bp] := Run(m[bp].size - size, m[bp].addr + size);
        if m[bp].size == 0 {
          CloseUp(m, bp, e);
        }
        assert Holds(m[..], Cut(e, i, size));
        RunsAre(m[..], Cut(e, i, size));
        return;
      }
      bp := bp + 1;
    }
    a := 0;
  }

  /** Shift the runs above slot b down by one, terminator included. */
  method CloseUp(m: array<Run>, b: nat, ghost e: seq<Run>)
    requires b < |e| < m.Length
    requires forall k :: 0 <= k < |e| && k != b ==> m[k] == e[k] && e[k].size > 0
    requires forall k :: |e| <= k < m.Length ==> m[k].size == 0
    modifies m
    ensures Holds(m[..], e[..b] + e[b + 1..])
  {
    var bp := b;
    while true
      invariant b <= bp < |e|
      invariant forall k :: 0 <= k < b ==> m[k] == e[k]
      invariant forall k :: b <= k < bp ==> m[k] == e[k + 1]
      invariant forall k :: bp < k < |e| ==> m[k] == e[k]
      invariant forall k :: |e| <= k < m.Length ==> m[k].size == 0
      decreases |e| - bp
    {
      bp := bp + 1;
      m[bp - 1] := m[bp];
      if m[bp - 1].size == 0 {
        break;
      }
    }
    StartsBySlot(m[..], e[..b] + e[b + 1..]);
  }

  /** The slots around position k of a table. */
  lemma SlotView(m: seq<Run>, e: seq<Run>, k: nat)
    requires Holds(m, e) && k <= |e|
    ensures k < |m| && (if k < |e| then m[k] == e[k] && e[k].size > 0 else m[k].size == 0)
    ensures k > 0 ==> m[k - 1] == e[k - 1] && e[k - 1].size > 0
  {
  }

  method SetRun(m: array<Run>, k: nat, r: Run, ghost e: seq<Run>)
    requires Holds(m[..], e) && k < |e| && r.size > 0
    modifies m
    ensures k < m.Length && m[k] == r && Holds(m[..], e[k := r])
  {
    HoldsUpdate(m[..], e, k, r);
    m[k] := r;
  }

  /** mfree when run bp-1 ends at a: it grows, and takes in run bp if the two now touch. */
  method JoinLeft(m: array<Run>, bp: nat, size: nat, a: nat, ghost e: seq<Run>)
    requires Holds(m[..], e) && bp == Slot(e, a) && bp > 0 && Left(e, a)
    requires bp < |e| && e[bp].addr == a + size ==> size > 0
    modifies m
    ensures Holds(m[..], Join(e, size, a))
  {
    hide *;
    SlotView(m[..], e, bp);
    SetRun(m, bp - 1, Run(m[bp - 1].size + size, m[bp - 1].addr), e);
    ghost var g := e[bp - 1 := m[bp - 1]];
    SlotView(m[..], g, bp);
    TouchesRight(e, size, a);
    if a + size == m[bp].addr {
      SetRun(m, bp - 1, Run(m[bp - 1].size + m[bp].size, m[bp - 1].addr), g);
      ghost var h := g[bp - 1 := m[bp - 1]];
      SlotView(m[..], h, bp);
      if m[bp].size != 0 {
        JoinBoth(e, size, a);
        CloseUpHeld(m, bp, h);
        assert h[..bp] + h[bp + 1..] == Join(e, size, a);
      } else {
        // a terminator that happens to carry the address a+size adds its size of 0
        JoinOnLeft(e, size, a);
        assert h == Join(e, size, a);
      }
    } else {
      JoinOnLeft(e, size, a);
    }
  }

  lemma TouchesRight(e: seq<Run>, size: nat, a: nat)
    ensures Right(e, size, a) <==> Slot(e, a) < |e| && a + size == e[Slot(e, a)].addr
  {
  }

  method CloseUpHeld(m: array<Run>, b: nat, ghost e: seq<Run>)
    requires Holds(m[..], e) && b < |e|
    modifies m
    ensures Holds(m[..], e[..b] + e[b + 1..])
  {
    assert forall k :: 0 <= k < |e| ==> m[k] == e[k];
    CloseUp(m, b, e);
  }

  /** Put run r into slot b, moving everything above up by one slot.  The last run goes where the table
      ended; the slot behind it, if there is one, is of size 0 already. */
  method Insert(m: array<Run>, b: nat, r: Run, ghost e: seq<Run>)
    requires Holds(m[..], e) && b <= |e| && r.size > 0
    modifies m
    ensures Starts(m[..], e[..b] + [r] + e[b..])
  {
    var bp, cur := b, r;
    assert forall k :: 0 <= k < |e| ==> m[k] == e[k];
    while true
      invariant b <= bp <= |e| && cur == (if bp == b then r else e[bp - 1])
      invariant forall k :: 0 <= k < b ==> m[k] == e[k]
      invariant forall k :: b <= k < bp ==> m[k] == if k == b then r else e[k - 1]
      invariant forall k :: bp <= k < |e| ==> m[k] == e[k]
      invariant forall k :: |e| <= k < m.Length ==> m[k].size == 0
      decreases |e| - bp
    {
      var t := m[bp];
      m[bp] := cur;
      cur, bp := t, bp + 1;
      if cur.size == 0 {
        break;
      }
    }
    StartsBySlot(m[..], e[..b] + [r] + e[b..]);
  }

  /** mfree's search: the first run above a, or the terminator. */
  method FindSlot(m: array<Run>, a: nat, ghost e: seq<Run>) returns (bp: nat)
    requires Holds(m[..], e)
    ensures bp == Slot(e, a)
  {
    hide Slot, Holds;
    SlotView(m[..], e, 0);
    bp := 0;
    while m[bp].addr <= a && m[bp].size != 0
      invariant 0 <= bp <= |e| && bp < m.Length && (if bp < |e| then m[bp] == e[bp] else m[bp].size == 0)
      invariant forall k :: 0 <= k < bp ==> e[k].addr <= a
      decreases |e| - bp
    {
      bp := bp + 1;
      SlotView(m[..], e, bp);
    }
    SlotView(m[..], e, bp);
    SlotUnique(e, a, bp);
  }

  /** Giving back [a, a+size) takes the slot that ends a table of n slots. */
  predicate Fills(e: seq<Run>, size: nat, a: nat, n: nat) {
    size > 0 && !Left(e, a) && !Right(e, size, a) && |e| + 1 == n
  }

  /** mfree: [a, a+size) goes back into the map, which goes without an end from then on if it took the last
      slot. */
  method MFree(m: array<Run>, size: nat, a: nat)
    requires Valid(m[..]) && a > 0 && InUse(Runs(m[..]), size, a)
    modifies m
    ensures Runs(m[..]) == old(Join(Runs(m[..]), size, a)) && Ordered(Runs(m[..]))
    ensures Valid(m[..]) <==> !old(Fills(Runs(m[..]), size, a, m.Length))
    ensures !Valid(m[..]) ==> |Runs(m[..])| == m.Length
  {
    hide Slot, Join, Joined, Left, Right, Ordered, InUse, Runs, Free, Starts, Fills;
    ghost var e := Runs(m[..]);
    JoinGives(e, size, a);
    JoinSize(e, size, a);
    var bp := FindSlot(m, a, e);
    SlotView(m[..], e, bp);
    SlotSides(e, size, a);
    if bp > 0 && m[bp - 1].addr + m[bp - 1].size == a {
      JoinLeft(m, bp, size, a, e);
    } else if a + size == m[bp].addr && m[bp].size != 0 {
      JoinOnRight(e, size, a);
      SetRun(m, bp, Run(m[bp].size + size, m[bp].addr - size), e);
    } else {
      JoinAlone(e, size, a);
      if size != 0 {
        Insert(m, bp, Run(size, a), e);
      }
    }
    RunsAre(m[..], Join(e, size, a));
  }

  /** A run more exactly when no neighbour is touched. */
  lemma JoinSize(e: seq<Run>, size: nat, a: nat)
    ensures |Join(e, size, a)| <= |e| + 1
    ensures |Join(e, size, a)| == |e| + 1 <==> size > 0 && !Left(e, a) && !Right(e, size, a)
    ensures forall n :: |e| < n ==> (|Join(e, size, a)| == n <==> Fills(e, size, a, n))
  {
    hide Slot;
  }

  /** A table of two slots: one free run, and the end of it.  Freeing a unit apart from that leaves no end. */
  method NoEnd() returns (m: array<Run>)
    ensures m.Length == 2 && Runs(m[..]) == [Run(1, 10), Run(1, 20)] && !Valid(m[..])
  {
    m := new Run[2](k => if k == 0 then Run(1, 10) else Run(0, 0));
    ghost var e := [Run(1, 10)];
    StartsBySlot(m[..], e);
    RunsAre(m[..], e);
    assert Slot(e, 20) == 1 by { SlotUnique(e, 20, 1); }
    assert Join(e, 1, 20) == [Run(1, 10), Run(1, 20)];
    MFree(m, 1, 20);
  }

  lemma SlotSides(e: seq<Run>, size: nat, a: nat)
    ensures var k := Slot(e, a);
            && (Left(e, a) <==> k > 0 && e[k - 1].addr + e[k - 1].size == a)
            && (Right(e, size, a) <==> k < |e| && a + size == e[k].addr)
            && (k < |e| && e[k].addr == a + size ==> size > 0)
  {
  }
}
