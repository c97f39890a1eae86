/** A run from boot in which a store into a text is lost when the text is swapped. */
module ProcLost {
  import opened Common
  import opened ResourceMap
  import opened Space
  import opened Pages
  import opened ProcMem
  import opened ProcSteps
  import opened ProcSwap
  import opened ProcOps
  import opened ProcText
  import opened ProcExec
  import opened ProcRun
  import opened ProcLaws

  const U0: UArea := UArea(0, 0, 0, 0, 0)
  const W0: Page := Words(7)
  const W1: Page := Words(8)

  /** Process 1 is made, runs, and loads a text of one page; then it is swapped out and back in, which
      writes the text out and clears its mark. */
  const BEFORE: seq<Op> := [Fork(1, U0), Switch(1), EnterText(7, false, 1), ReadText([W0]), Switch(0), SwapOut(1), SwapBack(1), Switch(1)]

  /** It is swapped out and back in again. */
  const AFTER: seq<Op> := [Switch(0), SwapOut(1), SwapBack(1)]

  /** What matters of a state: process 1, text 0, the free maps, and who runs. */
  ghost predicate View(s: Sys, q: Proc, x: TextSeg, cm: seq<Run>, sm: seq<Run>, cur: nat) {
    && Good(s) && |s.procs| == NPROC && |s.texts| == NTEXT
    && s.procs[0] == Proc(Runs, true, 32, 1, None) && s.procs[1] == q && s.texts[0] == x
    && (forall t :: 0 < t < NTEXT ==> !s.texts[t].used)
    && s.coremap == cm && s.swapmap == sm && s.live.procp == cur
  }

  function Child(load: bool, addr: nat, text: Option<nat>): Proc {
    Proc(Runs, load, addr, 1, text)
  }

  function Seg(ccount: nat, writ: bool, ready: bool): TextSeg {
    TextSeg(true, 7, false, 1, ccount, 1, 34, 1, writ, ready)
  }

  lemma Take(a: nat, n: nat)
    requires n > 1
    ensures Alloc([Run(n, a)], 1) == Some(Grant(a, [Run(n - 1, a + 1)]))
  {
    assert FirstFit([Run(n, a)], 1) == 0;
    assert [Run(n, a)][0 := Run(n - 1, a + 1)] == [Run(n - 1, a + 1)];
  }

  lemma GiveBack(a: nat, n: nat)
    requires n > 0
    ensures Join([Run(n, a + 1)], 1, a) == [Run(n + 1, a)]
  {
    var e := [Run(n, a + 1)];
    assert Slot(e, a) == 0;
    assert e[1..] == [] && e[..0] == [];
  }

  lemma SwitchView(s: Sys, q: Proc, x: TextSeg, cm: seq<Run>, sm: seq<Run>, cur: nat, p: nat)
    requires View(s, q, x, cm, sm, cur) && p < 2 && InCore(s, p) && p != cur && (q.text.Some? ==> q.text.value < NTEXT) && cur < 2
    ensures Enabled(s, Switch(p)) && View(Resume(s, p), q, x, cm, sm, p) && Resume(s, p).content == s.content
  {
    StepGood(s, Switch(p));
    ResumeKeeps(s, Loaded(s), p);
    hide Good, Put, Get;
  }

  lemma ForkView()
    ensures var s := Boot(8, 8, U0);
      && Good(s) && Enabled(s, Fork(1, U0)) && Step(s, Fork(1, U0)).Some?
      && View(Step(s, Fork(1, U0)).value, Child(true, 33, None), TextSeg(false, 0, false, 0, 0, 0, 0, 0, false, false), [Run(7, 34)], [Run(8, 1)], 0)
  {
    var s := Boot(8, 8, U0);
    BootGood(8, 8, U0);
    Take(33, 8);
    hide Good, Alloc, Put;
    assert Step(s, Fork(1, U0)).Some?;
    StepGood(s, Fork(1, U0));
  }

  lemma EnterView(s: Sys)
    requires View(s, Child(true, 33, None), TextSeg(false, 0, false, 0, 0, 0, 0, 0, false, false), [Run(7, 34)], [Run(8, 1)], 1)
    ensures Enabled(s, EnterText(7, false, 1)) && Step(s, EnterText(7, false, 1)).Some?
    ensures View(Step(s, EnterText(7, false, 1)).value, Child(true, 33, Some(0)), Seg(1, false, false), [Run(6, 35)], [Run(7, 2)], 1)
  {
    Take(1, 8);
    Take(34, 7);
    hide Good, Alloc, Put, Get, Join, XSwap;
    assert Lookup(s.texts, 7) == NTEXT && Unused(s.texts) == 0;
    hide Lookup, Unused;
    assert Step(s, EnterText(7, false, 1)).Some?;
    StepGood(s, EnterText(7, false, 1));
  }

  lemma ReadView(s: Sys)
    requires View(s, Child(true, 33, Some(0)), Seg(1, false, false), [Run(6, 35)], [Run(7, 2)], 1)
    ensures Enabled(s, ReadText([W0])) && Step(s, ReadText([W0])).Some?
    ensures var s' := Step(s, ReadText([W0])).value;
      View(s', Child(true, 33, Some(0)), Seg(1, true, true), [Run(6, 35)], [Run(7, 2)], 1) && 0 in s'.content && s'.content[0] == [W0]
  {
    hide Good, Put;
    StepGood(s, ReadText([W0]));
  }

  lemma OutView(s: Sys, writ: bool)
    requires View(s, Child(true, 33, Some(0)), Seg(1, writ, true), [Run(6, 35)], [Run(7, 2)], 0)
    ensures Enabled(s, SwapOut(1)) && Step(s, SwapOut(1)).Some? && Step(s, SwapOut(1)).value.content == s.content
    ensures View(Step(s, SwapOut(1)).value, Child(false, 2, Some(0)), Seg(0, false, true), [Run(8, 33)], [Run(6, 3)], 0)
  {
    Take(2, 7);
    GiveBack(34, 6);
    GiveBack(33, 7);
    hide Good, Alloc, Put, Get, Join;
    assert XSwap(s, 1, 1).Some?;
    var s' := XSwap(s, 1, 1).value;
    assert s'.procs[0] == s.procs[0] && s'.procs[1] == Child(false, 2, Some(0)) && s'.coremap == [Run(8, 33)] && s'.swapmap == [Run(6, 3)];
    assert s'.texts == s.texts[0 := Seg(0, false, true)];
    hide XSwap;
    StepGood(s, SwapOut(1));
  }

  lemma BackView(s: Sys)
    requires View(s, Child(false, 2, Some(0)), Seg(0, false, true), [Run(8, 33)], [Run(6, 3)], 0)
    ensures Enabled(s, SwapBack(1)) && Step(s, SwapBack(1)).Some? && Step(s, SwapBack(1)).value.content == s.content
    ensures View(Step(s, SwapBack(1)).value, Child(true, 33, Some(0)), Seg(1, false, true), [Run(6, 35)], [Run(7, 2)], 0)
  {
    Take(33, 8);
    Take(34, 7);
    GiveBack(2, 6);
    hide Good, Alloc, Put, Get, Join;
    assert Step(s, SwapBack(1)).Some?;
    StepGood(s, SwapBack(1));
  }

  lemma StoreView(s: Sys)
    requires View(s, Child(true, 33, Some(0)), Seg(1, false, true), [Run(6, 35)], [Run(7, 2)], 1) && 0 in s.content
    ensures Enabled(s, Store(0, W1))
    ensures var s' := Step(s, Store(0, W1)).value;
      && View(s', Child(true, 33, Some(0)), Seg(1, false, true), [Run(6, 35)], [Run(7, 2)], 1) && s'.content == s.content
      && Get(s'.core, 34, 1) == [W1] && Get(s'.swap, 1, 1) == s.content[0]
  {
    StepGood(s, Store(0, W1));
    KeptHere(s, 0);
    TextRange(s, 0);
  }

  lemma AfterOne(s: Sys, op: Op, rest: seq<Op>)
    requires Enabled(s, op) && Step(s, op).Some?
    ensures After(s, [op] + rest) == After(Step(s, op).value, rest)
  {
    assert ([op] + rest)[1..] == rest;
  }

  /** The state before the store. */
  lemma Prepared() returns (s: Sys)
    ensures After(Boot(8, 8, U0), BEFORE) == Some(s)
    ensures View(s, Child(true, 33, Some(0)), Seg(1, false, true), [Run(6, 35)], [Run(7, 2)], 1) && 0 in s.content && s.content[0] == [W0]
  {
    hide View, Step, Boot, Enabled, Good, Resume;
    var b := BEFORE;
    var s0 := Boot(8, 8, U0);
    ForkView();
    var s1 := Step(s0, b[0]).value;
    var x0 := TextSeg(false, 0, false, 0, 0, 0, 0, 0, false, false);
    var s2 := Switched(s1, Child(true, 33, None), x0, [Run(7, 34)], [Run(8, 1)], 0, 1);
    EnterView(s2);
    var s3 := Step(s2, b[2]).value;
    ReadView(s3);
    var s4 := Step(s3, b[3]).value;
    var s5 := Switched(s4, Child(true, 33, Some(0)), Seg(1, true, true), [Run(6, 35)], [Run(7, 2)], 1, 0);
    OutView(s5, true);
    var s6 := Step(s5, b[5]).value;
    BackView(s6);
    var s7 := Step(s6, b[6]).value;
    s := Switched(s7, Child(true, 33, Some(0)), Seg(1, false, true), [Run(6, 35)], [Run(7, 2)], 0, 1);
    assert b == [b[0]] + ([b[1]] + ([b[2]] + ([b[3]] + ([b[4]] + ([b[5]] + ([b[6]] + ([b[7]] + [])))))));
    AfterOne(s7, b[7], []);
    AfterOne(s6, b[6], [b[7]] + []);
    AfterOne(s5, b[5], [b[6]] + ([b[7]] + []));
    AfterOne(s4, b[4], [b[5]] + ([b[6]] + ([b[7]] + [])));
    AfterOne(s3, b[3], [b[4]] + ([b[5]] + ([b[6]] + ([b[7]] + []))));
    AfterOne(s2, b[2], [b[3]] + ([b[4]] + ([b[5]] + ([b[6]] + ([b[7]] + [])))));
    AfterOne(s1, b[1], [b[2]] + ([b[3]] + ([b[4]] + ([b[5]] + ([b[6]] + ([b[7]] + []))))));
    AfterOne(s0, b[0], [b[1]] + ([b[2]] + ([b[3]] + ([b[4]] + ([b[5]] + ([b[6]] + ([b[7]] + [])))))));
  }

  lemma Switched(s: Sys, q: Proc, x: TextSeg, cm: seq<Run>, sm: seq<Run>, cur: nat, p: nat) returns (s': Sys)
    requires View(s, q, x, cm, sm, cur) && p < 2 && p != cur && q.load && Alive(q) && (q.text.Some? ==> q.text.value < NTEXT) && cur < 2
    ensures Enabled(s, Switch(p)) && Step(s, Switch(p)) == Some(s') && View(s', q, x, cm, sm, p) && s'.content == s.content
  {
    hide Good, Resume;
    SwitchView(s, q, x, cm, sm, cur, p);
    s' := Resume(s, p);
  }

  /** The run after the store: the text leaves core, and nobody writes into it. */
  lemma SwappedAgain(s: Sys) returns (s': Sys)
    requires View(s, Child(true, 33, Some(0)), Seg(1, false, true), [Run(6, 35)], [Run(7, 2)], 1)
    ensures After(s, AFTER) == Some(s') && Unwritten(s, AFTER, 0) && Leaves(s, AFTER, 0)
    ensures View(s', Child(true, 33, Some(0)), Seg(1, false, true), [Run(6, 35)], [Run(7, 2)], 0)
  {
    hide View, Step, Enabled, Good, Resume;
    var b := AFTER;
    var s1 := Switched(s, Child(true, 33, Some(0)), Seg(1, false, true), [Run(6, 35)], [Run(7, 2)], 1, 0);
    OutView(s1, false);
    var s2 := Step(s1, b[1]).value;
    BackView(s2);
    s' := Step(s2, b[2]).value;
    assert b[1..] == [b[1], b[2]] && b[1..][1..] == [b[2]] && b[1..][1..][1..] == [];
    assert After(s2, [b[2]]) == Some(s') by { AfterOne(s2, b[2], []); assert [b[2]] + [] == [b[2]]; }
    assert After(s1, [b[1], b[2]]) == Some(s') by { AfterOne(s1, b[1], [b[2]]); assert [b[1]] + [b[2]] == [b[1], b[2]]; }
    assert After(s, b) == Some(s') by { AfterOne(s, b[0], [b[1], b[2]]); assert [b[0]] + [b[1], b[2]] == b; }
    assert !TextIn(s2, 0) by { OutOfCore(s2, [Run(8, 33)], [Run(6, 3)]); }
    assert Unwritten(s2, [b[2]], 0) && Leaves(s2, [b[2]], 0);
    assert Unwritten(s1, b[1..], 0) && Leaves(s1, b[1..], 0);
  }

  lemma OutOfCore(s: Sys, cm: seq<Run>, sm: seq<Run>)
    requires View(s, Child(false, 2, Some(0)), Seg(0, false, true), cm, sm, 0)
    ensures !TextIn(s, 0)
  {
  }

  lemma TextThere(s: Sys, cur: nat)
    requires View(s, Child(true, 33, Some(0)), Seg(1, false, true), [Run(6, 35)], [Run(7, 2)], cur)
    ensures Good(s) && TextIn(s, 0) && s.texts[0] == Seg(1, false, true)
  {
    hide Good;
  }

  /** From boot a state is reached in which a process has just stored W1 into its text, and a further swap
      brings the text back without it. */
  lemma LostStore() returns (s: Sys, s': Sys)
    ensures After(Boot(8, 8, U0), BEFORE).Some? && Enabled(After(Boot(8, 8, U0), BEFORE).value, Store(0, W1))
    ensures Step(After(Boot(8, 8, U0), BEFORE).value, Store(0, W1)) == Some(s) && After(s, AFTER) == Some(s')
    ensures TextIn(s, 0) && Get(s.core, s.texts[0].caddr, s.texts[0].size) == [W1]
    ensures TextIn(s', 0) && Get(s'.core, s'.texts[0].caddr, s'.texts[0].size) == [W0]
  {
    hide View, Step, Good, After, Boot, Get, Enabled, Unwritten, Leaves;
    var s0 := Prepared();
    StoreView(s0);
    assert Step(s0, Store(0, W1)).Some? by { StoreHappens(s0); }
    s := Step(s0, Store(0, W1)).value;
    s' := SwappedAgain(s);
    TextThere(s, 1);
    TextThere(s', 0);
    ComesBackIff(s, AFTER, 0);
  }

  lemma StoreHappens(s: Sys)
    requires Enabled(s, Store(0, W1))
    ensures Step(s, Store(0, W1)).Some?
  {
  }
}
