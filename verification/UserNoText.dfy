/** A run from boot after which exec() finds no entry for a text. */
module UserNoText {
  import opened Common
  import opened ResourceMap
  import opened Space
  import opened Pages
  import opened ProcMem
  import opened ProcSteps
  import opened ProcSwap
  import opened ProcOps
  import opened ProcText
  import opened ProcExec
  import opened ProcRun
  import opened ProcLaws
  import opened UserMap
  import opened UserFit
  import opened UserExec
  import ProcLost
  import ProcCrowd

  /** Process 1 runs without a text; the first i texts are files 0 to i - 1, of one page, sticky and not in core. */
  ghost predicate Shelved(s: Sys, i: nat) {
    && Good(s) && |s.procs| == NPROC && |s.texts| == NTEXT && i <= NTEXT && s.live.procp == 1
    && s.procs[1] == Proc(Runs, true, 33, 1, None) && s.coremap == [Run(7, 34)] && s.swapmap == [Run(48 - i, 1 + i)]
    && (forall t: nat :: t < NTEXT ==> (s.texts[t].used <==> t < i))
    && (forall t: nat :: t < i ==> s.texts[t].inode == t)
  }

  lemma {:induction false} FirstUnused(x: seq<TextSeg>, i: nat)
    requires i <= |x| && (i < |x| ==> !x[i].used) && forall t: nat :: t < i ==> x[t].used
    ensures Unused(x) == i
  {
    if i > 0 { FirstUnused(x[1..], i - 1); }
  }

  lemma {:induction false} NotFound(x: seq<TextSeg>, ip: nat)
    requires forall t: nat :: t < |x| ==> !(x[t].used && x[t].inode == ip)
    ensures Lookup(x, ip) == |x|
  {
    if x != [] { NotFound(x[1..], ip); }
  }

  lemma GetsPage(s: Sys, i: nat) returns (s': Sys)
    requires TextInTable(s, s.live.procp) && i < |s.texts| && s.coremap == [Run(7, 34)] && s.texts[i].size == 1 && s.texts[i].ccount == 0 && !s.texts[i].ready
    ensures Enter(s, i) == Some(s') && s' == s.(coremap := [Run(6, 35)], texts := s.texts[i := s.texts[i].(caddr := 34, ccount := 1)], touched := s'.touched)
  {
    ProcLost.Take(34, 7);
    hide Alloc, XSwap;
    s' := UseText(s, i).value;
  }

  /** The new entry is made and the text given a page of core. */
  lemma {:induction false} Enters(s: Sys, i: nat) returns (s': Sys)
    requires Good(s) && |s.procs| == NPROC && |s.texts| == NTEXT && i < NTEXT && s.live.procp == 1
    requires s.procs[1] == Proc(Runs, true, 33, 1, None) && s.coremap == [Run(7, 34)] && s.swapmap == [Run(48 - i, 1 + i)]
    requires Lookup(s.texts, i) == NTEXT && Unused(s.texts) == i
    ensures Enabled(s, EnterText(i, true, 1)) && Step(s, EnterText(i, true, 1)) == Some(s')
    ensures Good(s') && s'.live == s.live && s'.procs == s.procs[1 := s.procs[1].(text := Some(i))]
    ensures s'.coremap == [Run(6, 35)] && s'.swapmap == [Run(47 - i, 2 + i)]
    ensures s'.texts == s.texts[i := TextSeg(true, i, true, 1, 1, 1 + i, 34, 1, false, false)]
  {
    hide Good, Alloc, Lookup, Unused, Enter;
    var op := EnterText(i, true, 1);
    ProcLost.Take(1 + i, 48 - i);
    var a := Attach(NewText(s, i, i, true, 1).value, 1, i);
    assert a.texts == s.texts[i := TextSeg(true, i, true, 1, 0, 1 + i, s.texts[i].caddr, 1, false, false)];
    s' := GetsPage(a, i);
    assert Step(s, op) == Some(s');
    StepGood(s, op);
  }

  /** Leaving it gives the page back. */
  lemma {:induction false} Leaves(s: Sys, i: nat) returns (s': Sys)
    requires Good(s) && |s.procs| == NPROC && |s.texts| == NTEXT && i < NTEXT && s.live.procp == 1
    requires s.procs[1] == Proc(Runs, true, 33, 1, Some(i)) && s.coremap == [Run(6, 35)]
    requires s.texts[i] == TextSeg(true, i, true, 1, 1, 1 + i, 34, 1, false, false)
    ensures Enabled(s, LeaveText) && Step(s, LeaveText) == Some(s')
    ensures Good(s') && s'.live == s.live && s'.procs == s.procs[1 := s.procs[1].(text := None)]
    ensures s'.coremap == [Run(7, 34)] && s'.swapmap == s.swapmap && s'.texts == s.texts[i := s.texts[i].(count := 0, ccount := 0)]
  {
    ProcLost.GiveBack(34, 6);
    hide Good, Join, Put, Get;
    s' := Step(s, LeaveText).value;
    StepGood(s, LeaveText);
  }

  lemma {:induction false} Shelves(s: Sys, i: nat) returns (s1: Sys, s': Sys)
    requires Shelved(s, i) && i < NTEXT
    ensures Enabled(s, EnterText(i, true, 1)) && Step(s, EnterText(i, true, 1)) == Some(s1)
    ensures Enabled(s1, LeaveText) && Step(s1, LeaveText) == Some(s') && Shelved(s', i + 1)
  {
    hide Good, Enabled, Step, Lookup, Unused;
    NotFound(s.texts, i);
    FirstUnused(s.texts, i);
    s1 := Enters(s, i);
    s' := Leaves(s1, i);
    assert s'.procs[1] == s.procs[1];
  }

  lemma {:induction false} Filled(i: nat) returns (ops: seq<Op>, s: Sys)
    requires i <= NTEXT
    ensures After(Boot(8, 48, ProcCrowd.U(0)), ops) == Some(s) && Shelved(s, i)
  {
    hide Good, Shelved, Step, Enabled, After, Boot;
    var b := Boot(8, 48, ProcCrowd.U(0));
    if i == 0 {
      ops, s := Begins();
    } else {
      var o, s0 := Filled(i - 1);
      var s1, s2 := Shelves(s0, i - 1);
      ProcCrowd.AfterMore(b, o, EnterText(i - 1, true, 1));
      ProcCrowd.AfterMore(b, o + [EnterText(i - 1, true, 1)], LeaveText);
      ops, s := o + [EnterText(i - 1, true, 1)] + [LeaveText], s2;
    }
  }

  lemma {:induction false} Begins() returns (ops: seq<Op>, s: Sys)
    ensures After(Boot(8, 48, ProcCrowd.U(0)), ops) == Some(s) && Shelved(s, 0)
  {
    var b := Boot(8, 48, ProcCrowd.U(0));
    BootGood(8, 48, ProcCrowd.U(0));
    ProcCrowd.NoOps(b);
    var s1 := ForkFirst(b);
    hide Good, Step, Enabled, After, Resume;
    ProcCrowd.AfterMore(b, [], Fork(1, ProcCrowd.U(0)));
    s := SwitchFirst(s1);
    ProcCrowd.AfterMore(b, [] + [Fork(1, ProcCrowd.U(0))], Switch(1));
    ops := [] + [Fork(1, ProcCrowd.U(0))] + [Switch(1)];
  }

  lemma {:induction false} ForkFirst(b: Sys) returns (s: Sys)
    requires b == Boot(8, 48, ProcCrowd.U(0))
    ensures Enabled(b, Fork(1, ProcCrowd.U(0))) && Step(b, Fork(1, ProcCrowd.U(0))) == Some(s)
    ensures Good(s) && |s.procs| == NPROC && s.procs[1] == Proc(Runs, true, 33, 1, None) && s.live.procp == 0
    ensures s.coremap == [Run(7, 34)] && s.swapmap == b.swapmap && s.texts == b.texts && s.procs[0] == b.procs[0]
  {
    BootGood(8, 48, ProcCrowd.U(0));
    ProcLost.Take(33, 8);
    var op := Fork(1, ProcCrowd.U(0));
    hide Good, Alloc, Put, Get;
    assert Step(b, op).Some?;
    s := Step(b, op).value;
    StepGood(b, op);
  }

  lemma {:induction false} SwitchFirst(s: Sys) returns (s': Sys)
    requires Good(s) && |s.procs| == NPROC && s.procs[1] == Proc(Runs, true, 33, 1, None) && s.live.procp == 0
    requires s.procs[0] == Proc(Runs, true, 32, 1, None) && s.coremap == [Run(7, 34)] && s.swapmap == [Run(48, 1)]
    requires |s.texts| == NTEXT && forall t: nat :: t < NTEXT ==> !s.texts[t].used
    ensures Enabled(s, Switch(1)) && Step(s, Switch(1)) == Some(s') && Shelved(s', 0)
  {
    ResumeKeeps(s, Loaded(s), 1);
    StepGood(s, Switch(1));
    hide Good, Put, Get;
    s' := Resume(s, 1);
  }

  /** Forty sticky texts fill the table; exec of a forty-first, of one page, leaves a process whose sizes say
      it has a text, and which has none. */
  lemma {:induction false} ExecUnfit() returns (ops: seq<Op>, s: Sys)
    ensures After(Boot(8, 48, ProcCrowd.U(0)), ops) == Some(s) && Good(s) && Running(s) && s.live.procp == 1 && TextInTable(s, 1)
    ensures !Entry(s, NTEXT)
    ensures var c := Commit(s, 1, 0, 0, 0);
      c.Some? && c.value.live.procp == 1 < |c.value.procs| && Obtain(c.value, NTEXT, false, 1) == c && !Fitted(Sizes(c.value, 1, 0, 0), 1)
  {
    hide Good, After, Boot;
    ops, s := Filled(NTEXT);
    hide Join;
    NotFound(s.texts, NTEXT);
    FirstUnused(s.texts, NTEXT);
    assert Join(s.coremap, 0, 34) == s.coremap by { JoinNothing(s.coremap, 34); }
    assert Commit(s, 1, 0, 0, 0).Some?;
  }

  lemma JoinNothing(e: seq<Run>, a: nat)
    ensures Join(e, 0, a) == e
  {
  }
}
