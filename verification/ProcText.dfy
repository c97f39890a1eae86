/** Attaching to a text segment, leaving it, and the end of a process. */
module ProcText {
  import opened Common
  import opened ResourceMap
  import opened Space
  import opened Pages
  import opened ProcMem
  import opened ProcSteps
  import opened ProcSwap
  import opened ProcOps

  /** The text of process p is one of the table. */
  predicate TextInTable(s: Sys, p: nat) {
    p < |s.procs| && (s.procs[p].text.Some? ==> s.procs[p].text.value < |s.texts|)
  }

  // ----- xfree ---------------------------------------------------------------------------------

  /** Process p gives up its place in the count of text t. */
  function Detach(s: Sys, p: nat, t: nat): Sys
    requires p < |s.procs| && t < |s.texts|
  {
    var x := s.texts[t];
    s.(procs := s.procs[p := s.procs[p].(text := None)], texts := s.texts[t := x.(count := if x.count == 0 then 0 else x.count - 1)])
  }

  /** The text entry goes, with its core and its swap space. */
  function Discard(s: Sys, t: nat): Sys
    requires t < |s.texts|
  {
    var x := s.texts[t];
    s.(texts := s.texts[t := x.(used := false)],
       swapmap := Join(s.swapmap, x.size, x.daddr), coremap := Join(s.coremap, x.size, x.caddr))
  }

  /** xfree: the last process of a text that is not sticky takes it along; otherwise one user fewer. */
  function XFree(s: Sys): Sys
    requires TextInTable(s, s.live.procp)
  {
    var p := s.live.procp;
    match s.procs[p].text
    case None => s
    case Some(t) =>
      var d := Detach(s, p, t);
      if d.texts[t].count == 0 && !d.texts[t].sticky then Discard(d, t) else XccDec(d, t)
  }

  lemma {:induction false} DetachKeeps(s: Sys, users: set<nat>, p: nat, t: nat)
    requires Inv(s, users) && p < NPROC && p !in users && Attached(s.procs[p], t)
    ensures Inv(Detach(s, p, t), users)
  {
    hide Shared, Counted, HomesKept, TextsKept, Refs, RefsIn, HomePage, Get;
    var s' := Detach(s, p, t);
    SameHolding(s.coremap, s.lo, |s.core|, CoreHolding(s), CoreHolding(s'));
    SameHolding(s.swapmap, s.slo, |s.swap|, SwapHolding(s), SwapHolding(s'));
    SomeCount(s, users, p, t);
    CountStep(s, s', users, users, p);
    HomesFrame(s, s', Text(t));
    if s.texts[t].ready {
      KeptText(s, t);
    }
    TextsFrame(s, s', Text(t));
  }

  lemma {:induction false} SomeCount(s: Sys, users: set<nat>, p: nat, t: nat)
    requires Geometry(s) && Counted(s, users) && p < NPROC && Attached(s.procs[p], t)
    ensures t < NTEXT && s.texts[t].used && s.texts[t].count == Refs(s.procs, t) > 0
    ensures s.texts[t].ccount == RefsIn(s.procs, users, t) <= s.texts[t].count
    ensures p in users ==> s.texts[t].ccount > 0
  {
    hide Refs, RefsIn;
    assert TextCounted(s.procs, s.texts[t], users, t);
    RefsSome(s.procs, users, p, t);
  }

  lemma DetachLater(s: Sys, p: nat, t: nat)
    requires p < |s.procs| && t < |s.texts|
    ensures Detach(XccDec(s, t), p, t) == XccDec(Detach(s, p, t), t)
  {
    hide Join, Put, Get;
    var a, b := Detach(XccDec(s, t), p, t), XccDec(Detach(s, p, t), t);
    assert a.texts == b.texts;
    assert a.swap == b.swap && a.procs == b.procs && a.coremap == b.coremap;
  }

  /** Leaving a text others use, or that is sticky. */
  lemma {:induction false} LeaveKeeps(s: Sys, users: set<nat>, p: nat, t: nat)
    requires Inv(s, users) && p < NPROC && p in users && Attached(s.procs[p], t)
    ensures t < NTEXT && Inv(XccDec(Detach(s, p, t), t), users)
  {
    SomeCount(s, users, p, t);
    hide CoreShared, SwapShared, Counted, HomesKept, TextsKept, Join, Refs, RefsIn, AtHome;
    var d := XccDec(s, t);
    DropKeeps(s, users, p, t);
    DetachKeeps(d, users - {p}, p, t);
    DetachLater(s, p, t);
    NotCounted(Detach(d, p, t), users - {p}, users, p);
  }

  /** The sole process of a text leaves, and the text goes with it. */
  lemma {:induction false} DiscardShares(s: Sys, users: set<nat>, p: nat, t: nat)
    requires Inv(s, users) && p < NPROC && p in users && Attached(s.procs[p], t) && TextIn(s, t)
    ensures CoreShared(Discard(Detach(s, p, t), t)) && SwapShared(Discard(Detach(s, p, t), t))
  {
    hide Shared, Counted, HomesKept, TextsKept, Join;
    var s', x := Discard(Detach(s, p, t), t), s.texts[t];
    HeldRange(s.coremap, s.lo, |s.core|, CoreHolding(s), Text(t), x.caddr, x.size);
    HeldRange(s.swapmap, s.slo, |s.swap|, SwapHolding(s), Text(t), x.daddr, x.size);
    Give(s.coremap, s.lo, |s.core|, CoreHolding(s), CoreHolding(s'), Text(t), x.caddr, x.size);
    Give(s.swapmap, s.slo, |s.swap|, SwapHolding(s), SwapHolding(s'), Text(t), x.daddr, x.size);
  }

  lemma {:induction false} DiscardKeeps(s: Sys, users: set<nat>, p: nat, t: nat)
    requires Inv(s, users) && p < NPROC && p in users && Attached(s.procs[p], t) && s.texts[t].count == 1
    ensures Inv(Discard(Detach(s, p, t), t), users)
  {
    hide CoreShared, SwapShared, Counted, HomesKept, TextsKept, Join, Refs, RefsIn;
    var s' := Discard(Detach(s, p, t), t);
    SomeCount(s, users, p, t);
    DiscardShares(s, users, p, t);
    CountStep(s, s', users, users, p);
    OnlyUser(s, users, p, t);
    HomesFrame(s, s', Text(t));
    TextsFrame(s, s', Text(t));
  }

  /** When the count is one, nobody else is attached. */
  lemma {:induction false} OnlyUser(s: Sys, users: set<nat>, p: nat, t: nat)
    requires Geometry(s) && Counted(s, users) && p < NPROC && Attached(s.procs[p], t) && s.texts[t].count == 1
    ensures forall i: nat :: i < NPROC && Attached(s.procs[i], t) ==> i == p
  {
    hide Refs, RefsIn;
    SomeCount(s, users, p, t);
    forall i: nat | i < NPROC && Attached(s.procs[i], t) ensures i == p {
      if i != p {
        var q := s.procs[p].(text := None);
        RefsUpdate(s.procs, p, q, users, users, t);
        RefsSome(s.procs[p := q], users, i, t);
      }
    }
  }

  lemma {:induction false} XFreeKeeps(s: Sys, users: set<nat>)
    requires Inv(s, users) && Running(s) && s.live.procp in users
    ensures TextInTable(s, s.live.procp) && Inv(XFree(s), users) && Running(XFree(s))
    ensures XFree(s).procs[s.live.procp] == s.procs[s.live.procp].(text := None)
    ensures forall p: nat :: p < NPROC && p != s.live.procp ==> XFree(s).procs[p] == s.procs[p]
    ensures XFree(s).uhome == s.uhome && XFree(s).live == s.live && XFree(s).core == s.core && XFree(s).home == s.home
  {
    hide CoreShared, SwapShared, Counted, HomesKept, TextsKept, Join, Refs, RefsIn, AtHome;
    var p := s.live.procp;
    if s.procs[p].text.Some? {
      var t := s.procs[p].text.value;
      SomeCount(s, users, p, t);
      if s.texts[t].count == 1 && !s.texts[t].sticky {
        DiscardKeeps(s, users, p, t);
      } else {
        LeaveKeeps(s, users, p, t);
      }
    }
  }

  // ----- exit and wait -------------------------------------------------------------------------

  /** The end of exit: the image is freed, and if the live u-area was its, it has no home any more. */
  function FreeImage(s: Sys): Sys
    requires s.live.procp < |s.procs|
  {
    var p := s.live.procp;
    var q := s.procs[p];
    s.(coremap := Join(s.coremap, q.size, q.addr), uhome := if q.addr == s.uhome then NOUHOME else s.uhome,
       procs := s.procs[p := q.(stat := Zombie)])
  }

  function Exit(s: Sys): Sys
    requires TextInTable(s, s.live.procp)
  {
    FreeImage(XFree(s))
  }

  lemma {:induction false} FreeShares(s: Sys, users: set<nat>)
    requires Inv(s, users) && Running(s)
    ensures CoreShared(FreeImage(s)) && SwapShared(FreeImage(s))
  {
    hide Shared, Counted, HomesKept, TextsKept, Join;
    var s', p := FreeImage(s), s.live.procp;
    ImageRange(s, p);
    Give(s.coremap, s.lo, |s.core|, CoreHolding(s), CoreHolding(s'), Image(p), s.procs[p].addr, s.procs[p].size);
    SameHolding(s.swapmap, s.slo, |s.swap|, SwapHolding(s), SwapHolding(s'));
  }

  lemma {:induction false} ExitKeeps(s: Sys, users: set<nat>)
    requires Inv(s, users) && Running(s) && s.live.procp in users && s.live.procp != 0
    ensures TextInTable(s, s.live.procp) && Inv(Exit(s), users - {s.live.procp}) && Exit(s).uhome == NOUHOME
  {
    hide CoreShared, SwapShared, Counted, HomesKept, TextsKept, Join, XFree;
    var p := s.live.procp;
    XFreeKeeps(s, users);
    var f, s' := XFree(s), Exit(s);
    FreeShares(f, users);
    CountStep(f, s', users, users - {p}, p);
    HomesFrame(f, s', Image(p));
    TextsFrame(f, s', Image(p));
  }

  /** wait: the slot of a zombie is free again. */
  function Reap(s: Sys, z: nat): Sys
    requires z < |s.procs|
  {
    s.(procs := s.procs[z := s.procs[z].(stat := Null)])
  }

  lemma {:induction false} ReapKeeps(s: Sys, users: set<nat>, z: nat)
    requires Inv(s, users) && z < NPROC && s.procs[z].stat == Zombie
    ensures Inv(Reap(s, z), users)
  {
    hide Shared, Counted, HomesKept, TextsKept;
    var s' := Reap(s, z);
    SameHolding(s.coremap, s.lo, |s.core|, CoreHolding(s), CoreHolding(s'));
    SameHolding(s.swapmap, s.slo, |s.swap|, SwapHolding(s), SwapHolding(s'));
    CountStep(s, s', users, users, z);
    HomesFrame(s, s', Image(z));
    TextsFrame(s, s', Image(z));
  }
}
