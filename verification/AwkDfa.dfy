/** cgotofn and match of cmd/awk/b.c: the subset construction and the automaton it leaves behind. */
module AwkDfa {
  import opened Common
  import opened AwkRegexp
  import opened AwkSubset
  import opened AwkPositions

  const NSTATES: nat := 112

  // ----- the automaton -------------------------------------------------------------------------

  /** One state's block of struct fa: cch is -1 in a final state and the number of transitions
      otherwise; trans pairs each symbol with the number of the state it leads to. */
  datatype Fa = Fa(cch: int, trans: seq<(nat, nat)>)

  /** The state c leads to: the search runs from the last transition down, and finding none falls
      through to the header, which leads to state 0. */
  function Target(trans: seq<(nat, nat)>, c: nat): nat {
    if trans == [] then 0
    else if trans[|trans| - 1].0 == c then trans[|trans| - 1].1
    else Target(trans[..|trans| - 1], c)
  }

  lemma {:induction false} TargetPush(trans: seq<(nat, nat)>, d: nat, t: nat, c: nat)
    ensures Target(trans + [(d, t)], c) == if c == d then t else Target(trans, c)
  {
    assert (trans + [(d, t)])[..|trans|] == trans;
  }

  lemma {:induction false} TargetOutside(trans: seq<(nat, nat)>, c: nat)
    requires forall e :: e in trans ==> e.0 != c
    ensures Target(trans, c) == 0
    decreases |trans|
  {
    if trans != [] {
      assert trans[|trans| - 1] in trans;
      TargetOutside(trans[..|trans| - 1], c);
    }
  }

  lemma {:induction false} TargetBound(trans: seq<(nat, nat)>, c: nat, n: nat)
    requires 0 < n && forall e :: e in trans ==> e.1 < n
    ensures Target(trans, c) < n
    decreases |trans|
  {
    if trans != [] {
      assert trans[|trans| - 1] in trans;
      TargetBound(trans[..|trans| - 1], c, n);
    }
  }

  predicate WellFormed(dfa: seq<Fa>) {
    && 0 < |dfa|
    && forall s :: 0 <= s < |dfa| ==>
         && (dfa[s].cch == -1 || dfa[s].cch == |dfa[s].trans|)
         && forall e :: e in dfa[s].trans ==> IsByte(e.0) && e.1 < |dfa|
  }

  /** Some prefix of w drives the automaton from state s into a final state. */
  predicate Runs(dfa: seq<Fa>, s: nat, w: seq<nat>)
    requires WellFormed(dfa) && s < |dfa|
    decreases |w|
  {
    dfa[s].cch < 0 || (
      w != [] &&
      (TargetBound(dfa[s].trans, w[0], |dfa|);
       Runs(dfa, Target(dfa[s].trans, w[0]), w[1..])))
  }

  // ----- what makes it an automaton for p ------------------------------------------------------

  /** Row s of the table is right for the stored set qs[s], which leaves the initial positions
      implicit in every state but 0. */
  ghost predicate GoodRow(p: Re, qs: seq<set<nat>>, s: nat, fa: Fa)
    requires s < |qs|
  {
    if Line(p) in qs[s] then fa.cch == -1 && fa.trans == []
    else
      && fa.cch == |fa.trans|
      && (forall e :: e in fa.trans ==> IsByte(e.0) && e.1 < |qs|)
      && (forall c :: IsByte(c) ==>
            && Target(fa.trans, c) < |qs|
            && qs[Target(fa.trans, c)] + Initial(p) == Next(p, qs[s] + Initial(p), c))
  }

  ghost predicate Recognises(p: Re, dfa: seq<Fa>, qs: seq<set<nat>>) {
    && |dfa| == |qs| > 0 && qs[0] == Initial(p)
    && forall s :: 0 <= s < |dfa| ==> GoodRow(p, qs, s, dfa[s])
  }

  predicate Bytes(w: seq<nat>) {
    forall i :: 0 <= i < |w| ==> IsByte(w[i])
  }

  lemma RecognisesWellFormed(p: Re, dfa: seq<Fa>, qs: seq<set<nat>>)
    requires Recognises(p, dfa, qs)
    ensures WellFormed(dfa)
  {
    forall s | 0 <= s < |dfa|
      ensures dfa[s].cch == -1 || dfa[s].cch == |dfa[s].trans|
      ensures forall e :: e in dfa[s].trans ==> IsByte(e.0) && e.1 < |dfa|
    {
      assert GoodRow(p, qs, s, dfa[s]);
    }
  }

  /** Dropping the initial positions from the stored states loses nothing. */
  lemma {:induction false} RunsIsHits(p: Re, dfa: seq<Fa>, qs: seq<set<nat>>, s: nat, w: seq<nat>)
    requires Recognises(p, dfa, qs) && WellFormed(dfa) && s < |dfa| && Bytes(w)
    requires Line(p) !in Initial(p)
    ensures Runs(dfa, s, w) <==> Hits(p, qs[s] + Initial(p), w)
    decreases |w|
  {
    assert GoodRow(p, qs, s, dfa[s]);
    if w != [] && Line(p) !in qs[s] {
      var t := Target(dfa[s].trans, w[0]);
      RunsIsHits(p, dfa, qs, t, w[1..]);
    }
  }

  /** The automaton decides whether a word of p occurs anywhere in w. */
  lemma AutomatonDecides(p: Re, dfa: seq<Fa>, qs: seq<set<nat>>, w: seq<nat>)
    requires Recognises(p, dfa, qs) && WellFormed(dfa) && Bytes(w)
    ensures Runs(dfa, 0, w) <==> exists i, k :: 0 <= i <= k <= |w| && Lang(p, w[i..k])
  {
    HitsDecidesOccurrence(p, w);
    assert GoodRow(p, qs, 0, dfa[0]);
    if Line(p) !in Initial(p) {
      RunsIsHits(p, dfa, qs, 0, w);
      assert qs[0] + Initial(p) == Initial(p);
    }
  }

  // ----- match ---------------------------------------------------------------------------------

  /** The character under the pointer: the string's own, then its terminating NUL. */
  function CharAt(s: seq<nat>, i: nat): nat
    requires i <= |s|
  {
    if i < |s| then s[i] else 0
  }

  /** The inner loop of match: find the transition on c, or the header. */
  method Advance(fa: Fa, c: nat) returns (t: nat)
    requires fa.cch == |fa.trans|
    ensures t == Target(fa.trans, c)
  {
    var count := fa.cch;
    assert fa.trans[..count] == fa.trans;
    while count != 0
      invariant 0 <= count <= |fa.trans|
      invariant Target(fa.trans, c) == Target(fa.trans[..count], c)
    {
      assert fa.trans[..count][..count - 1] == fa.trans[..count - 1];
      if fa.trans[count - 1].0 == c {
        return fa.trans[count - 1].1;
      }
      count := count - 1;
    }
    assert fa.trans[..0] == [];
    t := 0;
  }

  /** match(pfa, p) on the automaton's start state; a null string never matches. */
  method Match(dfa: seq<Fa>, str: Option<seq<nat>>) returns (r: bool)
    requires WellFormed(dfa)
    requires str.Some? ==> Bytes(str.value)
    ensures str.None? ==> !r
    ensures str.Some? ==> (r <==> Runs(dfa, 0, str.value))
  {
    if str.None? {
      return false;
    }
    var s := str.value;
    var pfa, i := 0, 0;
    if dfa[0].cch == 1 {
      // one transition: nothing happens before its symbol turns up
      var c, hit := dfa[0].trans[0].0, dfa[0].trans[0].1;
      assert dfa[0].trans[0] in dfa[0].trans;
      while true
        invariant 0 <= i <= |s| && Runs(dfa, 0, s) == Runs(dfa, 0, s[i..])
        decreases |s| - i
      {
        OneTransition(dfa, s, i);
        if c == CharAt(s, i) {
          break;
        }
        if CharAt(s, i) == 0 {
          return false;
        }
        i := i + 1;
      }
      i, pfa := i + 1, hit;
    }
    if dfa[pfa].cch < 0 {
      return true;
    }
    assert s[0..] == s;
    while true
      invariant 0 <= i <= |s| && pfa < |dfa| && dfa[pfa].cch >= 0 && dfa[0].cch >= 0
      invariant Runs(dfa, 0, s) == Runs(dfa, pfa, s[i..])
      decreases |s| - i
    {
      var c := CharAt(s, i);
      var t := Advance(dfa[pfa], c);
      TargetBound(dfa[pfa].trans, c, |dfa|);
      if i == |s| {
        TargetOutside(dfa[pfa].trans, 0);
      } else {
        assert s[i..][1..] == s[i + 1..];
      }
      pfa := t;
      if dfa[pfa].cch < 0 {
        return true;
      }
      if c == 0 {
        return false;
      }
      i := i + 1;
    }
  }

  /** With a single transition every other symbol leads back to state 0. */
  lemma OneTransition(dfa: seq<Fa>, s: seq<nat>, i: nat)
    requires WellFormed(dfa) && dfa[0].cch == 1 && i <= |s| && Bytes(s)
    ensures dfa[0].trans[0] in dfa[0].trans
    ensures i == |s| ==> !Runs(dfa, 0, s[i..])
    ensures i < |s| && s[i] != dfa[0].trans[0].0 ==> Runs(dfa, 0, s[i..]) == Runs(dfa, 0, s[i + 1..])
    ensures i < |s| && s[i] == dfa[0].trans[0].0 ==> Runs(dfa, 0, s[i..]) == Runs(dfa, dfa[0].trans[0].1, s[i + 1..])
  {
    var tr := dfa[0].trans;
    assert tr[..|tr| - 1] == [];
    if i < |s| {
      assert s[i..][1..] == s[i + 1..];
      assert Target(tr, s[i]) == if s[i] == tr[0].0 then tr[0].1 else 0;
    }
  }

  // ----- cgotofn -------------------------------------------------------------------------------

  /** The symbols a leaf contributes transitions on. */
  predicate SymbolOf(leaf: Leaf, k: nat) {
    IsByte(k) && Matches(leaf, k)
  }

  ghost predicate Distinct(s: seq<nat>) {
    forall i, j :: 0 <= i < j < |s| ==> s[i] != s[j]
  }

  /** ssyms lists, once each, the symbols flagged in skip or in mark. */
  ghost predicate Tracks(ssyms: seq<nat>, skip: seq<bool>, mark: seq<bool>) {
    && |skip| == NCHARS && |mark| == NCHARS && Distinct(ssyms)
    && forall k: nat :: k in ssyms <==> k < NCHARS && (skip[k] || mark[k])
  }

  method AddSymbol(k: nat, skip: seq<bool>, mark: seq<bool>, ssyms: seq<nat>)
    returns (mark': seq<bool>, ssyms': seq<nat>)
    requires Tracks(ssyms, skip, mark) && k < NCHARS
    ensures Tracks(ssyms', skip, mark')
    ensures mark' == if skip[k] then mark else mark[k := true]
  {
    mark', ssyms' := mark, ssyms;
    if !skip[k] && !mark[k] {
      mark', ssyms' := mark[k := true], ssyms + [k];
    }
    assert !skip[k] ==> mark' == mark[k := true];
  }

  /** Flag and list the symbols of a leaf that are not yet known. */
  method Collect(leaf: Leaf, skip: seq<bool>, mark: seq<bool>, ssyms: seq<nat>)
    returns (mark': seq<bool>, ssyms': seq<nat>)
    requires AnchorFree(Sym(leaf)) && Tracks(ssyms, skip, mark)
    ensures Tracks(ssyms', skip, mark')
    ensures forall k :: 0 <= k < NCHARS ==> mark'[k] == (mark[k] || (SymbolOf(leaf, k) && !skip[k]))
  {
    mark', ssyms' := mark, ssyms;
    match leaf {
      case Char(c) =>
        mark', ssyms' := AddSymbol(c, skip, mark', ssyms');
      case Ccl(s) =>
        var i := 0;
        while i < |s|
          invariant 0 <= i <= |s| && Tracks(ssyms', skip, mark')
          invariant forall k :: 0 <= k < NCHARS ==> mark'[k] == (mark[k] || (k in s[..i] && !skip[k]))
        {
          assert s[i] in s && s[..i + 1] == s[..i] + [s[i]];
          if s[i] != HAT {
            mark', ssyms' := AddSymbol(s[i], skip, mark', ssyms');
          }
          i := i + 1;
        }
        assert s[..i] == s;
      case _ =>
        // DOT and NCCL
        var j := 1;
        while j < NCHARS
          invariant 1 <= j <= NCHARS && Tracks(ssyms', skip, mark')
          invariant forall k :: 0 <= k < NCHARS ==> mark'[k] == (mark[k] || (k < j && SymbolOf(leaf, k) && !skip[k]))
        {
          if j != HAT && Matches(leaf, j) {
            mark', ssyms' := AddSymbol(j, skip, mark', ssyms');
          }
          j := j + 1;
        }
    }
  }

  /** What the follow-set phase leaves behind: the node of each position, and its follow list. */
  ghost predicate Prepared(p: Re, node: seq<Re>, foll: seq<seq<nat>>) {
    && AnchorFree(p)
    && |node| == Line(p) + 1 && node[Line(p)].Final?
    && (forall i: nat :: Within(p, 1, i) ==> node[i] == Sym(LeafAt(p, 1, i)))
    && |foll| >= Line(p) && Lists(foll[0], Initial(p))
    && (forall i: nat :: Within(p, 1, i) ==> Lists(foll[i], Foll(p, i)))
  }

  ghost predicate Positions(p: Re, ts: set<nat>) {
    forall i :: i in ts ==> 1 <= i <= Line(p)
  }

  ghost function Elems(l: seq<nat>): set<nat> {
    set x | x in l
  }

  lemma ElemsPush(l: seq<nat>, k: nat)
    requires k < |l|
    ensures Elems(l[..k + 1]) == Elems(l[..k]) + {l[k]}
  {
    assert l[..k + 1] == l[..k] + [l[k]];
  }

  lemma ElemsEnds(l: seq<nat>)
    ensures Elems(l[..0]) == {} && Elems(l[..|l|]) == Elems(l)
  {
    assert l[..|l|] == l;
  }

  lemma ElemsOfList(l: seq<nat>, s: set<nat>)
    requires Lists(l, s)
    ensures Elems(l) == s
  {
  }

  /** Some position of ts has c among its symbols. */
  ghost predicate Wanted(p: Re, ts: set<nat>, c: nat) {
    exists i :: i in ts && Within(p, 1, i) && SymbolOf(LeafAt(p, 1, i), c)
  }

  lemma AnchorFreeLeaf(p: Re, b: nat, i: nat)
    requires AnchorFree(p) && Within(p, b, i)
    ensures AnchorFree(Sym(LeafAt(p, b, i)))
  {
  }

  /** Symbols of the positions listed in l, on top of those already flagged. */
  method CollectAll(ghost p: Re, node: seq<Re>, ghost foll: seq<seq<nat>>, l: seq<nat>, ghost ts: set<nat>,
                    skip: seq<bool>, mark: seq<bool>, ssyms: seq<nat>)
    returns (mark': seq<bool>, ssyms': seq<nat>)
    requires Prepared(p, node, foll) && Lists(l, ts) && Positions(p, ts) && Tracks(ssyms, skip, mark)
    ensures Tracks(ssyms', skip, mark')
    ensures forall k :: 0 <= k < NCHARS ==> mark'[k] == (mark[k] || (Wanted(p, ts, k) && !skip[k]))
  {
    mark', ssyms' := mark, ssyms;
    var i := 0;
    while i < |l|
      invariant 0 <= i <= |l| && Tracks(ssyms', skip, mark')
      invariant forall k :: 0 <= k < NCHARS ==>
                  mark'[k] == (mark[k] || (Wanted(p, Elems(l[..i]), k) && !skip[k]))
    {
      var curpos := l[i];
      assert curpos in ts;
      ghost var before, after := Elems(l[..i]), Elems(l[..i + 1]);
      assert after == before + {curpos} by {
        assert l[..i + 1] == l[..i] + [curpos];
      }
      WantedMore(p, before, curpos);
      match node[curpos] {
        case Sym(leaf) =>
          assert Within(p, 1, curpos);
          AnchorFreeLeaf(p, 1, curpos);
          mark', ssyms' := Collect(leaf, skip, mark', ssyms');
        case _ =>
      }
      i := i + 1;
    }
    assert Elems(l[..i]) == ts by {
      assert l[..i] == l;
    }
  }

  lemma WantedMore(p: Re, ts: set<nat>, i: nat)
    ensures forall c :: Wanted(p, ts + {i}, c) <==>
              Wanted(p, ts, c) || (Within(p, 1, i) && SymbolOf(LeafAt(p, 1, i), c))
  {
    forall c ensures Wanted(p, ts + {i}, c) <==>
               Wanted(p, ts, c) || (Within(p, 1, i) && SymbolOf(LeafAt(p, 1, i), c)) {
      if Wanted(p, ts, c) {
        var j :| j in ts && Within(p, 1, j) && SymbolOf(LeafAt(p, 1, j), c);
        assert j in ts + {i};
      }
      if Within(p, 1, i) && SymbolOf(LeafAt(p, 1, i), c) {
        assert i in ts + {i};
      }
    }
  }

  ghost predicate Flags(p: Re, iposns: seq<bool>) {
    |iposns| == Line(p) + 1 && forall i: nat :: i <= Line(p) ==> (iposns[i] <==> i in Initial(p))
  }

  lemma FollPositions(p: Re)
    ensures Positions(p, Initial(p))
    ensures forall i: nat :: Within(p, 1, i) ==> Positions(p, Foll(p, i))
  {
  }

  lemma OneMore(m: set<nat>, e: set<nat>, x: nat, init: set<nat>)
    ensures m + ((e + {x}) - init) == if x in init then m + (e - init) else m + (e - init) + {x}
  {
  }

  /** Mark the positions of a follow list that are not initial. */
  method MarkFollow(ghost p: Re, l: seq<nat>, ghost fs: set<nat>, iposns: seq<bool>, ps: PosSet)
    requires Lists(l, fs) && Positions(p, fs) && Flags(p, iposns) && ps.Valid() && ps.line == Line(p)
    modifies ps.setvec, ps`setcnt
    ensures ps.Marked() == old(ps.Marked()) + (fs - Initial(p))
    ensures ps.setcnt - |ps.Marked()| == old(ps.setcnt - |ps.Marked()|)
  {
    ListedPositions(p, l, fs, iposns);
    hide *;
    ghost var m, init, extra := ps.Marked(), Initial(p), ps.setcnt - |ps.Marked()|;
    ghost var seen := {};
    var k := 0;
    while k < |l|
      invariant 0 <= k <= |l| && ps.line == Line(p) && ps.Valid()
      invariant seen == Elems(l[..k])
      invariant ps.Marked() == m + (seen - init) && ps.setcnt - |ps.Marked()| == extra
    {
      ElemsPush(l, k);
      OneMore(m, seen, l[k], init);
      if !iposns[l[k]] {
        ps.Mark(l[k]);
      }
      seen := seen + {l[k]};
      k := k + 1;
    }
  }

  lemma ListedPositions(p: Re, l: seq<nat>, fs: set<nat>, iposns: seq<bool>)
    requires Lists(l, fs) && Positions(p, fs) && Flags(p, iposns)
    ensures forall k :: 0 <= k < |l| ==> l[k] <= Line(p) && l[k] < |iposns| && (iposns[l[k]] <==> l[k] in Initial(p))
    ensures Elems(l[..0]) == {} && Elems(l[..|l|]) == fs
  {
    assert forall k :: 0 <= k < |l| ==> l[k] in fs;
    ElemsEnds(l);
    ElemsOfList(l, fs);
  }

  /** What position i alone leads to on c. */
  function Foll'(p: Re, i: nat, c: nat): set<nat> {
    if Takes(p, i, c) then Foll(p, i) else {}
  }

  lemma MinusBoth(a: set<nat>, b: set<nat>, i: set<nat>)
    ensures (a + b) - i == (a - i) + (b - i)
  {
  }

  lemma {:induction false} StepMore(p: Re, ts: set<nat>, i: nat, c: nat)
    ensures Step(p, ts + {i}, c) == Step(p, ts, c) + Foll'(p, i, c)
  {
    var more := Foll'(p, i, c);
    forall j | j in Step(p, ts + {i}, c) ensures j in Step(p, ts, c) + more {
      var q :| q in ts + {i} && Takes(p, q, c) && j in Foll(p, q);
    }
  }

  /** Positions that follow position q on c, initial ones left out, join the set being built. */
  method FollowOne(ghost p: Re, node: seq<Re>, foll: seq<seq<nat>>, q: nat, iposns: seq<bool>, c: nat, ps: PosSet,
                   ghost ts: set<nat>)
    requires Prepared(p, node, foll) && Flags(p, iposns) && 1 <= q <= Line(p)
    requires ps.Valid() && ps.line == Line(p)
    requires ps.Marked() == Step(p, ts, c) - Initial(p) && ps.setcnt == |ps.Marked()|
    modifies ps.setvec, ps`setcnt
    ensures ps.Marked() == Step(p, ts + {q}, c) - Initial(p) && ps.setcnt == |ps.Marked()|
  {
    TakesAt(p, node, foll, q, c);
    StepMore(p, ts, q, c);
    MinusBoth(Step(p, ts, c), Foll'(p, q, c), Initial(p));
    hide *;
    if node[q].Sym? && Matches(node[q].leaf, c) {
      MarkFollow(p, foll[q], Foll(p, q), iposns, ps);
    }
  }

  lemma TakesAt(p: Re, node: seq<Re>, foll: seq<seq<nat>>, q: nat, c: nat)
    requires Prepared(p, node, foll) && 1 <= q <= Line(p)
    ensures q < |node| && Foll'(p, q, c) == if node[q].Sym? && Matches(node[q].leaf, c) then Foll(p, q) else {}
    ensures node[q].Sym? ==> Within(p, 1, q) && q < |foll| && Lists(foll[q], Foll(p, q)) && Positions(p, Foll(p, q))
  {
  }

  /** nextstate(s, c): the non-initial positions that can follow one of sposns on c. */
  method NextState(ghost p: Re, node: seq<Re>, foll: seq<seq<nat>>, sposns: seq<nat>, iposns: seq<bool>,
                   inset: seq<bool>, c: nat, ps: PosSet) returns (inset': seq<bool>)
    requires Prepared(p, node, foll) && Flags(p, iposns) && Positions(p, Elems(sposns))
    requires |inset| == Line(p) + 1 && ps.Valid() && ps.line == Line(p)
    modifies ps.setvec, ps`setcnt
    ensures ps.Marked() == Step(p, Elems(sposns), c) - Initial(p) && ps.setcnt == |ps.Marked()|
    ensures Cleared(inset, inset', sposns, |sposns|)
  {
    NextStateFacts(p, sposns, c);
    hide *;
    ps.Clear(0);
    inset' := inset;
    ghost var seen := {};
    var i := 0;
    NoneCleared(inset, sposns);
    while i < |sposns|
      invariant 0 <= i <= |sposns| && |inset'| == |inset| && seen == Elems(sposns[..i])
      invariant ps.Marked() == Step(p, seen, c) - Initial(p) && ps.setcnt == |ps.Marked()|
      invariant Cleared(inset, inset', sposns, i)
    {
      var q := sposns[i];
      ElemsPush(sposns, i);
      ClearOne(inset, inset', sposns, i);
      inset' := inset'[q := false];
      FollowOne(p, node, foll, q, iposns, c, ps, seen);
      seen := seen + {q};
      i := i + 1;
    }
  }

  lemma NextStateFacts(p: Re, sposns: seq<nat>, c: nat)
    requires Positions(p, Elems(sposns))
    ensures Elems(sposns[..0]) == {} && Elems(sposns[..|sposns|]) == Elems(sposns)
    ensures Step(p, {}, c) == {}
    ensures forall k :: 0 <= k < |sposns| ==> 1 <= sposns[k] <= Line(p)
  {
    ElemsEnds(sposns);
    forall k | 0 <= k < |sposns| ensures 1 <= sposns[k] <= Line(p) {
      assert sposns[k] in Elems(sposns);
    }
  }

  /** inset' is inset with the flags of the first n positions of l put out. */
  ghost predicate Cleared(inset: seq<bool>, inset': seq<bool>, l: seq<nat>, n: nat)
    requires n <= |l|
  {
    |inset| == |inset'| && forall i :: 0 <= i < |inset| ==> inset'[i] == (inset[i] && i !in l[..n])
  }

  lemma NoneCleared(inset: seq<bool>, l: seq<nat>)
    ensures Cleared(inset, inset, l, 0)
  {
  }

  lemma ClearOne(inset: seq<bool>, inset': seq<bool>, l: seq<nat>, n: nat)
    requires n < |l| && Cleared(inset, inset', l, n) && |inset'| == |inset| && l[n] < |inset|
    ensures Cleared(inset, inset'[l[n] := false], l, n + 1)
  {
    assert l[..n + 1] == l[..n] + [l[n]];
  }

  // ----- the states found so far ---------------------------------------------------------------

  /** The positions active after w has been read. */
  function Drive(p: Re, w: seq<nat>): set<nat> {
    if w == [] then Initial(p) else Next(p, Drive(p, w[..|w| - 1]), w[|w| - 1])
  }

  lemma {:induction false} DrivePush(p: Re, w: seq<nat>, c: nat)
    ensures Drive(p, w + [c]) == Next(p, Drive(p, w), c)
  {
    assert (w + [c])[..|w|] == w;
  }

  /** State i lists the set qs[i], reached by the word ws[i]; only state 0 holds initial positions. */
  ghost predicate Found(p: Re, states: seq<seq<nat>>, qs: seq<set<nat>>, ws: seq<seq<nat>>) {
    && |states| == |qs| == |ws| > 0 && qs[0] == Initial(p)
    && (forall i :: 0 <= i < |qs| ==> Lists(states[i], qs[i]) && Positions(p, qs[i]))
    && (forall i :: 0 <= i < |qs| ==> Bytes(ws[i]) && Drive(p, ws[i]) == qs[i] + Initial(p))
    && (forall i :: 1 <= i < |qs| ==> qs[i] !! Initial(p))
    && (forall i, j :: 0 <= i < j < |qs| ==> qs[i] != qs[j])
  }

  /** The automaton of p has at least NSTATES different sets of active positions. */
  ghost predicate TooManyStates(p: Re) {
    exists ws: seq<seq<nat>> :: |ws| == NSTATES && DistinctDrives(p, ws)
  }

  ghost predicate DistinctDrives(p: Re, ws: seq<seq<nat>>) {
    && (forall i :: 0 <= i < |ws| ==> Bytes(ws[i]))
    && forall i, j :: 0 <= i < j < |ws| ==> Drive(p, ws[i]) != Drive(p, ws[j])
  }

  /** A set and the word that reaches it, as a new state. */
  ghost predicate NewState(p: Re, qs: seq<set<nat>>, m: set<nat>, w: seq<nat>) {
    && Positions(p, m) && m !! Initial(p) && Bytes(w) && Drive(p, w) == m + Initial(p)
    && forall i :: 0 <= i < |qs| ==> qs[i] != m
  }

  lemma {:induction false} FoundMore(p: Re, states: seq<seq<nat>>, qs: seq<set<nat>>, ws: seq<seq<nat>>,
                                     l: seq<nat>, m: set<nat>, w: seq<nat>)
    requires Found(p, states, qs, ws) && NewState(p, qs, m, w) && Lists(l, m)
    ensures Found(p, states + [l], qs + [m], ws + [w])
  {
    hide Lists, Positions, Drive, Bytes, Initial;
  }

  lemma {:induction false} FoundTooMany(p: Re, states: seq<seq<nat>>, qs: seq<set<nat>>, ws: seq<seq<nat>>,
                                        m: set<nat>, w: seq<nat>)
    requires Found(p, states, qs, ws) && NewState(p, qs, m, w) && |qs| == NSTATES
    ensures TooManyStates(p)
  {
    hide Lists, Positions, Drive, Bytes, Initial;
    var init := Initial(p);
    var us, rs := ws[1..] + [w], qs[1..] + [m];
    forall i, j | 0 <= i < j < |us| ensures Drive(p, us[i]) != Drive(p, us[j]) {
      assert rs[i] != rs[j] && rs[i] !! init && rs[j] !! init;
      assert Drive(p, us[i]) == rs[i] + init && Drive(p, us[j]) == rs[j] + init;
      assert (rs[i] + init) - init == rs[i] && (rs[j] + init) - init == rs[j];
    }
    assert DistinctDrives(p, us);
  }

  /** The set just built is an old state, a new one, or one too many. */
  method FindState(ghost p: Re, states: seq<seq<nat>>, ghost qs: seq<set<nat>>, ghost ws: seq<seq<nat>>,
                   ghost w: seq<nat>, ps: PosSet)
    returns (ok: bool, states': seq<seq<nat>>, t: nat, ghost qs': seq<set<nat>>, ghost ws': seq<seq<nat>>)
    requires Found(p, states, qs, ws) && |states| <= NSTATES
    requires ps.Valid() && ps.line == Line(p) && ps.setcnt == |ps.Marked()|
    requires Positions(p, ps.Marked()) && ps.Marked() !! Initial(p)
    requires Bytes(w) && Drive(p, w) == ps.Marked() + Initial(p)
    ensures ok ==> Found(p, states', qs', ws') && |states'| <= NSTATES
    ensures ok ==> qs <= qs' && t < |qs'| && qs'[t] == ps.Marked()
    ensures !ok ==> TooManyStates(p)
  {
    hide Drive, Bytes, Initial, Lists, PosSet.Marked;
    var n := |states| - 1;
    ghost var m := ps.Marked();
    assert m - {0} == m;
    var absent, prev := ps.NotIn(states, n, qs);
    states', t, qs', ws' := states, prev, qs, ws;
    if !absent {
      return true, states', t, qs', ws';
    }
    assert NewState(p, qs, m, w);
    if n >= NSTATES - 1 {
      FoundTooMany(p, states, qs, ws, m, w);
      return false, states', t, qs', ws';
    }
    var l := ps.Add(ps.setcnt);
    FoundMore(p, states, qs, ws, l, m, w);
    return true, states + [l], n + 1, qs + [m], ws + [w];
  }

  // ----- one row of the table ------------------------------------------------------------------

  /** On every symbol of done, the transitions lead from state s to the right set. */
  ghost predicate RowSoFar(p: Re, qs: seq<set<nat>>, s: nat, trans: seq<(nat, nat)>, done: seq<nat>)
    requires s < |qs|
  {
    && (forall e :: e in trans ==> e.0 in done && IsByte(e.0) && e.1 < |qs|)
    && (forall c :: c in done ==>
          && Target(trans, c) < |qs|
          && qs[Target(trans, c)] + Initial(p) == Next(p, qs[s] + Initial(p), c))
  }

  lemma RowStart(p: Re, qs: seq<set<nat>>, s: nat)
    requires s < |qs|
    ensures RowSoFar(p, qs, s, [], [])
  {
  }

  /** A row stays right while states are added. */
  lemma {:induction false} RowGrow(p: Re, qs: seq<set<nat>>, qs': seq<set<nat>>, s: nat,
                                   trans: seq<(nat, nat)>, done: seq<nat>)
    requires s < |qs| && qs <= qs' && RowSoFar(p, qs, s, trans, done)
    ensures RowSoFar(p, qs', s, trans, done)
  {
    hide Target, Initial, Next;
  }

  lemma {:induction false} RowPush(p: Re, qs: seq<set<nat>>, s: nat, trans: seq<(nat, nat)>, done: seq<nat>, c: nat, t: nat)
    requires s < |qs| && RowSoFar(p, qs, s, trans, done) && c !in done && IsByte(c)
    requires t < |qs| && qs[t] + Initial(p) == Next(p, qs[s] + Initial(p), c)
    ensures RowSoFar(p, qs, s, trans + [(c, t)], done + [c])
    ensures t == 0 ==> RowSoFar(p, qs, s, trans, done + [c])
  {
    hide Target, Initial, Next;
    forall d | d in done + [c]
      ensures Target(trans + [(c, t)], d) == if d == c then t else Target(trans, d)
    {
      TargetPush(trans, c, t, d);
    }
    TargetOutside(trans, c);
  }

  lemma {:induction false} UnwantedStep(p: Re, ts: set<nat>, c: nat)
    requires IsByte(c) && !Wanted(p, ts, c)
    ensures Step(p, ts, c) == {}
  {
    forall i | i in ts ensures !Takes(p, i, c) {
    }
  }

  lemma {:induction false} RowDone(p: Re, qs: seq<set<nat>>, s: nat, trans: seq<(nat, nat)>, done: seq<nat>)
    requires s < |qs| && RowSoFar(p, qs, s, trans, done) && qs[0] == Initial(p) && Line(p) !in qs[s]
    requires forall c :: IsByte(c) && c !in done ==> !Wanted(p, qs[s] + Initial(p), c)
    ensures GoodRow(p, qs, s, Fa(|trans|, trans))
  {
    hide Target, Initial, Step;
    forall c | IsByte(c)
      ensures Target(trans, c) < |qs| && qs[Target(trans, c)] + Initial(p) == Next(p, qs[s] + Initial(p), c)
    {
      if c !in done {
        TargetOutside(trans, c);
        UnwantedStep(p, qs[s] + Initial(p), c);
        assert Initial(p) + Initial(p) == Initial(p) + {};
      }
    }
  }

  /** What the code computes once, for state 0. */
  ghost predicate Initials(p: Re, sposns: seq<nat>, iposns: seq<bool>, isyms: seq<bool>, ssyms: seq<nat>) {
    && Lists(sposns, Initial(p)) && Flags(p, iposns)
    && |isyms| == NCHARS && Distinct(ssyms)
    && (forall k: nat :: k in ssyms <==> k < NCHARS && isyms[k])
    && (forall k :: 0 <= k < NCHARS ==> (isyms[k] <==> Wanted(p, Initial(p), k)))
  }

  predicate AllFalse(s: seq<bool>) {
    forall i :: 0 <= i < |s| ==> !s[i]
  }

  /** sposns: the initial positions, then those of the state that are not initial. */
  method Extend(ghost p: Re, l: seq<nat>, ghost q: set<nat>, init: seq<nat>, iposns: seq<bool>, inset: seq<bool>)
    returns (sposns: seq<nat>, inset': seq<bool>)
    requires Lists(l, q) && Positions(p, q) && Lists(init, Initial(p)) && Flags(p, iposns)
    requires |inset| == Line(p) + 1 && AllFalse(inset)
    ensures Elems(sposns) == q + Initial(p)
    ensures |inset'| == |inset| && forall i :: 0 <= i < |inset'| ==> (inset'[i] <==> i in q && i !in Initial(p))
  {
    ListedPositions(p, l, q, iposns);
    ElemsOfList(init, Initial(p));
    sposns, inset' := init, inset;
    ghost var seen := {};
    hide *;
    ExtendStart(Initial(p), sposns, inset');
    var i := 0;
    while i < |l|
      invariant 0 <= i <= |l| && |inset'| == |inset| && seen == Elems(l[..i])
      invariant Extended(Initial(p), seen, sposns, inset')
    {
      var curpos := l[i];
      ElemsPush(l, i);
      ExtendOne(Initial(p), seen, sposns, inset', curpos);
      if !iposns[curpos] && !inset'[curpos] {
        inset', sposns := inset'[curpos := true], sposns + [curpos];
      }
      seen := seen + {curpos};
      i := i + 1;
    }
    ExtendDone(Initial(p), seen, sposns, inset');
  }

  ghost predicate Extended(init: set<nat>, seen: set<nat>, sposns: seq<nat>, inset: seq<bool>) {
    && Elems(sposns) == seen + init
    && forall k :: 0 <= k < |inset| ==> (inset[k] <==> k in seen && k !in init)
  }

  lemma ExtendStart(init: set<nat>, sposns: seq<nat>, inset: seq<bool>)
    requires Elems(sposns) == init && AllFalse(inset)
    ensures Extended(init, {}, sposns, inset)
  {
  }

  lemma ExtendDone(init: set<nat>, seen: set<nat>, sposns: seq<nat>, inset: seq<bool>)
    requires Extended(init, seen, sposns, inset)
    ensures Elems(sposns) == seen + init
    ensures forall k :: 0 <= k < |inset| ==> (inset[k] <==> k in seen && k !in init)
  {
  }

  lemma ExtendOne(init: set<nat>, seen: set<nat>, sposns: seq<nat>, inset: seq<bool>, c: nat)
    requires Extended(init, seen, sposns, inset) && c < |inset|
    ensures c !in init && !inset[c] ==> Extended(init, seen + {c}, sposns + [c], inset[c := true])
    ensures c in init || inset[c] ==> Extended(init, seen + {c}, sposns, inset)
  {
    assert Elems(sposns + [c]) == Elems(sposns) + {c};
  }

  lemma {:induction false} WantedUnion(p: Re, ts: set<nat>, us: set<nat>, c: nat)
    ensures Wanted(p, ts + us, c) <==> Wanted(p, ts, c) || Wanted(p, us, c)
  {
    if Wanted(p, ts, c) {
      var i :| i in ts && Within(p, 1, i) && SymbolOf(LeafAt(p, 1, i), c);
      assert i in ts + us;
    }
    if Wanted(p, us, c) {
      var i :| i in us && Within(p, 1, i) && SymbolOf(LeafAt(p, 1, i), c);
      assert i in ts + us;
    }
  }

  /** ssyms: the symbols of the initial positions, then those of the state that are new. */
  method Symbols(ghost p: Re, node: seq<Re>, ghost foll: seq<seq<nat>>, l: seq<nat>, ghost q: set<nat>,
                 ghost sposns: seq<nat>, ghost iposns: seq<bool>, isyms: seq<bool>, ssinit: seq<nat>, symbol: seq<bool>)
    returns (ssyms: seq<nat>, symbol': seq<bool>)
    requires Prepared(p, node, foll) && Lists(l, q) && Positions(p, q)
    requires Initials(p, sposns, iposns, isyms, ssinit) && |symbol| == NCHARS && AllFalse(symbol)
    ensures Distinct(ssyms) && forall c: nat :: c in ssyms <==> c < NCHARS && Wanted(p, q + Initial(p), c)
    ensures |symbol'| == NCHARS && forall c: nat :: c < NCHARS && symbol'[c] ==> c in ssyms
    ensures ssinit != [] ==> ssyms != []
  {
    assert Tracks(ssinit, isyms, symbol);
    symbol', ssyms := CollectAll(p, node, foll, l, q, isyms, symbol, ssinit);
    forall c: nat ensures c in ssyms <==> c < NCHARS && Wanted(p, q + Initial(p), c) {
      WantedUnion(p, q, Initial(p), c);
    }
    if ssinit != [] {
      assert ssinit[0] in ssinit && ssinit[0] in ssyms;
    }
  }

  lemma {:induction false} NextFacts(p: Re, q: set<nat>, w: seq<nat>, c: nat)
    requires Drive(p, w) == q + Initial(p) && Bytes(w) && IsByte(c)
    ensures var m := Step(p, q + Initial(p), c) - Initial(p);
            && Positions(p, m) && m !! Initial(p)
            && m + Initial(p) == Next(p, q + Initial(p), c)
            && Bytes(w + [c]) && Drive(p, w + [c]) == m + Initial(p)
  {
    DrivePush(p, w, c);
  }

  /** Everything about p that does not change while the table grows. */
  datatype Context = Context(p: Re, node: seq<Re>, foll: seq<seq<nat>>, init: seq<nat>, iposns: seq<bool>,
                             isyms: seq<bool>, ssinit: seq<nat>)

  ghost predicate GoodContext(x: Context) {
    && Prepared(x.p, x.node, x.foll) && Initials(x.p, x.init, x.iposns, x.isyms, x.ssinit)
  }

  ghost predicate Room(p: Re, states: seq<seq<nat>>, qs: seq<set<nat>>, ws: seq<seq<nat>>) {
    Found(p, states, qs, ws) && |states| <= NSTATES
  }

  /** The transition of state s on one symbol. */
  method OneSymbol(x: Context, ghost s: nat, states: seq<seq<nat>>, ghost qs: seq<set<nat>>, ghost ws: seq<seq<nat>>,
                   sposns: seq<nat>, c: nat, trans: seq<(nat, nat)>, ghost done: seq<nat>, inset: seq<bool>, ps: PosSet)
    returns (ok: bool, trans': seq<(nat, nat)>, states': seq<seq<nat>>, ghost qs': seq<set<nat>>,
             ghost ws': seq<seq<nat>>, inset': seq<bool>)
    requires GoodContext(x) && Room(x.p, states, qs, ws)
    requires s < |qs| && Elems(sposns) == qs[s] + Initial(x.p)
    requires IsByte(c) && c !in done && RowSoFar(x.p, qs, s, trans, done)
    requires |inset| == Line(x.p) + 1 && ps.Valid() && ps.line == Line(x.p)
    modifies ps.setvec, ps`setcnt
    ensures ok ==> Room(x.p, states', qs', ws') && qs <= qs' && RowSoFar(x.p, qs', s, trans', done + [c])
    ensures ok ==> Cleared(inset, inset', sposns, |sposns|) && |inset'| == |inset|
    ensures !ok ==> TooManyStates(x.p)
  {
    hide *;
    StateFacts(x.p, states, qs, ws, s);
    NextFacts(x.p, qs[s], ws[s], c);
    ContextFacts(x);
    inset' := NextState(x.p, x.node, x.foll, sposns, x.iposns, inset, c, ps);
    ClearedSize(inset, inset', sposns);
    var t;
    ok, states', t, qs', ws' := FindState(x.p, states, qs, ws, ws[s] + [c], ps);
    trans' := trans;
    if ok {
      RoomIs(x.p, states', qs', ws');
      RowGrow(x.p, qs, qs', s, trans, done);
      RowPush(x.p, qs', s, trans, done, c, t);
      if t != 0 {
        trans' := trans + [(c, t)];
      }
    }
  }

  lemma ContextFacts(x: Context)
    requires GoodContext(x)
    ensures Prepared(x.p, x.node, x.foll) && Initials(x.p, x.init, x.iposns, x.isyms, x.ssinit)
    ensures Lists(x.init, Initial(x.p)) && Flags(x.p, x.iposns)
  {
    hide Prepared, Lists, Flags, Wanted;
  }

  lemma RoomIs(p: Re, states: seq<seq<nat>>, qs: seq<set<nat>>, ws: seq<seq<nat>>)
    requires Found(p, states, qs, ws) && |states| <= NSTATES
    ensures Room(p, states, qs, ws)
  {
  }

  lemma ClearedSize(inset: seq<bool>, inset': seq<bool>, l: seq<nat>)
    requires Cleared(inset, inset', l, |l|)
    ensures |inset'| == |inset|
  {
  }

  lemma StateFacts(p: Re, states: seq<seq<nat>>, qs: seq<set<nat>>, ws: seq<seq<nat>>, s: nat)
    requires Room(p, states, qs, ws) && s < |qs|
    ensures Found(p, states, qs, ws) && |states| <= NSTATES && s < |ws|
    ensures Positions(p, qs[s] + Initial(p)) && Drive(p, ws[s]) == qs[s] + Initial(p) && Bytes(ws[s])
  {
    FollPositions(p);
  }

  ghost predicate SymbolsOut(symbol: seq<bool>, symbol': seq<bool>, ssyms: seq<nat>, j: nat)
    requires j <= |ssyms|
  {
    |symbol'| == |symbol| && forall c: nat :: c < |symbol| ==> symbol'[c] == (symbol[c] && c !in ssyms[..j])
  }

  lemma SymbolOutOne(symbol: seq<bool>, symbol': seq<bool>, ssyms: seq<nat>, j: nat)
    requires j < |ssyms| && SymbolsOut(symbol, symbol', ssyms, j) && |symbol'| == |symbol| && ssyms[j] < |symbol|
    ensures SymbolsOut(symbol, symbol'[ssyms[j] := false], ssyms, j + 1)
  {
    assert ssyms[..j + 1] == ssyms[..j] + [ssyms[j]];
  }

  lemma SymbolOutNone(symbol: seq<bool>, ssyms: seq<nat>)
    ensures SymbolsOut(symbol, symbol, ssyms, 0)
  {
  }

  lemma SymbolsApart(ssyms: seq<nat>)
    requires Distinct(ssyms) && (forall c :: c in ssyms ==> IsByte(c))
    ensures forall j :: 0 <= j < |ssyms| ==>
              IsByte(ssyms[j]) && ssyms[j] < NCHARS && ssyms[j] !in ssyms[..j] && ssyms[..j + 1] == ssyms[..j] + [ssyms[j]]
    ensures ssyms[..|ssyms|] == ssyms && ssyms[..0] == []
  {
    assert forall j :: 0 <= j < |ssyms| ==> ssyms[j] in ssyms;
  }

  /** The transitions of one non-final state, one symbol at a time. */
  method Transitions(x: Context, ghost s: nat, states: seq<seq<nat>>, ghost qs: seq<set<nat>>, ghost ws: seq<seq<nat>>,
                     sposns: seq<nat>, ssyms: seq<nat>, inset: seq<bool>, symbol: seq<bool>, ps: PosSet)
    returns (ok: bool, trans: seq<(nat, nat)>, states': seq<seq<nat>>, ghost qs': seq<set<nat>>,
             ghost ws': seq<seq<nat>>, inset': seq<bool>, symbol': seq<bool>)
    requires GoodContext(x) && Room(x.p, states, qs, ws)
    requires s < |qs| && Elems(sposns) == qs[s] + Initial(x.p)
    requires Distinct(ssyms) && (forall c :: c in ssyms ==> IsByte(c))
    requires |inset| == Line(x.p) + 1 && |symbol| == NCHARS && ps.Valid() && ps.line == Line(x.p)
    modifies ps.setvec, ps`setcnt
    ensures ok ==> Room(x.p, states', qs', ws') && qs <= qs' && RowSoFar(x.p, qs', s, trans, ssyms)
    ensures ok ==> if ssyms == [] then inset' == inset && states' == states
                   else Cleared(inset, inset', sposns, |sposns|)
    ensures ok ==> SymbolsOut(symbol, symbol', ssyms, |ssyms|)
    ensures !ok ==> TooManyStates(x.p)
  {
    hide *;
    SymbolsApart(ssyms);
    ok, trans, states', qs', ws', inset', symbol' := true, [], states, qs, ws, inset, symbol;
    RowStart(x.p, qs, s);
    SymbolOutNone(symbol, ssyms);
    var j := 0;
    while j < |ssyms|
      invariant ok && 0 <= j <= |ssyms| && Room(x.p, states', qs', ws') && qs <= qs'
      invariant RowSoFar(x.p, qs', s, trans, ssyms[..j])
      invariant if j == 0 then inset' == inset && states' == states else Cleared(inset, inset', sposns, |sposns|)
      invariant |inset'| == |inset| && |symbol'| == |symbol| && SymbolsOut(symbol, symbol', ssyms, j)
    {
      ghost var before := inset';
      SymbolOutOne(symbol, symbol', ssyms, j);
      symbol' := symbol'[ssyms[j] := false];
      ok, trans, states', qs', ws', inset' :=
        OneSymbol(x, s, states', qs', ws', sposns, ssyms[j], trans, ssyms[..j], inset', ps);
      if !ok {
        return;
      }
      ClearedAgain(inset, before, inset', sposns, j > 0);
      j := j + 1;
    }
  }

  lemma ClearedAgain(inset: seq<bool>, before: seq<bool>, after: seq<bool>, l: seq<nat>, again: bool)
    requires Cleared(before, after, l, |l|)
    requires if again then Cleared(inset, before, l, |l|) else before == inset
    ensures Cleared(inset, after, l, |l|) && |after| == |inset|
  {
  }

  /** One turn of cgotofn's loop: the block of state s. */
  method Row(x: Context, s: nat, states: seq<seq<nat>>, ghost qs: seq<set<nat>>, ghost ws: seq<seq<nat>>,
             inset: seq<bool>, symbol: seq<bool>, ps: PosSet)
    returns (ok: bool, fa: Fa, states': seq<seq<nat>>, ghost qs': seq<set<nat>>,
             ghost ws': seq<seq<nat>>, inset': seq<bool>, symbol': seq<bool>)
    requires GoodContext(x) && Room(x.p, states, qs, ws) && s < |qs| && (x.ssinit == [] ==> s == 0)
    requires |inset| == Line(x.p) + 1 && AllFalse(inset) && |symbol| == NCHARS && AllFalse(symbol)
    requires ps.Valid() && ps.line == Line(x.p)
    modifies ps.setvec, ps`setcnt
    ensures ok ==> Room(x.p, states', qs', ws') && qs <= qs' && GoodRow(x.p, qs', s, fa)
    ensures ok ==> (x.ssinit == [] ==> states' == states)
    ensures ok ==> |inset'| == |inset| && AllFalse(inset') && |symbol'| == NCHARS && AllFalse(symbol')
    ensures !ok ==> TooManyStates(x.p)
  {
    hide *;
    RowFacts(x.p, states, qs, ws, s);
    states', qs', ws', inset', symbol' := states, qs, ws, inset, symbol;
    var l := states[s];
    if (if l == [] then 0 else l[|l| - 1]) == ps.line {
      FinalRow(x.p, qs, s);
      return true, Fa(-1, []), states', qs', ws', inset', symbol';
    }
    var sposns, ssyms;
    sposns, ssyms, inset', symbol' := StateSets(x, l, qs[s], inset, symbol);
    ghost var inset1, symbol1 := inset', symbol';
    var trans;
    ok, trans, states', qs', ws', inset', symbol' :=
      Transitions(x, s, states, qs, ws, sposns, ssyms, inset', symbol', ps);
    fa := Fa(|trans|, trans);
    if ok {
      FoundStart(x.p, states', qs', ws');
      RowDone(x.p, qs', s, trans, ssyms);
      InsetOut(qs[s], Initial(x.p), inset1, inset', sposns, ssyms == []);
      SymbolOut(symbol1, symbol', ssyms);
    }
  }

  /** The positions and symbols of a state, initial ones included. */
  method StateSets(x: Context, l: seq<nat>, ghost q: set<nat>, inset: seq<bool>, symbol: seq<bool>)
    returns (sposns: seq<nat>, ssyms: seq<nat>, inset': seq<bool>, symbol': seq<bool>)
    requires GoodContext(x) && Lists(l, q) && Positions(x.p, q)
    requires |inset| == Line(x.p) + 1 && AllFalse(inset) && |symbol| == NCHARS && AllFalse(symbol)
    ensures Elems(sposns) == q + Initial(x.p)
    ensures |inset'| == |inset| && forall i :: 0 <= i < |inset'| ==> (inset'[i] <==> i in q && i !in Initial(x.p))
    ensures Distinct(ssyms) && (forall c :: c in ssyms ==> IsByte(c))
    ensures forall c :: IsByte(c) && c !in ssyms ==> !Wanted(x.p, q + Initial(x.p), c)
    ensures |symbol'| == NCHARS && forall c: nat :: c < NCHARS && symbol'[c] ==> c in ssyms
    ensures x.ssinit != [] ==> ssyms != []
    ensures x.ssinit == [] && q == Initial(x.p) ==> ssyms == []
  {
    hide *;
    ContextFacts(x);
    sposns, inset' := Extend(x.p, l, q, x.init, x.iposns, inset);
    ssyms, symbol' := Symbols(x.p, x.node, x.foll, l, q, x.init, x.iposns, x.isyms, x.ssinit, symbol);
    SymbolFacts(x.p, q, x.init, x.iposns, x.isyms, x.ssinit, ssyms);
  }

  lemma RowFacts(p: Re, states: seq<seq<nat>>, qs: seq<set<nat>>, ws: seq<seq<nat>>, s: nat)
    requires Room(p, states, qs, ws) && s < |qs|
    ensures s < |states| && Lists(states[s], qs[s]) && Positions(p, qs[s]) && (s == 0 ==> qs[s] == Initial(p))
    ensures var l := states[s];
            (if l == [] then 0 else l[|l| - 1]) == Line(p) <==> Line(p) in qs[s]
  {
    if states[s] == [] {
      assert Line(p) !in states[s];
    } else {
      LastIsMax(states[s], qs[s], Line(p));
    }
  }

  lemma FoundStart(p: Re, states: seq<seq<nat>>, qs: seq<set<nat>>, ws: seq<seq<nat>>)
    requires Room(p, states, qs, ws)
    ensures |qs| > 0 && qs[0] == Initial(p)
  {
  }

  lemma FinalRow(p: Re, qs: seq<set<nat>>, s: nat)
    requires s < |qs| && Line(p) in qs[s]
    ensures GoodRow(p, qs, s, Fa(-1, []))
  {
  }

  lemma {:induction false} SymbolFacts(p: Re, q: set<nat>, init: seq<nat>, iposns: seq<bool>, isyms: seq<bool>,
                                       ssinit: seq<nat>, ssyms: seq<nat>)
    requires Initials(p, init, iposns, isyms, ssinit)
    requires forall c: nat :: c in ssyms <==> c < NCHARS && Wanted(p, q + Initial(p), c)
    ensures forall c :: c in ssyms ==> IsByte(c)
    ensures forall c :: IsByte(c) && c !in ssyms ==> !Wanted(p, q + Initial(p), c)
    ensures ssinit == [] && q == Initial(p) ==> ssyms == []
  {
    if ssinit == [] && q == Initial(p) {
      assert q + Initial(p) == Initial(p);
      forall c: nat ensures c !in ssyms {
        assert c < NCHARS ==> !isyms[c];
      }
      NothingListed(ssyms);
    }
  }

  lemma NothingListed(l: seq<nat>)
    ensures l != [] ==> exists c: nat :: c in l
  {
    if l != [] {
      assert l[0] in l;
    }
  }

  lemma InsetOut(q: set<nat>, init: set<nat>, inset: seq<bool>, inset': seq<bool>, sposns: seq<nat>, kept: bool)
    requires Elems(sposns) == q + init
    requires forall i :: 0 <= i < |inset| ==> (inset[i] <==> i in q && i !in init)
    requires if kept then inset' == inset && q == init else Cleared(inset, inset', sposns, |sposns|)
    ensures |inset'| == |inset| && AllFalse(inset')
  {
    assert sposns[..|sposns|] == sposns;
    if !kept {
      forall i | 0 <= i < |inset| && inset[i] ensures i in sposns {
        assert i in Elems(sposns);
      }
    }
  }

  lemma SymbolOut(symbol: seq<bool>, symbol': seq<bool>, ssyms: seq<nat>)
    requires |symbol| == NCHARS && SymbolsOut(symbol, symbol', ssyms, |ssyms|)
    requires forall c: nat :: c < NCHARS && symbol[c] ==> c in ssyms
    ensures |symbol'| == NCHARS && AllFalse(symbol')
  {
    assert ssyms[..|ssyms|] == ssyms;
  }

  // ----- the whole table -----------------------------------------------------------------------

  function NoFlags(n: nat): (s: seq<bool>)
    ensures |s| == n && AllFalse(s)
  {
    seq(n, _ => false)
  }

  /** iposns: a flag for each initial position. */
  method FlagInitial(p: Re, l: seq<nat>) returns (iposns: seq<bool>)
    requires Lists(l, Initial(p))
    ensures Flags(p, iposns)
  {
    FollPositions(p);
    assert forall k :: 0 <= k < |l| ==> l[k] in Initial(p);
    iposns := NoFlags(Line(p) + 1);
    var i := 0;
    while i < |l|
      invariant 0 <= i <= |l| && |iposns| == Line(p) + 1
      invariant forall k :: 0 <= k <= Line(p) ==> (iposns[k] <==> k in l[..i])
    {
      assert l[..i + 1] == l[..i] + [l[i]];
      iposns := iposns[l[i] := true];
      i := i + 1;
    }
    assert l[..i] == l;
  }

  /** Positions and symbols of state 0. */
  method StartContext(p: Re, node: seq<Re>, foll: seq<seq<nat>>) returns (x: Context)
    requires Prepared(p, node, foll)
    ensures GoodContext(x) && x.p == p && x.foll == foll && x.init == foll[0]
  {
    FollPositions(p);
    var iposns := FlagInitial(p, foll[0]);
    var none := NoFlags(NCHARS);
    assert Tracks([], none, none);
    var isyms, ssinit := CollectAll(p, node, foll, foll[0], Initial(p), none, none, []);
    x := Context(p, node, foll, foll[0], iposns, isyms, ssinit);
    hide Prepared, Wanted, Flags, Lists, Initial;
    assert Tracks(ssinit, none, isyms);
    assert Initials(p, foll[0], iposns, isyms, ssinit);
  }

  lemma FoundFirst(p: Re, node: seq<Re>, foll: seq<seq<nat>>)
    requires Prepared(p, node, foll)
    ensures Room(p, [foll[0]], [Initial(p)], [[]])
  {
    FollPositions(p);
    assert Initial(p) + Initial(p) == Initial(p);
  }

  /** Rows 0 thru n-1 of the table are right for the sets qs. */
  ghost predicate RowsDone(p: Re, dfa: seq<Fa>, qs: seq<set<nat>>) {
    |dfa| <= |qs| && forall s :: 0 <= s < |dfa| ==> GoodRow(p, qs, s, dfa[s])
  }

  lemma {:induction false} GoodRowGrow(p: Re, qs: seq<set<nat>>, qs': seq<set<nat>>, s: nat, fa: Fa)
    requires s < |qs| && qs <= qs' && GoodRow(p, qs, s, fa)
    ensures GoodRow(p, qs', s, fa)
  {
    hide Target, Initial, Next;
  }

  lemma {:induction false} RowsMore(p: Re, dfa: seq<Fa>, qs: seq<set<nat>>, qs': seq<set<nat>>, fa: Fa)
    requires RowsDone(p, dfa, qs) && qs <= qs' && |dfa| < |qs'| && GoodRow(p, qs', |dfa|, fa)
    ensures RowsDone(p, dfa + [fa], qs')
  {
    hide GoodRow;
    forall s | 0 <= s < |dfa| ensures GoodRow(p, qs', s, dfa[s]) {
      GoodRowGrow(p, qs, qs', s, dfa[s]);
    }
  }

  /** cgotofn(): the table of the subset automaton, state 0 first. */
  method CGotoFn(p: Re, node: seq<Re>, foll: seq<seq<nat>>, ps: PosSet)
    returns (ok: bool, dfa: seq<Fa>, ghost qs: seq<set<nat>>)
    requires Prepared(p, node, foll) && ps.Valid() && ps.line == Line(p)
    modifies ps.setvec, ps`setcnt
    ensures ok ==> Recognises(p, dfa, qs) && |dfa| <= NSTATES
    ensures !ok ==> TooManyStates(p)
  {
    hide *;
    var x := StartContext(p, node, foll);
    FoundFirst(p, node, foll);
    FirstListed(p, node, foll);
    var states := [foll[0]];
    ghost var ws: seq<seq<nat>> := [[]];
    qs := [Initial(p)];
    ok, dfa := true, [];
    var inset, symbol := NoFlags(Line(p) + 1), NoFlags(NCHARS);
    NoRows(p, qs);
    while |dfa| < |states|
      invariant ok && Room(p, states, qs, ws) && |states| == |qs| && RowsDone(p, dfa, qs) && |dfa| <= |qs|
      invariant x.ssinit == [] ==> |states| == 1
      invariant |inset| == Line(p) + 1 && AllFalse(inset) && |symbol| == NCHARS && AllFalse(symbol)
      invariant |states| <= NSTATES
      decreases NSTATES - |dfa|
    {
      var fa;
      ghost var grown;
      ok, fa, states, grown, ws, inset, symbol := Row(x, |dfa|, states, qs, ws, inset, symbol, ps);
      if !ok {
        return;
      }
      RoomSizes(p, states, grown, ws);
      RowsMore(p, dfa, qs, grown, fa);
      qs, dfa := grown, dfa + [fa];
    }
    TableDone(p, dfa, states, qs, ws);
  }

  lemma FirstListed(p: Re, node: seq<Re>, foll: seq<seq<nat>>)
    requires Prepared(p, node, foll)
    ensures |foll| > 0
  {
  }

  lemma NoRows(p: Re, qs: seq<set<nat>>)
    ensures RowsDone(p, [], qs)
  {
  }

  lemma RoomSizes(p: Re, states: seq<seq<nat>>, qs: seq<set<nat>>, ws: seq<seq<nat>>)
    requires Room(p, states, qs, ws)
    ensures |states| == |qs| <= NSTATES
  {
  }

  lemma TableDone(p: Re, dfa: seq<Fa>, states: seq<seq<nat>>, qs: seq<set<nat>>, ws: seq<seq<nat>>)
    requires Room(p, states, qs, ws) && RowsDone(p, dfa, qs) && |dfa| == |qs|
    ensures Recognises(p, dfa, qs)
  {
    hide GoodRow, Lists, Drive;
  }

  /** cgotofn's last step: start where HAT leads from state 0, or in state 0 itself. */
  method StartState(fa: Fa) returns (start: nat)
    requires fa.cch == -1 || fa.cch == |fa.trans|
    ensures start == if fa.cch < 0 then 0 else Target(fa.trans, HAT)
  {
    var num, tr := fa.cch, fa.trans;
    if num < 0 {
      return 0;
    }
    assert tr[..num] == tr;
    while num != 0
      invariant 0 <= num <= |tr| && Target(tr, HAT) == Target(tr[..num], HAT)
    {
      assert tr[..num][..num - 1] == tr[..num - 1];
      if tr[num - 1].0 == HAT {
        return tr[num - 1].1;
      }
      num := num - 1;
    }
    return 0;
  }

  /** Without anchors no transition is on HAT, so the automaton starts in state 0. */
  lemma StartsInStateZero(dfa: seq<Fa>)
    requires WellFormed(dfa)
    ensures |dfa| > 0 && Target(dfa[0].trans, HAT) == 0 && (dfa[0].cch == -1 || dfa[0].cch == |dfa[0].trans|)
  {
    TargetOutside(dfa[0].trans, HAT);
  }
}
