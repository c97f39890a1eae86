/** The subset automaton of an expression p searched for anywhere in a string.

    makedfa puts DOT STAR in front of p and FINAL above it, so the leaves of p have indices
    1..Leaves(p), index 0 is the DOT, and the FINAL node answers to index Line(p). */
module AwkSubset {
  import opened AwkRegexp

  function Line(p: Re): nat {
    1 + Leaves(p)
  }

  function Root(p: Re): Re {
    Final(Cat(Star(Sym(Dot)), p))
  }

  /** The follow set of the leading DOT: where a match of p may start. */
  function Initial(p: Re): (s: set<nat>)
    ensures s != {} && 0 !in s
  {
    First(p, 1) + if Nullable(p) then {Line(p)} else {}
  }

  /** The follow set of leaf i of p, FINAL included. */
  function Foll(p: Re, i: nat): (s: set<nat>)
    requires Within(p, 1, i)
    ensures forall j :: j in s ==> 1 <= j <= Line(p)
  {
    Follow(p, 1, i) + if IsLast(p, 1, i) then {Line(p)} else {}
  }

  predicate Takes(p: Re, i: nat, c: nat) {
    Within(p, 1, i) && Matches(LeafAt(p, 1, i), c)
  }

  /** Positions active after the active positions ts read c, without the ones a fresh start adds. */
  function Step(p: Re, ts: set<nat>, c: nat): set<nat> {
    set i, j | i in ts && Takes(p, i, c) && j in Foll(p, i) :: j
  }

  function Next(p: Re, ts: set<nat>, c: nat): set<nat> {
    Initial(p) + Step(p, ts, c)
  }

  /** Some prefix of w drives the automaton from ts into a final state. */
  predicate Hits(p: Re, ts: set<nat>, w: seq<nat>)
    decreases |w|
  {
    Line(p) in ts || (w != [] && Hits(p, Next(p, ts, w[0]), w[1..]))
  }

  ghost predicate Accepts(p: Re, ts: set<nat>, u: seq<nat>) {
    if u == [] then Line(p) in ts else Enters(p, 1, ts, u)
  }

  lemma AcceptsUnion(p: Re, ts: set<nat>, us: set<nat>, w: seq<nat>)
    ensures Accepts(p, ts + us, w) <==> Accepts(p, ts, w) || Accepts(p, us, w)
  {
    if w != [] {
      EntersUnion(p, 1, ts, us, w);
    }
  }

  lemma {:induction false} FollAfter(p: Re, i: nat, v: seq<nat>)
    requires Within(p, 1, i)
    ensures After(p, 1, i, v) <==> Accepts(p, Foll(p, i), v)
  {
    AfterEnters(p, 1, i, v);
    AcceptsUnion(p, Follow(p, 1, i), if IsLast(p, 1, i) then {Line(p)} else {}, v);
  }

  lemma {:induction false} AcceptsStep(p: Re, ts: set<nat>, u: seq<nat>)
    requires u != []
    ensures Accepts(p, ts, u) <==> Accepts(p, Step(p, ts, u[0]), u[1..])
  {
    var c, v := u[0], u[1..];
    if Accepts(p, ts, u) {
      var i :| i in ts && Within(p, 1, i) && Matches(LeafAt(p, 1, i), c) && After(p, 1, i, v);
      FollAfter(p, i, v);
      assert Takes(p, i, c);
      assert Foll(p, i) + Step(p, ts, c) == Step(p, ts, c);
      AcceptsUnion(p, Foll(p, i), Step(p, ts, c), v);
    }
    if Accepts(p, Step(p, ts, c), v) {
      var j := AcceptingPosition(p, Step(p, ts, c), v);
      var i :| i in ts && Takes(p, i, c) && j in Foll(p, i);
      AcceptsUnion(p, {j}, Foll(p, i), v);
      assert {j} + Foll(p, i) == Foll(p, i);
      FollAfter(p, i, v);
    }
  }

  lemma AcceptingPosition(p: Re, ts: set<nat>, v: seq<nat>) returns (j: nat)
    requires Accepts(p, ts, v)
    ensures j in ts && Accepts(p, {j}, v)
  {
    if v == [] {
      j := Line(p);
    } else {
      j :| j in ts && Within(p, 1, j) && Matches(LeafAt(p, 1, j), v[0]) && After(p, 1, j, v[1..]);
    }
  }

  lemma InitialAccepts(p: Re, u: seq<nat>)
    ensures Accepts(p, Initial(p), u) <==> Lang(p, u)
  {
    NullableIsEmptyWord(p);
    if u != [] {
      LangEnters(p, 1, u);
      var tail := if Nullable(p) then {Line(p)} else {};
      EntersUnion(p, 1, First(p, 1), tail, u);
    }
  }

  ghost predicate AcceptsPrefix(p: Re, ts: set<nat>, w: seq<nat>) {
    exists k :: 0 <= k <= |w| && Accepts(p, ts, w[..k])
  }

  /** Some word of p lies in w, not starting before its d-th symbol. */
  ghost predicate Occurs(p: Re, w: seq<nat>, d: nat) {
    exists i, k :: d <= i <= k <= |w| && Lang(p, w[i..k])
  }

  lemma SliceTail(w: seq<nat>, i: nat, k: nat)
    requires 1 <= i <= k <= |w|
    ensures w[i..k] == w[1..][i - 1..k - 1]
  {
    forall t | 0 <= t < k - i ensures w[i..k][t] == w[1..][i - 1..k - 1][t] {
    }
  }

  lemma {:induction false} OccursTail(p: Re, w: seq<nat>)
    requires w != []
    ensures Occurs(p, w, 1) <==> Occurs(p, w[1..], 0)
  {
    if Occurs(p, w, 1) {
      var i, k :| 1 <= i <= k <= |w| && Lang(p, w[i..k]);
      SliceTail(w, i, k);
    }
    if Occurs(p, w[1..], 0) {
      var i, k :| 0 <= i <= k <= |w[1..]| && Lang(p, w[1..][i..k]);
      SliceTail(w, i + 1, k + 1);
    }
  }

  lemma {:induction false} OccursHere(p: Re, w: seq<nat>)
    ensures Occurs(p, w, 0) <==> AcceptsPrefix(p, Initial(p), w) || Occurs(p, w, 1)
  {
    forall k | 0 <= k <= |w| ensures Accepts(p, Initial(p), w[..k]) <==> Lang(p, w[0..k]) {
      assert w[..k] == w[0..k];
      InitialAccepts(p, w[..k]);
    }
    if Occurs(p, w, 0) {
      var i, k :| 0 <= i <= k <= |w| && Lang(p, w[i..k]);
      if i == 0 {
        assert Accepts(p, Initial(p), w[..k]);
      }
    }
    if AcceptsPrefix(p, Initial(p), w) {
      var k :| 0 <= k <= |w| && Accepts(p, Initial(p), w[..k]);
      assert Lang(p, w[0..k]);
    }
  }

  lemma {:induction false} PrefixStep(p: Re, ts: set<nat>, w: seq<nat>)
    requires w != []
    ensures AcceptsPrefix(p, ts, w) <==> Line(p) in ts || AcceptsPrefix(p, Step(p, ts, w[0]), w[1..])
  {
    forall k | 0 < k <= |w|
      ensures Accepts(p, ts, w[..k]) <==> Accepts(p, Step(p, ts, w[0]), w[1..][..k - 1])
    {
      SplitTail(w, k);
      AcceptsStep(p, ts, w[..k]);
    }
    if AcceptsPrefix(p, ts, w) {
      var k :| 0 <= k <= |w| && Accepts(p, ts, w[..k]);
      if k > 0 {
        assert Accepts(p, Step(p, ts, w[0]), w[1..][..k - 1]);
      }
    }
    if Line(p) in ts {
      assert Accepts(p, ts, w[..0]);
    }
    if AcceptsPrefix(p, Step(p, ts, w[0]), w[1..]) {
      var k :| 0 <= k <= |w[1..]| && Accepts(p, Step(p, ts, w[0]), w[1..][..k]);
      assert Accepts(p, Step(p, ts, w[0]), w[1..][..k + 1 - 1]);
      assert Accepts(p, ts, w[..k + 1]);
    }
  }

  lemma {:induction false} PrefixUnion(p: Re, ts: set<nat>, us: set<nat>, w: seq<nat>)
    ensures AcceptsPrefix(p, ts + us, w) <==> AcceptsPrefix(p, ts, w) || AcceptsPrefix(p, us, w)
  {
    forall k | 0 <= k <= |w|
      ensures Accepts(p, ts + us, w[..k]) <==> Accepts(p, ts, w[..k]) || Accepts(p, us, w[..k])
    {
      AcceptsUnion(p, ts, us, w[..k]);
    }
  }

  /** The automaton answers for what was already under way and for every later start. */
  lemma {:induction false} HitsMeaning(p: Re, ts: set<nat>, w: seq<nat>)
    ensures Hits(p, ts, w) <==> AcceptsPrefix(p, ts, w) || Occurs(p, w, 1)
    decreases |w|
  {
    if w == [] {
      assert w[..0] == w;
    } else {
      var n := Next(p, ts, w[0]);
      HitsMeaning(p, n, w[1..]);
      PrefixUnion(p, Initial(p), Step(p, ts, w[0]), w[1..]);
      PrefixStep(p, ts, w);
      OccursTail(p, w);
      OccursHere(p, w[1..]);
    }
  }

  /** Started on the initial positions, the automaton decides whether p occurs in w. */
  lemma HitsDecidesOccurrence(p: Re, w: seq<nat>)
    ensures Hits(p, Initial(p), w) <==> exists i, k :: 0 <= i <= k <= |w| && Lang(p, w[i..k])
  {
    HitsMeaning(p, Initial(p), w);
    OccursHere(p, w);
  }
}
