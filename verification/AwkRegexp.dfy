/** Regular expressions as awk's parser hands them to makedfa (cmd/awk/b.c), what they mean,
    and the position automaton of an expression.

    Positions are leaf indices.  Every function below takes the index `b` of the leftmost leaf of
    the subexpression it is applied to, so that a subexpression keeps the indices its leaves have
    in the whole tree. */
module AwkRegexp {

  const NCHARS: nat := 257
  const HAT: nat := 256

  datatype Leaf =
    | Char(c: nat)
    | Dot
    | Ccl(s: seq<nat>)
    | Nccl(s: seq<nat>)

  datatype Re =
    | Sym(leaf: Leaf)
    | Final(t: Re)
    | Star(t: Re)
    | Plus(t: Re)
    | Quest(t: Re)
    | Cat(l: Re, r: Re)
    | Or(l: Re, r: Re)

  /** The symbol test made while the automaton is built. */
  predicate Matches(leaf: Leaf, c: nat) {
    match leaf
    case Char(d) => c == d
    case Dot => true
    case Ccl(s) => c in s
    case Nccl(s) => c !in s
  }

  predicate IsByte(c: nat) {
    1 <= c <= 255
  }

  /** No anchors: every CHAR leaf and every class holds only nonzero bytes. */
  predicate AnchorFree(e: Re) {
    match e
    case Sym(Char(c)) => IsByte(c)
    case Sym(Dot) => true
    case Sym(Ccl(s)) => forall c :: c in s ==> IsByte(c)
    case Sym(Nccl(s)) => forall c :: c in s ==> IsByte(c)
    case Final(t) => AnchorFree(t)
    case Star(t) => AnchorFree(t)
    case Plus(t) => AnchorFree(t)
    case Quest(t) => AnchorFree(t)
    case Cat(l, r) => AnchorFree(l) && AnchorFree(r)
    case Or(l, r) => AnchorFree(l) && AnchorFree(r)
  }

  /** FINAL is installed by makedfa and is not part of what the parser builds. */
  predicate FinalFree(e: Re) {
    match e
    case Sym(_) => true
    case Final(_) => false
    case Star(t) => FinalFree(t)
    case Plus(t) => FinalFree(t)
    case Quest(t) => FinalFree(t)
    case Cat(l, r) => FinalFree(l) && FinalFree(r)
    case Or(l, r) => FinalFree(l) && FinalFree(r)
  }

  // ----- meaning ---------------------------------------------------------------------------

  predicate EmptyClass(leaf: Leaf) {
    leaf.Ccl? && leaf.s == []
  }

  /** w is in the language of e. */
  ghost predicate Lang(e: Re, w: seq<nat>)
    decreases e, 0, 0
  {
    match e
    case Sym(leaf) => if EmptyClass(leaf) then w == [] else |w| == 1 && Matches(leaf, w[0])
    case Final(t) => Lang(t, w)
    case Star(t) => Many(t, w)
    case Plus(t) => exists k :: 0 <= k <= |w| && Lang(t, w[..k]) && Many(t, w[k..])
    case Quest(t) => w == [] || Lang(t, w)
    case Cat(l, r) => exists k :: 0 <= k <= |w| && Lang(l, w[..k]) && Lang(r, w[k..])
    case Or(l, r) => Lang(l, w) || Lang(r, w)
  }

  /** w is a concatenation of nonempty words of t. */
  ghost predicate Many(t: Re, w: seq<nat>)
    decreases t, 1, |w|
  {
    w == [] || exists k :: 0 < k <= |w| && Lang(t, w[..k]) && Many(t, w[k..])
  }

  // ----- positions -------------------------------------------------------------------------

  function Leaves(e: Re): (n: nat)
    ensures n > 0
  {
    match e
    case Sym(_) => 1
    case Final(t) => Leaves(t)
    case Star(t) => Leaves(t)
    case Plus(t) => Leaves(t)
    case Quest(t) => Leaves(t)
    case Cat(l, r) => Leaves(l) + Leaves(r)
    case Or(l, r) => Leaves(l) + Leaves(r)
  }

  predicate Within(e: Re, b: nat, i: nat) {
    b <= i < b + Leaves(e)
  }

  function LeafAt(e: Re, b: nat, i: nat): Leaf
    requires Within(e, b, i)
  {
    match e
    case Sym(leaf) => leaf
    case Final(t) => LeafAt(t, b, i)
    case Star(t) => LeafAt(t, b, i)
    case Plus(t) => LeafAt(t, b, i)
    case Quest(t) => LeafAt(t, b, i)
    case Cat(l, r) => if Within(l, b, i) then LeafAt(l, b, i) else LeafAt(r, b + Leaves(l), i)
    case Or(l, r) => if Within(l, b, i) then LeafAt(l, b, i) else LeafAt(r, b + Leaves(l), i)
  }

  predicate Nullable(e: Re) {
    match e
    case Sym(leaf) => EmptyClass(leaf)
    case Final(t) => Nullable(t)
    case Star(t) => true
    case Plus(t) => Nullable(t)
    case Quest(t) => true
    case Cat(l, r) => Nullable(l) && Nullable(r)
    case Or(l, r) => Nullable(l) || Nullable(r)
  }

  function First(e: Re, b: nat): (f: set<nat>)
    ensures forall i :: i in f ==> Within(e, b, i)
    ensures f != {}
  {
    match e
    case Sym(_) => {b}
    case Final(t) => First(t, b)
    case Star(t) => First(t, b)
    case Plus(t) => First(t, b)
    case Quest(t) => First(t, b)
    case Cat(l, r) => First(l, b) + if Nullable(l) then First(r, b + Leaves(l)) else {}
    case Or(l, r) => First(l, b) + First(r, b + Leaves(l))
  }

  /** Matching position i can be the last thing a match of e does. */
  predicate IsLast(e: Re, b: nat, i: nat)
    requires Within(e, b, i)
  {
    match e
    case Sym(_) => true
    case Final(t) => IsLast(t, b, i)
    case Star(t) => IsLast(t, b, i)
    case Plus(t) => IsLast(t, b, i)
    case Quest(t) => IsLast(t, b, i)
    case Cat(l, r) =>
      if Within(l, b, i) then IsLast(l, b, i) && Nullable(r) else IsLast(r, b + Leaves(l), i)
    case Or(l, r) =>
      if Within(l, b, i) then IsLast(l, b, i) else IsLast(r, b + Leaves(l), i)
  }

  function IfLast(e: Re, b: nat, i: nat, f: set<nat>): (s: set<nat>)
    requires Within(e, b, i)
  {
    if IsLast(e, b, i) then f else {}
  }

  /** The positions that can be matched right after position i inside e. */
  function Follow(e: Re, b: nat, i: nat): (f: set<nat>)
    requires Within(e, b, i)
    ensures forall j :: j in f ==> Within(e, b, j)
  {
    match e
    case Sym(_) => {}
    case Final(t) => Follow(t, b, i)
    case Star(t) => Follow(t, b, i) + IfLast(t, b, i, First(t, b))
    case Plus(t) => Follow(t, b, i) + IfLast(t, b, i, First(t, b))
    case Quest(t) => Follow(t, b, i)
    case Cat(l, r) =>
      if Within(l, b, i) then Follow(l, b, i) + IfLast(l, b, i, First(r, b + Leaves(l)))
      else Follow(r, b + Leaves(l), i)
    case Or(l, r) =>
      if Within(l, b, i) then Follow(l, b, i) else Follow(r, b + Leaves(l), i)
  }

  // ----- what remains to be matched after a position -----------------------------------------

  /** w completes a match of e in which position i was just matched. */
  ghost predicate After(e: Re, b: nat, i: nat, w: seq<nat>)
    requires Within(e, b, i)
  {
    match e
    case Sym(_) => w == []
    case Final(t) => After(t, b, i, w)
    case Star(t) => exists k :: 0 <= k <= |w| && After(t, b, i, w[..k]) && Many(t, w[k..])
    case Plus(t) => exists k :: 0 <= k <= |w| && After(t, b, i, w[..k]) && Many(t, w[k..])
    case Quest(t) => After(t, b, i, w)
    case Cat(l, r) =>
      if Within(l, b, i) then exists k :: 0 <= k <= |w| && After(l, b, i, w[..k]) && Lang(r, w[k..])
      else After(r, b + Leaves(l), i, w)
    case Or(l, r) =>
      if Within(l, b, i) then After(l, b, i, w) else After(r, b + Leaves(l), i, w)
  }

  /** Some position of ps takes the first symbol of w and the rest of w completes e. */
  ghost predicate Enters(e: Re, b: nat, ps: set<nat>, w: seq<nat>)
    requires w != []
  {
    exists i :: i in ps && Within(e, b, i) && Matches(LeafAt(e, b, i), w[0]) && After(e, b, i, w[1..])
  }

  lemma {:induction false} NullableIsEmptyWord(e: Re)
    ensures Lang(e, []) <==> Nullable(e)
  {
    var w: seq<nat> := [];
    assert w[..0] == w && w[0..] == w;
    match e
    case Sym(_) =>
    case Final(t) => NullableIsEmptyWord(t);
    case Star(t) =>
    case Plus(t) => NullableIsEmptyWord(t); assert Lang(t, w[..0]) == Lang(t, w);
    case Quest(t) =>
    case Cat(l, r) => NullableIsEmptyWord(l); NullableIsEmptyWord(r); assert Lang(l, w[..0]) == Lang(l, w);
    case Or(l, r) => NullableIsEmptyWord(l); NullableIsEmptyWord(r);
  }

  /** Splitting a word after its first symbol commutes with splitting it later on. */
  lemma {:induction false} SplitTail(w: seq<nat>, k: nat)
    requires 0 < k <= |w|
    ensures w[..k][0] == w[0] && w[..k][1..] == w[1..][..k - 1] && w[k..] == w[1..][k - 1..]
  {
  }

  /** A position of t, inside t*, leaves the rest of a turn and then more turns. */
  lemma {:induction false} LoopStep(t: Re, b: nat, ps: set<nat>, w: seq<nat>)
    requires w != [] && forall i :: i in ps ==> Within(t, b, i)
    ensures Enters(Star(t), b, ps, w) <==>
            exists k :: 0 < k <= |w| && Enters(t, b, ps, w[..k]) && Many(t, w[k..])
  {
    if Enters(Star(t), b, ps, w) {
      var i :| i in ps && Within(Star(t), b, i) && Matches(LeafAt(Star(t), b, i), w[0]) && After(Star(t), b, i, w[1..]);
      var k :| 0 <= k <= |w[1..]| && After(t, b, i, w[1..][..k]) && Many(t, w[1..][k..]);
      SplitTail(w, k + 1);
      assert Enters(t, b, ps, w[..k + 1]) && Many(t, w[k + 1..]);
    }
    forall k | 0 < k <= |w| && Enters(t, b, ps, w[..k]) && Many(t, w[k..])
      ensures Enters(Star(t), b, ps, w)
    {
      var i :| i in ps && Within(t, b, i) && Matches(LeafAt(t, b, i), w[..k][0]) && After(t, b, i, w[..k][1..]);
      SplitTail(w, k);
      assert After(t, b, i, w[1..][..k - 1]) && Many(t, w[1..][k - 1..]);
      assert After(Star(t), b, i, w[1..]);
    }
  }

  /** A nonempty word of t* starts at a first position of t. */
  lemma {:induction false} ManyEnters(t: Re, b: nat, w: seq<nat>)
    requires w != []
    requires forall u: seq<nat> :: u != [] ==> (Lang(t, u) <==> Enters(t, b, First(t, b), u))
    ensures Many(t, w) <==> Enters(Star(t), b, First(t, b), w)
  {
    LoopStep(t, b, First(t, b), w);
    if Many(t, w) {
      var k :| 0 < k <= |w| && Lang(t, w[..k]) && Many(t, w[k..]);
      assert Enters(t, b, First(t, b), w[..k]);
    }
    if Enters(Star(t), b, First(t, b), w) {
      var k :| 0 < k <= |w| && Enters(t, b, First(t, b), w[..k]) && Many(t, w[k..]);
      assert Lang(t, w[..k]);
    }
  }

  /** Star and Plus leave the same work after each of their positions. */
  lemma {:induction false} PlusAsStar(t: Re, b: nat, ps: set<nat>, w: seq<nat>)
    requires w != [] && forall i :: i in ps ==> Within(t, b, i)
    ensures Enters(Star(t), b, ps, w) <==> Enters(Plus(t), b, ps, w)
  {
    forall i | Within(t, b, i) ensures After(Star(t), b, i, w[1..]) <==> After(Plus(t), b, i, w[1..]) {
    }
  }

  lemma {:induction false} LangEnters(e: Re, b: nat, w: seq<nat>)
    requires w != []
    ensures Lang(e, w) <==> Enters(e, b, First(e, b), w)
    decreases e
  {
    match e
    case Sym(leaf) =>
      assert w[1..] == [] <==> |w| == 1;
      assert b in First(e, b);
    case Final(t) =>
      LangEnters(t, b, w);
    case Star(t) =>
      forall u: seq<nat> | u != [] ensures Lang(t, u) <==> Enters(t, b, First(t, b), u) { LangEnters(t, b, u); }
      ManyEnters(t, b, w);
    case Plus(t) =>
      forall u: seq<nat> | u != [] ensures Lang(t, u) <==> Enters(t, b, First(t, b), u) { LangEnters(t, b, u); }
      ManyEnters(t, b, w);
      PlusAsStar(t, b, First(t, b), w);
      PlusIsStar(t, w);
    case Quest(t) =>
      LangEnters(t, b, w);
    case Cat(l, r) =>
      CatEnters(l, r, b, w);
    case Or(l, r) =>
      LangEnters(l, b, w);
      LangEnters(r, b + Leaves(l), w);
      OrEnters(l, r, b, First(l, b), First(r, b + Leaves(l)), w);
  }

  /** A nonempty word is in t+ exactly when it is in t*. */
  lemma {:induction false} PlusIsStar(t: Re, w: seq<nat>)
    requires w != []
    ensures Lang(Plus(t), w) <==> Many(t, w)
  {
    if Lang(Plus(t), w) {
      var k :| 0 <= k <= |w| && Lang(t, w[..k]) && Many(t, w[k..]);
      if k == 0 {
        assert w[0..] == w;
      }
    }
  }

  lemma {:induction false} OrEnters(l: Re, r: Re, b: nat, ls: set<nat>, rs: set<nat>, w: seq<nat>)
    requires w != []
    requires forall i :: i in ls ==> Within(l, b, i)
    requires forall i :: i in rs ==> Within(r, b + Leaves(l), i)
    ensures Enters(Or(l, r), b, ls + rs, w) <==> Enters(l, b, ls, w) || Enters(r, b + Leaves(l), rs, w)
  {
    if Enters(Or(l, r), b, ls + rs, w) {
      var i :| i in ls + rs && Within(Or(l, r), b, i) && Matches(LeafAt(Or(l, r), b, i), w[0]) && After(Or(l, r), b, i, w[1..]);
      if i in ls {
        assert Enters(l, b, ls, w);
      } else {
        assert Enters(r, b + Leaves(l), rs, w);
      }
    }
    if Enters(l, b, ls, w) {
      var i :| i in ls && Within(l, b, i) && Matches(LeafAt(l, b, i), w[0]) && After(l, b, i, w[1..]);
      assert i in ls + rs && After(Or(l, r), b, i, w[1..]);
    }
    if Enters(r, b + Leaves(l), rs, w) {
      var i :| i in rs && Within(r, b + Leaves(l), i) && Matches(LeafAt(r, b + Leaves(l), i), w[0]) && After(r, b + Leaves(l), i, w[1..]);
      assert i in ls + rs && After(Or(l, r), b, i, w[1..]);
    }
  }

  /** Left positions of a concatenation leave the rest of l and then a word of r. */
  lemma {:induction false} CatLeftEnters(l: Re, r: Re, b: nat, ps: set<nat>, w: seq<nat>)
    requires w != [] && forall i :: i in ps ==> Within(l, b, i)
    ensures Enters(Cat(l, r), b, ps, w) <==>
            exists k :: 0 < k <= |w| && Enters(l, b, ps, w[..k]) && Lang(r, w[k..])
  {
    if Enters(Cat(l, r), b, ps, w) {
      var i :| i in ps && Within(Cat(l, r), b, i) && Matches(LeafAt(Cat(l, r), b, i), w[0]) && After(Cat(l, r), b, i, w[1..]);
      var k :| 0 <= k <= |w[1..]| && After(l, b, i, w[1..][..k]) && Lang(r, w[1..][k..]);
      SplitTail(w, k + 1);
      assert Enters(l, b, ps, w[..k + 1]) && Lang(r, w[k + 1..]);
    }
    forall k | 0 < k <= |w| && Enters(l, b, ps, w[..k]) && Lang(r, w[k..])
      ensures Enters(Cat(l, r), b, ps, w)
    {
      var i :| i in ps && Within(l, b, i) && Matches(LeafAt(l, b, i), w[..k][0]) && After(l, b, i, w[..k][1..]);
      SplitTail(w, k);
      assert After(l, b, i, w[1..][..k - 1]) && Lang(r, w[1..][k - 1..]);
      assert After(Cat(l, r), b, i, w[1..]);
    }
  }

  lemma {:induction false} CatRightEnters(l: Re, r: Re, b: nat, ps: set<nat>, w: seq<nat>)
    requires w != [] && forall i :: i in ps ==> Within(r, b + Leaves(l), i)
    ensures Enters(Cat(l, r), b, ps, w) <==> Enters(r, b + Leaves(l), ps, w)
  {
  }

  lemma {:induction false} EntersUnion(e: Re, b: nat, ps: set<nat>, qs: set<nat>, w: seq<nat>)
    requires w != []
    ensures Enters(e, b, ps + qs, w) <==> Enters(e, b, ps, w) || Enters(e, b, qs, w)
  {
    if Enters(e, b, ps, w) {
      var i :| i in ps && Within(e, b, i) && Matches(LeafAt(e, b, i), w[0]) && After(e, b, i, w[1..]);
      assert i in ps + qs;
    }
    if Enters(e, b, qs, w) {
      var i :| i in qs && Within(e, b, i) && Matches(LeafAt(e, b, i), w[0]) && After(e, b, i, w[1..]);
      assert i in ps + qs;
    }
  }

  lemma {:induction false} CatEnters(l: Re, r: Re, b: nat, w: seq<nat>)
    requires w != []
    ensures Lang(Cat(l, r), w) <==> Enters(Cat(l, r), b, First(Cat(l, r), b), w)
    decreases Cat(l, r), 0
  {
    var fl, fr := First(l, b), First(r, b + Leaves(l));
    CatLeftEnters(l, r, b, fl, w);
    CatRightEnters(l, r, b, fr, w);
    EntersUnion(Cat(l, r), b, fl, fr, w);
    LangEnters(r, b + Leaves(l), w);
    NullableIsEmptyWord(l);
    assert w[..0] == [] && w[0..] == w;
    forall k | 0 < k <= |w| ensures Lang(l, w[..k]) <==> Enters(l, b, fl, w[..k]) {
      LangEnters(l, b, w[..k]);
    }
    assert First(Cat(l, r), b) == if Nullable(l) then fl + fr else fl;
    if Lang(Cat(l, r), w) {
      var k :| 0 <= k <= |w| && Lang(l, w[..k]) && Lang(r, w[k..]);
      if k == 0 {
        assert Enters(r, b + Leaves(l), fr, w);
      } else {
        assert Enters(l, b, fl, w[..k]);
      }
    }
    if Enters(Cat(l, r), b, fl, w) {
      var k :| 0 < k <= |w| && Enters(l, b, fl, w[..k]) && Lang(r, w[k..]);
      assert Lang(l, w[..k]);
    } else if Nullable(l) && Enters(Cat(l, r), b, fr, w) {
      assert Lang(l, w[..0]) && Lang(r, w[0..]);
    }
  }

  /** The position automaton: what e leaves after i is what some follower of i starts. */
  lemma {:induction false} AfterEnters(e: Re, b: nat, i: nat, w: seq<nat>)
    requires Within(e, b, i)
    ensures w == [] ==> (After(e, b, i, w) <==> IsLast(e, b, i))
    ensures w != [] ==> (After(e, b, i, w) <==> Enters(e, b, Follow(e, b, i), w))
    decreases e, 1
  {
    match e
    case Sym(_) =>
    case Final(t) => AfterEnters(t, b, i, w);
    case Quest(t) => AfterEnters(t, b, i, w);
    case Star(t) => LoopAfter(t, b, i, w);
    case Plus(t) =>
      LoopAfter(t, b, i, w);
      if w != [] {
        PlusAsStar(t, b, Follow(e, b, i), w);
      }
    case Cat(l, r) =>
      if Within(l, b, i) {
        CatLeftAfter(l, r, b, i, w);
      } else {
        AfterEnters(r, b + Leaves(l), i, w);
        if w != [] {
          CatRightEnters(l, r, b, Follow(e, b, i), w);
        }
      }
    case Or(l, r) =>
      if Within(l, b, i) {
        AfterEnters(l, b, i, w);
        if w != [] {
          OrEnters(l, r, b, Follow(l, b, i), {}, w);
          assert Follow(l, b, i) + {} == Follow(l, b, i);
        }
      } else {
        AfterEnters(r, b + Leaves(l), i, w);
        if w != [] {
          OrEnters(l, r, b, {}, Follow(r, b + Leaves(l), i), w);
          assert {} + Follow(r, b + Leaves(l), i) == Follow(r, b + Leaves(l), i);
        }
      }
  }

  /** Position i of t is followed, inside t*, by one more step of t or by a fresh turn of it. */
  lemma {:induction false} LoopAfter(t: Re, b: nat, i: nat, w: seq<nat>)
    requires Within(t, b, i)
    ensures w == [] ==> (After(Star(t), b, i, w) <==> IsLast(t, b, i))
    ensures w != [] ==> (After(Star(t), b, i, w) <==> Enters(Star(t), b, Follow(Star(t), b, i), w))
    decreases t, 2
  {
    assert w[..0] == [] && w[0..] == w;
    AfterEnters(t, b, i, []);
    if w != [] {
      var f, g := Follow(t, b, i), First(t, b);
      forall u: seq<nat> | u != [] ensures Lang(t, u) <==> Enters(t, b, g, u) { LangEnters(t, b, u); }
      ManyEnters(t, b, w);
      EntersUnion(Star(t), b, f, IfLast(t, b, i, g), w);
      LoopStep(t, b, f, w);
      forall k | 0 < k <= |w| ensures After(t, b, i, w[..k]) <==> Enters(t, b, f, w[..k]) {
        AfterEnters(t, b, i, w[..k]);
      }
      if After(Star(t), b, i, w) {
        var k :| 0 <= k <= |w| && After(t, b, i, w[..k]) && Many(t, w[k..]);
        if k > 0 {
          assert Enters(t, b, f, w[..k]);
        }
      }
      if Enters(Star(t), b, f, w) {
        var k :| 0 < k <= |w| && Enters(t, b, f, w[..k]) && Many(t, w[k..]);
        assert After(t, b, i, w[..k]);
      }
      if IsLast(t, b, i) && Enters(Star(t), b, g, w) {
        assert After(t, b, i, w[..0]) && Many(t, w[0..]);
      }
    }
  }

  lemma {:induction false} CatLeftAfter(l: Re, r: Re, b: nat, i: nat, w: seq<nat>)
    requires Within(l, b, i)
    ensures w == [] ==> (After(Cat(l, r), b, i, w) <==> IsLast(Cat(l, r), b, i))
    ensures w != [] ==> (After(Cat(l, r), b, i, w) <==> Enters(Cat(l, r), b, Follow(Cat(l, r), b, i), w))
    decreases Cat(l, r), 0
  {
    AfterEnters(l, b, i, []);
    NullableIsEmptyWord(r);
    if w == [] {
      assert w[..0] == [] && w[0..] == w;
    } else {
      var f, g := Follow(l, b, i), First(r, b + Leaves(l));
      LangEnters(r, b + Leaves(l), w);
      CatRightEnters(l, r, b, g, w);
      forall k | 0 < k <= |w| ensures After(l, b, i, w[..k]) <==> Enters(l, b, f, w[..k]) {
        AfterEnters(l, b, i, w[..k]);
      }
      CatLeftStep(l, r, b, i, w);
      EntersUnion(Cat(l, r), b, f, IfLast(l, b, i, g), w);
    }
  }

  lemma {:induction false} CatLeftStep(l: Re, r: Re, b: nat, i: nat, w: seq<nat>)
    requires Within(l, b, i) && w != []
    requires After(l, b, i, []) <==> IsLast(l, b, i)
    requires forall k :: 0 < k <= |w| ==> (After(l, b, i, w[..k]) <==> Enters(l, b, Follow(l, b, i), w[..k]))
    ensures After(Cat(l, r), b, i, w) <==>
            Enters(Cat(l, r), b, Follow(l, b, i), w) || (IsLast(l, b, i) && Lang(r, w))
  {
    var f := Follow(l, b, i);
    assert w[..0] == [] && w[0..] == w;
    CatLeftEnters(l, r, b, f, w);
    if After(Cat(l, r), b, i, w) {
      var k :| 0 <= k <= |w| && After(l, b, i, w[..k]) && Lang(r, w[k..]);
      if k > 0 {
        assert Enters(l, b, f, w[..k]);
      }
    }
    if Enters(Cat(l, r), b, f, w) {
      var k :| 0 < k <= |w| && Enters(l, b, f, w[..k]) && Lang(r, w[k..]);
      assert After(l, b, i, w[..k]);
    }
    if IsLast(l, b, i) && Lang(r, w) {
      assert After(l, b, i, w[..0]) && Lang(r, w[0..]);
    }
  }
}
