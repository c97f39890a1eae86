/** Nodes of an expression tree.  b.c names a node by a pointer; here a node is named by the path
    that leads to it from the root, so two equal subtrees are still two nodes. */
module AwkTree {
  import opened AwkRegexp

  /** At each step, false is left(v) and true is right(v). */
  type Path = seq<bool>

  predicate HasChild(e: Re, d: bool) {
    match e
    case Sym(_) => false
    case Cat(_, _) => true
    case Or(_, _) => true
    case _ => !d
  }

  function Child(e: Re, d: bool): Re
    requires HasChild(e, d)
  {
    match e
    case Final(t) => t
    case Star(t) => t
    case Plus(t) => t
    case Quest(t) => t
    case Cat(l, r) => if d then r else l
    case Or(l, r) => if d then r else l
  }

  /** Leaves of e that lie before its child d. */
  function Skipped(e: Re, d: bool): nat
    requires HasChild(e, d)
  {
    if d then Leaves(Child(e, false)) else 0
  }

  predicate IsNode(e: Re, v: Path)
    decreases |v|
  {
    v == [] || (HasChild(e, v[0]) && IsNode(Child(e, v[0]), v[1..]))
  }

  function At(e: Re, v: Path): Re
    requires IsNode(e, v)
    decreases |v|
  {
    if v == [] then e else At(Child(e, v[0]), v[1..])
  }

  /** The index of the leftmost leaf at or below node v. */
  function Base(e: Re, b: nat, v: Path): nat
    requires IsNode(e, v)
    decreases |v|
  {
    if v == [] then b else Base(Child(e, v[0]), b + Skipped(e, v[0]), v[1..])
  }

  function Parent(v: Path): Path
    requires v != []
  {
    v[..|v| - 1]
  }

  function Height(e: Re): (h: nat)
    ensures h > 0
  {
    match e
    case Sym(_) => 1
    case Final(t) => 1 + Height(t)
    case Star(t) => 1 + Height(t)
    case Plus(t) => 1 + Height(t)
    case Quest(t) => 1 + Height(t)
    case Cat(l, r) => 1 + if Height(l) > Height(r) then Height(l) else Height(r)
    case Or(l, r) => 1 + if Height(l) > Height(r) then Height(l) else Height(r)
  }

  /** Stepping down from a node extends its path by one. */
  lemma {:induction false} Descend(e: Re, b: nat, v: Path, d: bool)
    requires IsNode(e, v) && HasChild(At(e, v), d)
    ensures IsNode(e, v + [d]) && At(e, v + [d]) == Child(At(e, v), d)
    ensures Base(e, b, v + [d]) == Base(e, b, v) + Skipped(At(e, v), d)
    decreases |v|
  {
    var u := v + [d];
    if v == [] {
      assert u[1..] == [];
    } else {
      assert u[0] == v[0] && u[1..] == v[1..] + [d];
      Descend(Child(e, v[0]), b + Skipped(e, v[0]), v[1..], d);
    }
  }

  /** The two children of a node share out its leaves, left child first. */
  lemma DescendBoth(e: Re, v: Path)
    requires IsNode(e, v) && (At(e, v).Cat? || At(e, v).Or?)
    ensures IsNode(e, v + [false]) && IsNode(e, v + [true])
    ensures var t, l, r := At(e, v), At(e, v + [false]), At(e, v + [true]);
            && Height(l) < Height(t) && Height(r) < Height(t) && Work(l) + Work(r) < Work(t)
            && Leaves(t) == Leaves(l) + Leaves(r)
            && Base(e, 0, v + [false]) == Base(e, 0, v) && Base(e, 0, v + [true]) == Base(e, 0, v) + Leaves(l)
  {
    hide IsNode, At, Base;
    Descend(e, 0, v, false);
    Descend(e, 0, v, true);
  }

  /** Stepping up from a node shortens its path by one. */
  lemma {:induction false} Ascend(e: Re, b: nat, v: Path)
    requires v != [] && IsNode(e, v)
    ensures IsNode(e, Parent(v))
    ensures HasChild(At(e, Parent(v)), v[|v| - 1]) && At(e, v) == Child(At(e, Parent(v)), v[|v| - 1])
    ensures Base(e, b, v) == Base(e, b, Parent(v)) + Skipped(At(e, Parent(v)), v[|v| - 1])
    decreases |v|
  {
    if |v| > 1 {
      assert Parent(v)[0] == v[0] && Parent(v)[1..] == Parent(v[1..]);
      Ascend(Child(e, v[0]), b + Skipped(e, v[0]), v[1..]);
    }
  }

  /** A node's leaves are leaves of the tree, with the same labels. */
  lemma {:induction false} NodeWithin(e: Re, b: nat, v: Path, i: nat)
    requires IsNode(e, v) && Within(At(e, v), Base(e, b, v), i)
    ensures Within(e, b, i) && LeafAt(e, b, i) == LeafAt(At(e, v), Base(e, b, v), i)
    decreases |v|
  {
    if v != [] {
      NodeWithin(Child(e, v[0]), b + Skipped(e, v[0]), v[1..], i);
    }
  }

  predicate IsLeafNode(e: Re, v: Path) {
    IsNode(e, v) && At(e, v).Sym?
  }

  /** Two leaves with one index are one leaf. */
  lemma {:induction false} LeafUnique(e: Re, b: nat, u: Path, v: Path)
    requires IsLeafNode(e, u) && IsLeafNode(e, v) && Base(e, b, u) == Base(e, b, v)
    ensures u == v
    decreases |u|
  {
    if u == [] {
    } else if v == [] {
    } else {
      var i := Base(e, b, u);
      NodeWithin(Child(e, u[0]), b + Skipped(e, u[0]), u[1..], i);
      NodeWithin(Child(e, v[0]), b + Skipped(e, v[0]), v[1..], i);
      assert u[0] == v[0];
      LeafUnique(Child(e, u[0]), b + Skipped(e, u[0]), u[1..], v[1..]);
      assert u == [u[0]] + u[1..] && v == [v[0]] + v[1..];
    }
  }

  /** A stack of nodes waiting to be walked covers the leaves from `from` on: the top of the stack
      (its last element) starts at `from`, and each node below starts where the one above ends. */
  predicate Covers(e: Re, walk: seq<Path>, from: nat) {
    if walk == [] then from == Leaves(e)
    else
      var v := walk[|walk| - 1];
      IsNode(e, v) && Base(e, 0, v) == from && Covers(e, walk[..|walk| - 1], from + Leaves(At(e, v)))
  }

  /** No node waiting at depth k of the stack can make it outgrow the height of the tree. */
  predicate Fits(e: Re, walk: seq<Path>) {
    forall k :: 0 <= k < |walk| ==> IsNode(e, walk[k]) && k + Height(At(e, walk[k])) <= Height(e)
  }

  lemma {:induction false} CoversPush(e: Re, walk: seq<Path>, v: Path, from: nat)
    requires IsNode(e, v) && Base(e, 0, v) == from && Covers(e, walk, from + Leaves(At(e, v)))
    ensures Covers(e, walk + [v], from)
  {
    assert (walk + [v])[..|walk|] == walk;
  }

  lemma {:induction false} CoversBound(e: Re, walk: seq<Path>, from: nat)
    requires Covers(e, walk, from)
    ensures from <= Leaves(e)
    decreases |walk|
  {
    if walk != [] {
      CoversBound(e, walk[..|walk| - 1], from + Leaves(At(e, walk[|walk| - 1])));
    }
  }

  /** Replacing the top of the stack by its children, right below left. */
  function Pushed(e: Re, walk: seq<Path>): seq<Path>
    requires walk != [] && IsNode(e, walk[|walk| - 1])
  {
    var v, below := walk[|walk| - 1], walk[..|walk| - 1];
    match At(e, v)
    case Sym(_) => below
    case Cat(_, _) | Or(_, _) => below + [v + [true]] + [v + [false]]
    case _ => below + [v + [false]]
  }

  /** A walk starts with the root alone on the stack. */
  lemma WalkStart(e: Re)
    ensures Covers(e, [[]], 0) && Fits(e, [[]])
  {
    var walk: seq<Path> := [];
    CoversPush(e, walk, [], 0);
    assert walk + [[]] == [[]];
  }

  /** One step of a left-to-right walk: a leaf is left behind, any other node is opened up. */
  lemma {:induction false} WalkStep(e: Re, walk: seq<Path>, from: nat)
    requires walk != [] && Covers(e, walk, from) && Fits(e, walk)
    ensures var w := Pushed(e, walk);
            && Covers(e, w, if At(e, walk[|walk| - 1]).Sym? then from + 1 else from)
            && Fits(e, w) && StackWork(e, w) < StackWork(e, walk)
  {
    hide IsNode, At, Base, Work, Height;
    var v, below := walk[|walk| - 1], walk[..|walk| - 1];
    assert Fits(e, below) && |below| + Height(At(e, v)) <= Height(e);
    if At(e, v).Sym? {
    } else if At(e, v).Cat? || At(e, v).Or? {
      OpenBoth(e, below, v, from);
    } else {
      OpenOne(e, below, v, from);
    }
  }

  /** Pushing a node that starts at `from` in front of what the stack already covers. */
  lemma {:induction false} PushNode(e: Re, below: seq<Path>, v: Path, from: nat)
    requires IsNode(e, v) && Base(e, 0, v) == from && Covers(e, below, from + Leaves(At(e, v)))
    requires Fits(e, below) && |below| + Height(At(e, v)) <= Height(e)
    ensures Covers(e, below + [v], from) && Fits(e, below + [v])
    ensures StackWork(e, below + [v]) == StackWork(e, below) + Work(At(e, v))
  {
    CoversPush(e, below, v, from);
    StackWorkPush(e, below, v);
  }

  lemma {:induction false} OpenOne(e: Re, below: seq<Path>, v: Path, from: nat)
    requires IsNode(e, v) && !At(e, v).Sym? && !At(e, v).Cat? && !At(e, v).Or? && Base(e, 0, v) == from
    requires Covers(e, below, from + Leaves(At(e, v))) && Fits(e, below) && |below| + Height(At(e, v)) <= Height(e)
    ensures var w := below + [v + [false]];
            Covers(e, w, from) && Fits(e, w) && StackWork(e, w) < StackWork(e, below) + Work(At(e, v))
  {
    hide IsNode, At, Base, Covers;
    Descend(e, 0, v, false);
    PushNode(e, below, v + [false], from);
  }

  lemma {:induction false} OpenBoth(e: Re, below: seq<Path>, v: Path, from: nat)
    requires IsNode(e, v) && (At(e, v).Cat? || At(e, v).Or?) && Base(e, 0, v) == from
    requires Covers(e, below, from + Leaves(At(e, v))) && Fits(e, below) && |below| + Height(At(e, v)) <= Height(e)
    ensures var w := below + [v + [true]] + [v + [false]];
            Covers(e, w, from) && Fits(e, w) && StackWork(e, w) < StackWork(e, below) + Work(At(e, v))
  {
    hide *;
    DescendBoth(e, v);
    PushNode(e, below, v + [true], from + Leaves(At(e, v + [false])));
    PushNode(e, below + [v + [true]], v + [false], from);
  }

  /** Nodes still to be visited, counted with multiplicity of descendants. */
  function Work(e: Re): (n: nat)
    ensures n > 0
  {
    match e
    case Sym(_) => 1
    case Final(t) => 1 + Work(t)
    case Star(t) => 1 + Work(t)
    case Plus(t) => 1 + Work(t)
    case Quest(t) => 1 + Work(t)
    case Cat(l, r) => 1 + Work(l) + Work(r)
    case Or(l, r) => 1 + Work(l) + Work(r)
  }

  function StackWork(e: Re, walk: seq<Path>): nat
    requires forall k :: 0 <= k < |walk| ==> IsNode(e, walk[k])
  {
    if walk == [] then 0
    else StackWork(e, walk[..|walk| - 1]) + Work(At(e, walk[|walk| - 1]))
  }

  lemma {:induction false} StackWorkPush(e: Re, walk: seq<Path>, v: Path)
    requires (forall k :: 0 <= k < |walk| ==> IsNode(e, walk[k])) && IsNode(e, v)
    ensures StackWork(e, walk + [v]) == StackWork(e, walk) + Work(At(e, v))
  {
    assert (walk + [v])[..|walk|] == walk;
  }
}
