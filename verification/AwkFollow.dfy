/** penter, first, follow and cfoll of cmd/awk/b.c: numbering the leaves of the tree and computing
    the follow set of each.  A call that would reach overflo() reports failure. */
module AwkFollow {
  import opened AwkRegexp
  import opened AwkTree
  import opened AwkSubset
  import opened AwkPositions

  const MAXNODE: nat := 168

  // ----- what first() still owes -------------------------------------------------------------

  /** One entry of fsnode, fsphase and fsval. */
  datatype Frame = Frame(node: Path, phase: nat, val: int)

  /** first()'s answer for e: 0 when e matches the empty string. */
  function Answer(e: Re): int {
    if Nullable(e) then 0 else 1
  }

  /** The frame is waiting for an answer from one of its children. */
  predicate Waiting(root: Re, f: Frame) {
    && IsNode(root, f.node)
    && !At(root, f.node).Sym?
    && (f.phase == 1 || (f.phase == 2 && (At(root, f.node).Cat? || At(root, f.node).Or?)))
  }

  predicate AllWaiting(root: Re, st: seq<Frame>) {
    forall k :: 0 <= k < |st| ==> Waiting(root, st[k])
  }

  /** Leaves the frame still collects once it has received res. */
  function ReplySet(root: Re, f: Frame, res: int): set<nat>
    requires Waiting(root, f)
  {
    match At(root, f.node)
    case Cat(l, r) => if f.phase == 1 && res == 0 then First(r, Base(root, 0, f.node) + Leaves(l)) else {}
    case Or(l, r) => if f.phase == 1 then First(l, Base(root, 0, f.node)) else {}
    case _ => {}
  }

  /** The answer it then gives. */
  function ReplyRes(root: Re, f: Frame, res: int): int
    requires Waiting(root, f)
  {
    match At(root, f.node)
    case Cat(_, r) => if f.phase == 1 && res == 0 then Answer(r) else if res != 0 then 1 else 0
    case Or(l, _) =>
      if f.phase == 1 then (if Answer(l) == 0 || res == 0 then 0 else 1)
      else if res == 0 || f.val == 0 then 0 else 1
    case Star(_) | Quest(_) => 0
    case _ => if res != 0 then 1 else 0
  }

  /** Leaves still collected once the top frame of st has received res. */
  function ResumeSet(root: Re, st: seq<Frame>, res: int): set<nat>
    requires AllWaiting(root, st)
  {
    if st == [] then {}
    else
      var f, rest := st[|st| - 1], st[..|st| - 1];
      ReplySet(root, f, res) + ResumeSet(root, rest, ReplyRes(root, f, res))
  }

  /** The answer first() then returns. */
  function ResumeRes(root: Re, st: seq<Frame>, res: int): int
    requires AllWaiting(root, st)
  {
    if st == [] then res
    else ResumeRes(root, st[..|st| - 1], ReplyRes(root, st[|st| - 1], res))
  }

  lemma {:induction false} ResumePush(root: Re, st: seq<Frame>, f: Frame, res: int)
    requires AllWaiting(root, st) && Waiting(root, f)
    ensures AllWaiting(root, st + [f])
    ensures ResumeSet(root, st + [f], res) == ReplySet(root, f, res) + ResumeSet(root, st, ReplyRes(root, f, res))
    ensures ResumeRes(root, st + [f], res) == ResumeRes(root, st, ReplyRes(root, f, res))
  {
    hide ReplySet, ReplyRes;
    assert (st + [f])[..|st|] == st;
  }

  /** Opening a node: it waits for its first child. */
  lemma {:induction false} OpenFrame(root: Re, rest: seq<Frame>, v: Path, val: int)
    requires AllWaiting(root, rest) && IsNode(root, v) && !At(root, v).Sym?
    ensures var e := At(root, v); var u := v + [e.Or?]; var f := Frame(v, 1, val);
            && IsNode(root, u) && AllWaiting(root, rest + [f])
            && First(At(root, u), Base(root, 0, u)) + ResumeSet(root, rest + [f], Answer(At(root, u)))
               == First(e, Base(root, 0, v)) + ResumeSet(root, rest, Answer(e))
            && ResumeRes(root, rest + [f], Answer(At(root, u))) == ResumeRes(root, rest, Answer(e))
  {
    hide IsNode, At, Base, ResumeSet, ResumeRes;
    var e := At(root, v);
    Descend(root, 0, v, e.Or?);
    ResumePush(root, rest, Frame(v, 1, val), Answer(Child(e, e.Or?)));
  }

  /** Turning to the second child of a CAT or OR. */
  lemma {:induction false} TurnFrame(root: Re, rest: seq<Frame>, v: Path, val: int, val': int, res: int)
    requires AllWaiting(root, rest) && IsNode(root, v)
    requires (At(root, v).Or? && val' == res) || (At(root, v).Cat? && res == 0)
    ensures var u := v + [At(root, v).Cat?]; var f, g := Frame(v, 1, val), Frame(v, 2, val');
            && IsNode(root, u) && AllWaiting(root, rest + [g])
            && First(At(root, u), Base(root, 0, u)) + ResumeSet(root, rest + [g], Answer(At(root, u)))
               == ReplySet(root, f, res) + ResumeSet(root, rest, ReplyRes(root, f, res))
            && ResumeRes(root, rest + [g], Answer(At(root, u))) == ResumeRes(root, rest, ReplyRes(root, f, res))
  {
    hide IsNode, At, Base, ResumeSet, ResumeRes;
    var e := At(root, v);
    Descend(root, 0, v, e.Cat?);
    ResumePush(root, rest, Frame(v, 2, val'), Answer(Child(e, e.Cat?)));
  }

  /** Visits a waiting frame may still make. */
  function FrameWork(root: Re, f: Frame): nat
    requires IsNode(root, f.node)
  {
    if f.phase != 1 then 1
    else
      match At(root, f.node)
      case Cat(_, r) => 3 * Work(r) + 2
      case Or(l, _) => 3 * Work(l) + 2
      case _ => 1
  }

  function FramesWork(root: Re, st: seq<Frame>): nat
    requires AllWaiting(root, st)
  {
    if st == [] then 0 else FramesWork(root, st[..|st| - 1]) + FrameWork(root, st[|st| - 1])
  }

  lemma {:induction false} FramesWorkPush(root: Re, st: seq<Frame>, f: Frame)
    requires AllWaiting(root, st) && Waiting(root, f)
    ensures AllWaiting(root, st + [f])
    ensures FramesWork(root, st + [f]) == FramesWork(root, st) + FrameWork(root, f)
  {
    assert (st + [f])[..|st|] == st;
  }

  /** The node at depth k cannot push the stack beyond height h. */
  predicate FramesFit(root: Re, st: seq<Frame>, h: nat) {
    forall k :: 0 <= k < |st| ==> IsNode(root, st[k].node) && k + Height(At(root, st[k].node)) <= h
  }

  lemma TallerThanLeaf(e: Re)
    requires !e.Sym?
    ensures Height(e) >= 2
  {
  }

  lemma {:induction false} FitPush(root: Re, st: seq<Frame>, f: Frame, h: nat)
    requires FramesFit(root, st, h) && IsNode(root, f.node) && |st| + Height(At(root, f.node)) <= h
    ensures FramesFit(root, st + [f], h)
  {
    hide IsNode, At;
  }

  lemma {:induction false} OpenCost(root: Re, rest: seq<Frame>, v: Path, val: int, h: nat)
    requires AllWaiting(root, rest) && IsNode(root, v) && !At(root, v).Sym?
    requires FramesFit(root, rest, h) && |rest| + Height(At(root, v)) <= h
    ensures var u := v + [At(root, v).Or?]; var f := Frame(v, 1, val);
            && IsNode(root, u) && AllWaiting(root, rest + [f])
            && FramesFit(root, rest + [f], h) && |rest| + 1 + Height(At(root, u)) <= h
            && FramesWork(root, rest + [f]) + 3 * Work(At(root, u)) < FramesWork(root, rest) + 3 * Work(At(root, v))
  {
    hide IsNode, At, Base, FramesWork, FramesFit, AllWaiting;
    Descend(root, 0, v, At(root, v).Or?);
    FramesWorkPush(root, rest, Frame(v, 1, val));
    FitPush(root, rest, Frame(v, 1, val), h);
  }

  lemma {:induction false} TurnCost(root: Re, rest: seq<Frame>, v: Path, val: int, val': int, h: nat)
    requires AllWaiting(root, rest) && IsNode(root, v) && (At(root, v).Or? || At(root, v).Cat?)
    requires FramesFit(root, rest, h) && |rest| + Height(At(root, v)) <= h
    ensures var u := v + [At(root, v).Cat?]; var f, g := Frame(v, 1, val), Frame(v, 2, val');
            && IsNode(root, u) && AllWaiting(root, rest + [g])
            && FramesFit(root, rest + [g], h) && |rest| + 1 + Height(At(root, u)) <= h
            && FramesWork(root, rest + [g]) + 3 * Work(At(root, u)) < FramesWork(root, rest) + FrameWork(root, f)
  {
    hide IsNode, At, Base, FramesWork, FramesFit, AllWaiting;
    Descend(root, 0, v, At(root, v).Cat?);
    FramesWorkPush(root, rest, Frame(v, 2, val'));
    FitPush(root, rest, Frame(v, 2, val'), h);
  }

  /** Taking the top frame off the stack. */
  lemma {:induction false} PopFrame(root: Re, st: seq<Frame>, res: int, h: nat)
    requires st != [] && AllWaiting(root, st) && FramesFit(root, st, h)
    ensures var rest, f := st[..|st| - 1], st[|st| - 1];
            && AllWaiting(root, rest) && FramesFit(root, rest, h) && Waiting(root, f)
            && |rest| + Height(At(root, f.node)) <= h
            && FramesWork(root, st) == FramesWork(root, rest) + FrameWork(root, f) > FramesWork(root, rest)
            && ResumeSet(root, st, res) == ReplySet(root, f, res) + ResumeSet(root, rest, ReplyRes(root, f, res))
            && ResumeRes(root, st, res) == ResumeRes(root, rest, ReplyRes(root, f, res))
  {
    hide IsNode, At, Base, ReplySet, ReplyRes, Height;
  }

  /** first() about to enter node v with `rest` waiting: it still owes the leaves `owed` and will
      return ans, on a stack that stays within height h. */
  ghost predicate Entering(root: Re, rest: seq<Frame>, v: Path, owed: set<nat>, ans: int, h: nat) {
    && AllWaiting(root, rest) && FramesFit(root, rest, h)
    && IsNode(root, v) && |rest| + Height(At(root, v)) <= h
    && owed == First(At(root, v), Base(root, 0, v)) + ResumeSet(root, rest, Answer(At(root, v)))
    && ResumeRes(root, rest, Answer(At(root, v))) == ans
  }

  /** first() about to hand the answer res to the top of `rest`. */
  ghost predicate Answering(root: Re, rest: seq<Frame>, res: int, owed: set<nat>, ans: int, h: nat) {
    && AllWaiting(root, rest) && FramesFit(root, rest, h)
    && owed == ResumeSet(root, rest, res)
    && ResumeRes(root, rest, res) == ans
  }

  lemma Answered(root: Re, res: int, owed: set<nat>, ans: int, h: nat)
    requires Answering(root, [], res, owed, ans, h)
    ensures owed == {} && res == ans
  {
  }

  lemma StartEntering(root: Re, v: Path)
    requires IsNode(root, v)
    ensures Entering(root, [], v, First(At(root, v), Base(root, 0, v)), Answer(At(root, v)), Height(At(root, v)))
  {
    var f := First(At(root, v), Base(root, 0, v));
    assert f + {} == f;
  }

  lemma {:induction false} OpenKeeps(root: Re, rest: seq<Frame>, v: Path, val: int, owed: set<nat>, ans: int, h: nat)
    requires Entering(root, rest, v, owed, ans, h) && !At(root, v).Sym?
    ensures var u := v + [At(root, v).Or?]; var st := rest + [Frame(v, 1, val)];
            && AllWaiting(root, st) && IsNode(root, u) && Entering(root, st, u, owed, ans, h) && |rest| + 2 <= h
            && FramesWork(root, st) + 3 * Work(At(root, u)) < FramesWork(root, rest) + 3 * Work(At(root, v))
  {
    hide IsNode, At, Base, AllWaiting, FramesFit, ResumeSet, ResumeRes, First, Answer, FramesWork, Work, Height;
    OpenFrame(root, rest, v, val);
    OpenCost(root, rest, v, val, h);
    TallerThanLeaf(At(root, v));
  }

  lemma {:induction false} LeafKeeps(root: Re, rest: seq<Frame>, v: Path, owed: set<nat>, ans: int, h: nat)
    requires Entering(root, rest, v, owed, ans, h)
    ensures var res := Answer(At(root, v)); var later := ResumeSet(root, rest, res);
            && Answering(root, rest, res, later, ans, h)
            && owed == First(At(root, v), Base(root, 0, v)) + later
  {
  }

  lemma {:induction false} TurnKeeps(root: Re, st: seq<Frame>, res: int, val: int, owed: set<nat>, ans: int, h: nat)
    requires Answering(root, st, res, owed, ans, h) && st != [] && Waiting(root, st[|st| - 1])
    requires var f := st[|st| - 1]; var e := At(root, f.node);
             f.phase == 1 && ((e.Or? && val == res) || (e.Cat? && res == 0))
    ensures var rest, f := st[..|st| - 1], st[|st| - 1];
            var u := f.node + [At(root, f.node).Cat?]; var st' := rest + [Frame(f.node, 2, val)];
            && AllWaiting(root, st') && IsNode(root, u) && Entering(root, st', u, owed, ans, h) && AllWaiting(root, st)
            && FramesWork(root, st') + 3 * Work(At(root, u)) < FramesWork(root, st)
  {
    hide IsNode, At, Base, AllWaiting, FramesFit, ResumeSet, ResumeRes, First, Answer, FramesWork, Work, Height,
         ReplySet, ReplyRes, FrameWork;
    PopFrame(root, st, res, h);
    var rest, f := st[..|st| - 1], st[|st| - 1];
    TurnFrame(root, rest, f.node, f.val, val, res);
    TurnCost(root, rest, f.node, f.val, val, h);
  }

  lemma {:induction false} ReplyKeeps(root: Re, st: seq<Frame>, res: int, owed: set<nat>, ans: int, h: nat)
    requires Answering(root, st, res, owed, ans, h) && st != [] && Waiting(root, st[|st| - 1])
    requires ReplySet(root, st[|st| - 1], res) == {}
    ensures var rest := st[..|st| - 1];
            && Answering(root, rest, ReplyRes(root, st[|st| - 1], res), owed, ans, h)
            && AllWaiting(root, rest) && AllWaiting(root, st) && FramesWork(root, rest) < FramesWork(root, st)
  {
    hide IsNode, At, Base, AllWaiting, FramesFit, FramesWork, FrameWork;
    PopFrame(root, st, res, h);
  }

  // ----- what follow() relies on on its way up -----------------------------------------------

  /** A position that cannot end its subtree is followed by the same positions all the way up. */
  lemma {:induction false} NotLastUp(e: Re, b: nat, v: Path, i: nat)
    requires IsNode(e, v) && Within(At(e, v), Base(e, b, v), i)
    requires !IsLast(At(e, v), Base(e, b, v), i)
    ensures Within(e, b, i) && !IsLast(e, b, i) && Follow(e, b, i) == Follow(At(e, v), Base(e, b, v), i)
    decreases |v|
  {
    if v != [] {
      NotLastUp(Child(e, v[0]), b + Skipped(e, v[0]), v[1..], i);
    }
  }

  /** From a node whose leaf i can end it, one step up: what the parent adds to i's followers. */
  lemma {:induction false} ClimbStep(root: Re, v: Path, i: nat)
    requires v != [] && IsNode(root, v)
    requires Within(At(root, v), Base(root, 0, v), i) && IsLast(At(root, v), Base(root, 0, v), i)
    ensures IsNode(root, Parent(v)) && HasChild(At(root, Parent(v)), v[|v| - 1])
    ensures var e, b := At(root, Parent(v)), Base(root, 0, Parent(v));
            && Within(e, b, i)
            && match e
               case Star(_) | Plus(_) =>
                 && IsLast(e, b, i)
                 && Follow(e, b, i) == Follow(At(root, v), Base(root, 0, v), i) + First(At(root, v), Base(root, 0, v))
               case Cat(l, r) =>
                 if v[|v| - 1] then
                   IsLast(e, b, i) && Follow(e, b, i) == Follow(At(root, v), Base(root, 0, v), i)
                 else
                   && IsLast(e, b, i) == Nullable(r)
                   && Follow(e, b, i) == Follow(At(root, v), Base(root, 0, v), i) + First(r, b + Leaves(l))
               case _ => IsLast(e, b, i) && Follow(e, b, i) == Follow(At(root, v), Base(root, 0, v), i)
  {
    hide IsNode, At, Base;
    Ascend(root, 0, v);
  }

  lemma LeafFollowers(root: Re, v: Path)
    requires IsLeafNode(root, v)
    ensures var e, b := At(root, v), Base(root, 0, v);
            Within(e, b, b) && IsLast(e, b, b) && Follow(e, b, b) == {}
  {
  }

  lemma {:induction false} NodeHeight(e: Re, v: Path)
    requires IsNode(e, v)
    ensures Height(At(e, v)) <= Height(e)
    decreases |v|
  {
    if v != [] {
      NodeHeight(Child(e, v[0]), v[1..]);
    }
  }

  lemma {:induction false} FinalFreeAt(e: Re, v: Path)
    requires IsNode(e, v) && FinalFree(e)
    ensures FinalFree(At(e, v))
    decreases |v|
  {
    if v != [] {
      FinalFreeAt(Child(e, v[0]), v[1..]);
    }
  }

  lemma {:induction false} FinalAtRoot(p: Re, v: Path)
    requires FinalFree(p) && IsNode(Root(p), v)
    ensures At(Root(p), v).Final? <==> v == []
    ensures v == [] ==> At(Root(p), v) == Root(p) && Base(Root(p), 0, v) == 0
  {
    if v != [] {
      FinalFreeAt(Root(p).t, v[1..]);
    }
  }

  /** foll[i] as the code fills it in: leaf 0 is left out, and FINAL answers to Leaves(root). */
  function FollowSet(root: Re, i: nat): (s: set<nat>)
    requires Within(root, 0, i)
  {
    Follow(root, 0, i) - {0} + if IsLast(root, 0, i) then {Leaves(root)} else {}
  }

  /** The marks follow() leaves, on top of the standing mark of position 0. */
  lemma {:induction false} CollectedSet(root: Re, i: nat, m: set<nat>)
    requires Within(root, 0, i)
    requires m == {0} + Follow(root, 0, i) + if IsLast(root, 0, i) then {Leaves(root)} else {}
    ensures m - {0} == FollowSet(root, i) && |m - {0}| == |m| - 1
  {
    hide Follow, IsLast;
    assert 0 in m;
  }

  lemma ZeroMarked(ps: PosSet)
    requires ps.Valid()
    ensures 0 in ps.Marked() <==> ps.setvec[0] == 1
    ensures 0 in ps.Marked() ==> ps.Marked() * {0} == {0}
  {
  }

  /** The follow sets of all leaves, as notin compares against them. */
  ghost function FollowSets(root: Re, n: nat): (ss: seq<set<nat>>)
    ensures |ss| == n
    ensures forall i :: 0 <= i < n && i < Leaves(root) ==> ss[i] == FollowSet(root, i)
  {
    seq(n, i requires 0 <= i < n => if i < Leaves(root) then FollowSet(root, i) else {})
  }

  /** For leaves of p the set is Foll; for the leading DOT it is Initial. */
  lemma {:induction false} FollowSetIsFoll(p: Re, i: nat)
    requires Within(Root(p), 0, i)
    ensures i == 0 ==> FollowSet(Root(p), i) == Initial(p)
    ensures i > 0 ==> Within(p, 1, i) && FollowSet(Root(p), i) == Foll(p, i)
  {
    var c := Cat(Star(Sym(Dot)), p);
    assert Leaves(Star(Sym(Dot))) == 1 && Leaves(c) == Line(p);
    assert Follow(Root(p), 0, i) == Follow(c, 0, i) && IsLast(Root(p), 0, i) == IsLast(c, 0, i);
    if i == 0 {
      assert Follow(Star(Sym(Dot)), 0, 0) == {0};
      assert Follow(c, 0, 0) == {0} + First(p, 1);
    }
  }

  ghost predicate ParentsRight(parent: map<Path, Path>) {
    forall v :: v in parent ==> v != [] && parent[v] == Parent(v)
  }

  /** Parent pointers lead from v to the root. */
  ghost predicate Linked(parent: map<Path, Path>, v: Path) {
    forall k :: 0 < k <= |v| ==> v[..k] in parent
  }

  lemma LinksKept(parent: map<Path, Path>, wider: map<Path, Path>)
    requires parent.Keys <= wider.Keys
    ensures forall v :: Linked(parent, v) ==> Linked(wider, v)
  {
  }

  /** The parent pointer of a linked node leads to its parent, itself linked. */
  lemma LinkedUp(parent: map<Path, Path>, v: Path)
    requires v != [] && Linked(parent, v) && ParentsRight(parent)
    ensures v in parent && parent[v] == Parent(v) && Linked(parent, Parent(v))
    ensures v == Parent(v) + [v[|v| - 1]]
  {
    assert v[..|v|] == v;
    var u := Parent(v);
    forall k | 0 < k <= |u| ensures u[..k] in parent {
      assert u[..k] == v[..k];
    }
  }

  lemma LinkChild(parent: map<Path, Path>, wider: map<Path, Path>, v: Path, d: bool)
    requires Linked(parent, v) && parent.Keys <= wider.Keys && v + [d] in wider
    ensures Linked(wider, v + [d])
  {
    var u := v + [d];
    forall k | 0 < k <= |u| ensures u[..k] in wider {
      if k <= |v| {
        assert u[..k] == v[..k];
      } else {
        assert u[..k] == u;
      }
    }
  }

  /** Leaves 0..n-1 carry their indices and are reachable through point. */
  ghost predicate LeavesDone(root: Re, point: seq<Path>, index: map<Path, nat>, parent: map<Path, Path>, n: nat) {
    && n <= |point|
    && forall i :: 0 <= i < n ==>
         && IsLeafNode(root, point[i]) && Base(root, 0, point[i]) == i
         && point[i] in index && index[point[i]] == i && Linked(parent, point[i])
  }

  /** foll[0] thru foll[n-1] list the follow sets of their leaves. */
  ghost predicate FollDone(root: Re, foll: seq<seq<nat>>, n: nat) {
    && n <= |foll| && n <= Leaves(root)
    && forall i :: 0 <= i < n ==> Lists(foll[i], FollowSet(root, i))
  }

  /** Once the children of its top node are linked, all of the new stack is. */
  lemma PushedLinked(root: Re, walk: seq<Path>, parent: map<Path, Path>, wider: map<Path, Path>)
    requires walk != [] && IsNode(root, walk[|walk| - 1])
    requires forall k :: 0 <= k < |walk| ==> Linked(parent, walk[k])
    requires parent.Keys <= wider.Keys
    requires forall d :: HasChild(At(root, walk[|walk| - 1]), d) ==> walk[|walk| - 1] + [d] in wider
    ensures var w := Pushed(root, walk);
            && (forall k :: 0 <= k < |w| ==> Linked(wider, w[k]))
            && (At(root, walk[|walk| - 1]).Sym? ==> |w| < |walk|)
  {
    hide IsNode, At, Linked;
    var v := walk[|walk| - 1];
    LinksKept(parent, wider);
    forall d | HasChild(At(root, v), d) ensures Linked(wider, v + [d]) {
      LinkChild(parent, wider, v, d);
    }
  }

  lemma LeafHasNoChild(e: Re)
    ensures e.Sym? ==> forall d :: !HasChild(e, d)
  {
  }

  lemma LeavesKept(root: Re, point: seq<Path>, index: map<Path, nat>,
                   parent: map<Path, Path>, wider: map<Path, Path>, n: nat)
    requires LeavesDone(root, point, index, parent, n) && parent.Keys <= wider.Keys
    ensures LeavesDone(root, point, index, wider, n)
  {
    hide IsNode, At, Base, Linked;
    LinksKept(parent, wider);
  }

  lemma LeavesAreNodes(root: Re, point: seq<Path>, index: map<Path, nat>, parent: map<Path, Path>, n: nat)
    requires LeavesDone(root, point, index, parent, n)
    ensures n <= |point| && forall i :: 0 <= i < n ==> IsNode(root, point[i])
  {
    hide IsNode, At, Base, Linked;
  }

  lemma PointMore(root: Re, point: seq<Path>, index: map<Path, nat>, parent: map<Path, Path>, n: nat)
    requires LeavesDone(root, point, index, parent, n)
    ensures LeavesDone(root, point + [[]], index, parent, n)
  {
    hide IsNode, At, Base, Linked;
  }

  lemma FollowSetRange(root: Re, i: nat)
    requires Within(root, 0, i)
    ensures forall j :: j in FollowSet(root, i) ==> 1 <= j <= Leaves(root)
  {
  }

  class Builder {
    const root: Re
    const ps: PosSet
    var point: seq<Path>
    var index: map<Path, nat>
    var parent: map<Path, Path>
    var foll: seq<seq<nat>>

    constructor (e: Re)
      ensures root == e && fresh(ps) && fresh(ps.setvec) && ps.line == 0 && ps.setvec.Length == MAXLIN
      ensures point == [] && index == map[] && parent == map[] && |foll| == MAXLIN
    {
      root := e;
      ps := new PosSet();
      point, index, parent := [], map[], map[];
      foll := seq(MAXLIN, _ => []);
    }

    ghost predicate Numbered()
      reads this, ps
    {
      && ps.Valid() && ps.setvec.Length == MAXLIN && ps.line == Leaves(root)
      && |point| >= ps.line && ParentsRight(parent) && LeavesDone(root, point, index, parent, ps.line)
    }

    /** Set up parent pointers and leaf indices, left to right. */
    method PEnter() returns (ok: bool)
      requires ps.setvec.Length == MAXLIN && ps.line == 0 && point == [] && parent == map[]
      modifies this`point, this`index, this`parent, ps`line
      ensures ok ==> Numbered() && |point| == ps.line
      ensures !ok ==> Height(root) > MAXNODE || Leaves(root) >= MAXLIN
    {
      var walk: seq<Path> := [[]];
      WalkStart(root);
      while walk != []
        invariant |walk| <= MAXNODE && ps.line == |point| && ps.line < MAXLIN
        invariant Covers(root, walk, ps.line) && Fits(root, walk)
        invariant ParentsRight(parent) && LeavesDone(root, point, index, parent, |point|)
        invariant forall k :: 0 <= k < |walk| ==> Linked(parent, walk[k])
        decreases StackWork(root, walk)
      {
        WalkStep(root, walk, ps.line);
        CoversBound(root, Pushed(root, walk), if At(root, walk[|walk| - 1]).Sym? then ps.line + 1 else ps.line);
        ok, walk := PEnterStep(walk);
        if !ok {
          return;
        }
      }
      return true;
    }

    /** parent(child d of v) = v */
    method SetParent(v: Path, d: bool)
      requires ParentsRight(parent)
      modifies this`parent
      ensures ParentsRight(parent) && parent.Keys == old(parent.Keys) + {v + [d]}
    {
      assert Parent(v + [d]) == v;
      parent := parent[v + [d] := v];
    }

    method LinkChildren(v: Path)
      requires IsNode(root, v) && !At(root, v).Sym? && ParentsRight(parent)
      modifies this`parent
      ensures ParentsRight(parent) && old(parent.Keys) <= parent.Keys
      ensures forall d :: HasChild(At(root, v), d) ==> v + [d] in parent
    {
      hide IsNode, At, ParentsRight;
      SetParent(v, false);
      if At(root, v).Cat? || At(root, v).Or? {
        SetParent(v, true);
      }
    }

    method NumberLeaf(v: Path) returns (ok: bool)
      requires IsLeafNode(root, v) && Base(root, 0, v) == ps.line && Linked(parent, v)
      requires ps.line == |point| < MAXLIN && LeavesDone(root, point, index, parent, |point|)
      modifies this`point, this`index, ps`line
      ensures ok ==> ps.line == |point| < MAXLIN && LeavesDone(root, point, index, parent, |point|) && ps.line == old(ps.line) + 1
      ensures ok <==> old(ps.line) < MAXLIN - 1
    {
      hide IsNode, At, Base, Linked;
      if ps.line >= MAXLIN - 1 {
        return false;
      }
      index, point, ps.line := index[v := ps.line], point + [v], ps.line + 1;
      return true;
    }

    /** One turn of penter's loop: number a leaf, or link a node's children and push them. */
    method PEnterStep(walk: seq<Path>) returns (ok: bool, rest: seq<Path>)
      requires walk != [] && IsNode(root, walk[|walk| - 1])
      requires ps.line == |point| < MAXLIN && ParentsRight(parent) && LeavesDone(root, point, index, parent, |point|)
      requires forall k :: 0 <= k < |walk| ==> Linked(parent, walk[k])
      requires Base(root, 0, walk[|walk| - 1]) == ps.line
      modifies this`point, this`index, this`parent, ps`line
      ensures ok ==> rest == Pushed(root, walk) && (|walk| <= MAXNODE ==> |rest| <= MAXNODE)
      ensures ok ==> ps.line == |point| < MAXLIN && ParentsRight(parent) && LeavesDone(root, point, index, parent, |point|)
      ensures ok ==> ps.line == if At(root, walk[|walk| - 1]).Sym? then old(ps.line) + 1 else old(ps.line)
      ensures ok ==> forall k :: 0 <= k < |rest| ==> Linked(parent, rest[k])
      ensures !ok ==> if At(root, walk[|walk| - 1]).Sym? then old(ps.line) >= MAXLIN - 1 else |Pushed(root, walk)| > MAXNODE
    {
      hide IsNode, At, Base, Linked, ParentsRight, LeavesDone, Pushed, HasChild;
      var v := walk[|walk| - 1];
      rest := Pushed(root, walk);
      if At(root, v).Sym? {
        LeafHasNoChild(At(root, v));
        ok := NumberLeaf(v);
      } else {
        LinkChildren(v);
        ok := |rest| <= MAXNODE;
        LeavesKept(root, point, index, old(parent), parent, |point|);
      }
      PushedLinked(root, walk, old(parent), parent);
    }

    /** A leaf carries its own index. */
    lemma IndexRight(v: Path)
      requires Numbered() && IsLeafNode(root, v)
      ensures v in index && index[v] == Base(root, 0, v) < ps.line
    {
      var i := Base(root, 0, v);
      NodeWithin(root, 0, v, i);
      LeafUnique(root, 0, v, point[i]);
    }

    /** first(), phase 0: collect the leaf v, or open the node v and go to its first child. */
    method Visit(rest: seq<Frame>, v: Path, val: int) returns (ok: bool, leaf: bool, res: int, st: seq<Frame>, u: Path)
      requires Numbered() && AllWaiting(root, rest) && IsNode(root, v)
      modifies ps.setvec, ps`setcnt
      ensures leaf == At(root, v).Sym?
      ensures leaf ==> ok && res == Answer(At(root, v)) && st == rest
      ensures leaf ==> ps.Marked() == old(ps.Marked()) + First(At(root, v), Base(root, 0, v))
      ensures leaf ==> ps.setcnt - old(ps.setcnt) == |ps.Marked()| - |old(ps.Marked())|
      ensures !leaf ==> ps.Marked() == old(ps.Marked()) && ps.setcnt == old(ps.setcnt)
      ensures !leaf ==> (ok <==> |rest| + 1 < MAXNODE)
      ensures !leaf && ok ==> st == rest + [Frame(v, 1, val)] && u == v + [At(root, v).Or?]
    {
      hide IsNode, At, Base;
      ok, leaf, res, st, u := true, false, 0, rest, v;
      match At(root, v) {
        case Sym(l) =>
          IndexRight(v);
          ps.Mark(index[v]);
          leaf, res := true, if l.Ccl? && l.s == [] then 0 else 1;
        case _ =>
          ok := |rest| + 1 < MAXNODE;
          st, u := rest + [Frame(v, 1, val)], v + [At(root, v).Or?];
      }
    }

    /** first(), phases 1 and 2: a child of top.node has answered res. */
    method Hear(top: Frame, res: int) returns (again: bool, f: Frame, u: Path, res': int)
      requires Waiting(root, top)
      ensures again <==> top.phase == 1 && (At(root, top.node).Or? || (At(root, top.node).Cat? && res == 0))
      ensures again ==> f == Frame(top.node, 2, f.val) && u == top.node + [At(root, top.node).Cat?]
      ensures again && At(root, top.node).Or? ==> f.val == res
      ensures !again ==> ReplySet(root, top, res) == {} && res' == ReplyRes(root, top, res)
    {
      again, f, u, res' := false, top, top.node, res;
      if top.phase == 1 {
        match At(root, top.node) {
          case Final(_) | Plus(_) => res' := if res != 0 then 1 else 0;
          case Star(_) | Quest(_) => res' := 0;
          case Cat(_, _) =>
            if res != 0 {
              res' := 1;
            } else {
              again, f, u := true, top.(phase := 2), top.node + [true];
            }
          case Or(_, _) =>
            again, f, u := true, top.(val := res, phase := 2), top.node + [false];
        }
      } else if At(root, top.node).Cat? {
        res' := if res != 0 then 1 else 0;
      } else {
        res' := if !(res == 0 || top.val == 0) then 1 else 0;
      }
    }

    /** Collect the initially active leaves of node p into setvec; the answer is 0 when p matches
        the empty string. */
    method FirstOf(p: Path) returns (ok: bool, res: int)
      requires Numbered() && IsNode(root, p)
      modifies ps.setvec, ps`setcnt
      ensures ok ==> res == Answer(At(root, p))
      ensures ok ==> ps.Marked() == old(ps.Marked()) + First(At(root, p), Base(root, 0, p))
      ensures ok ==> ps.setcnt - old(ps.setcnt) == |ps.Marked()| - |old(ps.Marked())|
      ensures !ok ==> Height(At(root, p)) > MAXNODE
    {
      hide IsNode, At, Base, Waiting, FramesWork, Entering, Answering, First, Answer, Height, ResumeSet, Work,
           LeavesDone, PosSet.Marked;
      ghost var owed, ans, h := First(At(root, p), Base(root, 0, p)), Answer(At(root, p)), Height(At(root, p));
      ghost var total, extra := ps.Marked() + owed, ps.setcnt - |ps.Marked()|;
      var rest: seq<Frame>, v, val, entering := [], p, 0, true;
      ok, res := true, 0;
      StartEntering(root, p);
      while entering || rest != []
        invariant ok && AllWaiting(root, rest) && ps.Valid()
        invariant ps.setcnt - |ps.Marked()| == extra && ps.Marked() + owed == total
        invariant entering ==> IsNode(root, v) && Entering(root, rest, v, owed, ans, h)
        invariant !entering ==> Answering(root, rest, res, owed, ans, h)
        decreases FramesWork(root, rest) + if entering then 3 * Work(At(root, v)) else 0
      {
        if entering {
          var leaf, st, u;
          ok, leaf, res, st, u := Visit(rest, v, val);
          if leaf {
            LeafKeeps(root, rest, v, owed, ans, h);
            owed := ResumeSet(root, rest, res);
            entering := false;
          } else {
            OpenKeeps(root, rest, v, val, owed, ans, h);
            if !ok {
              return;
            }
            rest, v := st, u;
          }
        } else {
          var again, f, u, res' := Hear(rest[|rest| - 1], res);
          if again {
            TurnKeeps(root, rest, res, f.val, owed, ans, h);
            rest, v, entering := rest[..|rest| - 1] + [f], u, true;
          } else {
            ReplyKeeps(root, rest, res, owed, ans, h);
            res, rest := res', rest[..|rest| - 1];
          }
        }
      }
      Answered(root, res, owed, ans, h);
    }

    /** Collect the leaves that can follow leaf v into setvec, walking up the parent chain. */
    method FollowOf(leaf: Path, ghost p: Re, ghost i: nat) returns (ok: bool)
      requires Numbered() && root == Root(p) && FinalFree(p)
      requires IsLeafNode(root, leaf) && i == Base(root, 0, leaf) && Within(root, 0, i) && Linked(parent, leaf)
      modifies ps.setvec, ps`setcnt
      ensures ok ==> ps.Marked() == old(ps.Marked()) + Follow(root, 0, i)
                                    + if IsLast(root, 0, i) then {ps.line} else {}
      ensures ok ==> ps.setcnt - |ps.Marked()| == old(ps.setcnt) - |old(ps.Marked())|
      ensures !ok ==> Height(root) > MAXNODE
    {
      hide IsNode, At, Base, Follow, IsLast, First, Nullable, Height, Linked, LeavesDone, PosSet.Marked;
      var v := leaf;
      LeafFollowers(root, leaf);
      FinalAtRoot(p, leaf);
      // v is never FINAL itself: the step that would make it so returns instead.
      while true
        invariant v != [] && IsNode(root, v) && Linked(parent, v)
        invariant Within(At(root, v), Base(root, 0, v), i) && IsLast(At(root, v), Base(root, 0, v), i)
        invariant ps.Marked() == old(ps.Marked()) + Follow(At(root, v), Base(root, 0, v), i)
        invariant ps.setcnt - |ps.Marked()| == old(ps.setcnt) - |old(ps.Marked())|
        decreases |v|
      {
        ClimbStep(root, v, i);
        LinkedUp(parent, v);
        NodeHeight(root, v);
        FinalAtRoot(p, Parent(v));
        var q := parent[v];
        match At(root, q) {
          case Star(_) | Plus(_) =>
            var res;
            ok, res := FirstOf(v);
            if !ok {
              return;
            }
          case Or(_, _) | Quest(_) =>
          case Cat(_, _) =>
            if v == q + [false] {
              var res;
              Descend(root, 0, q, true);
              NodeHeight(root, q + [true]);
              ok, res := FirstOf(q + [true]);
              if !ok {
                return;
              }
              if res != 0 {
                NotLastUp(root, 0, q, i);
                return true;
              }
            }
          case Final(_) =>
            ps.Mark(ps.line);
            return true;
        }
        v := q;
      }
    }

    /** cfoll at leaf i, its follow set collected: share an equal one among lower leaves. */
    method StoreFoll(i: nat)
      requires ps.Valid() && ps.setvec.Length == MAXLIN && i < ps.line == Leaves(root)
      requires ps.Marked() - {0} == FollowSet(root, i) && ps.setcnt == |ps.Marked() - {0}|
      requires |foll| == MAXLIN && FollDone(root, foll, i)
      modifies this`foll
      ensures |foll| == MAXLIN && FollDone(root, foll, i + 1)
    {
      hide FollowSet;
      ghost var sets := FollowSets(root, |foll|);
      forall k | 0 <= k < i ensures forall x :: x in sets[k] ==> 1 <= x <= ps.line {
        FollowSetRange(root, k);
      }
      var absent, prev := ps.NotIn(foll, i - 1, sets);
      if absent {
        var l := ps.Add(ps.setcnt);
        foll := foll[i := l];
      } else {
        foll := foll[i := foll[prev]];
      }
    }

    /** cfoll at a leaf: compute its follow set and store it. */
    method CFollLeaf(v: Path, ghost p: Re) returns (ok: bool)
      requires Numbered() && root == Root(p) && FinalFree(p) && IsLeafNode(root, v)
      requires |foll| == MAXLIN && ps.setvec[0] == 1 && FollDone(root, foll, Base(root, 0, v))
      modifies this`foll, ps.setvec, ps`setcnt
      ensures ok ==> |foll| == MAXLIN && ps.setvec[0] == 1 && FollDone(root, foll, Base(root, 0, v) + 1)
      ensures !ok ==> Height(root) > MAXNODE
    {
      hide IsNode, At, Base, Follow, IsLast, Height, LeavesDone, FollDone, FollowSet, PosSet.Marked;
      IndexRight(v);
      LinkedLeaf(v);
      var i := index[v];
      ZeroMarked(ps);
      ps.Clear(1);
      ok := FollowOf(v, p, i);
      if !ok {
        return;
      }
      CollectedSet(root, i, ps.Marked());
      ZeroMarked(ps);
      StoreFoll(i);
    }

    lemma LinkedLeaf(v: Path)
      requires Numbered() && IsLeafNode(root, v)
      ensures Linked(parent, v)
    {
      var i := Base(root, 0, v);
      NodeWithin(root, 0, v, i);
      LeafUnique(root, 0, v, point[i]);
    }

    /** Enter the follow set of each leaf into foll, left to right. */
    method CFoll(ghost p: Re) returns (ok: bool)
      requires Numbered() && root == Root(p) && FinalFree(p)
      requires |foll| == MAXLIN && ps.setvec[0] == 1
      modifies this`foll, ps.setvec, ps`setcnt
      ensures ok ==> |foll| == MAXLIN && FollDone(root, foll, ps.line)
      ensures !ok ==> Height(root) > MAXNODE
    {
      hide IsNode, At, Base, LeavesDone, Height, Work, Leaves;
      var walk: seq<Path> := [[]];
      WalkStart(root);
      ghost var done := 0;
      while walk != []
        invariant |foll| == MAXLIN && ps.setvec[0] == 1
        invariant Covers(root, walk, done) && Fits(root, walk) && FollDone(root, foll, done)
        decreases StackWork(root, walk)
      {
        var v := walk[|walk| - 1];
        WalkStep(root, walk, done);
        match At(root, v) {
          case Sym(_) =>
            ok := CFollLeaf(v, p);
            if !ok {
              return;
            }
            done := done + 1;
            walk := walk[..|walk| - 1];
          case Cat(_, _) | Or(_, _) =>
            var pushed := walk[..|walk| - 1] + [v + [true]] + [v + [false]];
            if |pushed| > MAXNODE {
              return false;
            }
            walk := pushed;
          case _ =>
            var pushed := walk[..|walk| - 1] + [v + [false]];
            if |pushed| > MAXNODE {
              return false;
            }
            walk := pushed;
        }
      }
      return true;
    }

    /** makedfa up to cfoll: number the leaves, give FINAL its place, compute the follow sets.
        node[i] is the node of position i. */
    method FollowLists(ghost p: Re) returns (ok: bool, node: seq<Re>)
      requires ps.setvec.Length == MAXLIN && ps.line == 0 && point == [] && parent == map[] && |foll| == MAXLIN
      requires root == Root(p) && FinalFree(p)
      modifies this, ps, ps.setvec
      ensures ok ==> ps.Valid() && ps.line == Leaves(root) && |node| == ps.line + 1 && node[ps.line] == root
      ensures ok ==> FollDone(root, foll, ps.line) && LeavesDone(root, point, index, parent, ps.line)
      ensures ok ==> forall i :: 0 <= i < ps.line ==> IsNode(root, point[i]) && node[i] == At(root, point[i])
      ensures !ok ==> Height(root) > MAXNODE || Leaves(root) >= MAXLIN
    {
      hide IsNode, At, Base, LeavesDone, FollDone, Leaves, Height, ParentsRight;
      node := [];
      ok := PEnter();
      if !ok {
        return;
      }
      LeavesAreNodes(root, point, index, parent, ps.line);
      PointMore(root, point, index, parent, ps.line);
      node := seq(ps.line, i requires 0 <= i < |point| && IsNode(root, point[i]) reads this => At(root, point[i])) + [root];
      point := point + [[]];
      ps.setvec[0] := 1;
      ok := CFoll(p);
    }
  }
}
