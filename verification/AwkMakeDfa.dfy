/** makedfa of cmd/awk/b.c, and what makedfa and match promise together. */
module AwkMakeDfa {
  import opened Common
  import opened AwkRegexp
  import opened AwkTree
  import opened AwkSubset
  import opened AwkPositions
  import opened AwkFollow
  import opened AwkDfa

  /** The calls on which makedfa may stop with "regular expression too long": the tree is higher
      than the walk stacks, has too many leaves, or its automaton has too many states. */
  ghost predicate TooLong(p: Re) {
    || Height(Root(p)) > MAXNODE
    || Leaves(Root(p)) >= MAXLIN
    || TooManyStates(p)
  }

  /** What the numbered tree and its follow lists amount to, position by position. */
  lemma {:induction false} FollowsPrepared(p: Re, point: seq<Path>, index: map<Path, nat>, parent: map<Path, Path>,
                                           foll: seq<seq<nat>>, node: seq<Re>)
    requires AnchorFree(p) && LeavesDone(Root(p), point, index, parent, Line(p)) && FollDone(Root(p), foll, Line(p))
    requires |node| == Line(p) + 1 && node[Line(p)] == Root(p)
    requires forall i :: 0 <= i < Line(p) ==> IsNode(Root(p), point[i]) && node[i] == At(Root(p), point[i])
    ensures Prepared(p, node, foll)
  {
    hide IsNode, At, Base, Lists, Initial, Foll, FollowSet, Linked;
    var root := Root(p);
    RootLeaves(p);
    FollowSetIsFoll(p, 0);
    forall i: nat | Within(p, 1, i) ensures node[i] == Sym(LeafAt(p, 1, i)) && Lists(foll[i], Foll(p, i)) {
      FollowSetIsFoll(p, i);
      LeafOfRoot(p, point[i], i);
    }
  }

  lemma RootLeaves(p: Re)
    ensures Leaves(Root(p)) == Line(p)
  {
    assert Leaves(Star(Sym(Dot))) == 1;
    assert Leaves(Cat(Star(Sym(Dot)), p)) == Line(p);
  }

  lemma {:induction false} LeafOfRoot(p: Re, v: Path, i: nat)
    requires IsLeafNode(Root(p), v) && Base(Root(p), 0, v) == i && Within(p, 1, i)
    ensures At(Root(p), v) == Sym(LeafAt(p, 1, i))
  {
    NodeWithin(Root(p), 0, v, i);
    var c := Cat(Star(Sym(Dot)), p);
    assert Leaves(Star(Sym(Dot))) == 1;
    assert LeafAt(Root(p), 0, i) == LeafAt(c, 0, i) == LeafAt(p, 1, i);
  }

  /** makedfa(p): the automaton that looks for p anywhere in a string. */
  method MakeDfa(p: Re) returns (ok: bool, dfa: seq<Fa>, ghost qs: seq<set<nat>>)
    requires AnchorFree(p) && FinalFree(p)
    ensures ok ==> Recognises(p, dfa, qs) && WellFormed(dfa)
    ensures !ok ==> TooLong(p)
  {
    hide AnchorFree, FinalFree, Recognises, WellFormed, TooManyStates, Root, Leaves, Height, IsNode, At,
         LeavesDone, FollDone, Prepared;
    dfa, qs := [], [];
    var b := new Builder(Root(p));
    var node;
    ok, node := b.FollowLists(p);
    if !ok {
      return;
    }
    RootLeaves(p);
    FollowsPrepared(p, b.point, b.index, b.parent, b.foll, node);
    ok, dfa, qs := CGotoFn(p, node, b.foll, b.ps);
    if ok {
      RecognisesWellFormed(p, dfa, qs);
      StartsInStateZero(dfa);
      var start := StartState(dfa[0]);
      assert start == 0;
    }
  }

  /** Whenever makedfa returns, match answers 1 exactly for the strings in which a word of p occurs,
      the empty word included. */
  method Search(p: Re, s: seq<nat>) returns (ok: bool, found: bool)
    requires AnchorFree(p) && FinalFree(p) && Bytes(s)
    ensures ok ==> (found <==> exists i, k :: 0 <= i <= k <= |s| && Lang(p, s[i..k]))
    ensures !ok ==> TooLong(p)
  {
    hide AnchorFree, FinalFree, Recognises, WellFormed, TooLong, Lang, Runs;
    var dfa;
    ghost var qs;
    ok, dfa, qs := MakeDfa(p);
    found := false;
    if ok {
      found := Match(dfa, Some(s));
      AutomatonDecides(p, dfa, qs, s);
    }
  }
}
