/** Linked lists threaded through one table of links. */
module Chains {
  import opened Common

  const NONE: int := -1

  function First(l: seq<nat>): int {
    if l == [] then NONE else l[0]
  }

  /** Following the links from head visits exactly the elements of l. */
  predicate Chain(link: seq<int>, head: int, l: seq<nat>) {
    && head == First(l)
    && forall i :: 0 <= i < |l| ==> l[i] < |link| && link[l[i]] == First(l[i + 1..])
  }

  /** A list that p is not on does not see p's link change. */
  lemma ChainFrame(link: seq<int>, head: int, l: seq<nat>, p: nat, v: int)
    requires Chain(link, head, l) && p !in l && p < |link|
    ensures Chain(link[p := v], head, l)
  {
  }

  lemma ChainPush(link: seq<int>, head: int, l: seq<nat>, p: nat)
    requires Chain(link, head, l) && p !in l && p < |link|
    ensures Chain(link[p := head], p, [p] + l)
  {
    var m := [p] + l;
    forall i | 0 <= i < |m| ensures m[i] < |link| && link[p := head][m[i]] == First(m[i + 1..]) {
      if i == 0 {
        assert m[1..] == l;
      } else {
        assert m[i + 1..] == l[i..];
      }
    }
  }

  lemma ChainTail(link: seq<int>, head: int, l: seq<nat>)
    requires Chain(link, head, l) && l != []
    ensures Chain(link, link[l[0]], l[1..])
  {
    forall i | 0 <= i < |l[1..]| ensures l[1..][i] < |link| && link[l[1..][i]] == First(l[1..][i + 1..]) {
      assert l[1..][i + 1..] == l[i + 2..];
      assert l[1..][i] == l[i + 1];
    }
  }

  /** Unlinking p, which follows the last of done. */
  lemma ChainCut(link: seq<int>, head: int, done: seq<nat>, p: nat, rest: seq<nat>)
    requires Chain(link, head, done + [p] + rest) && NoDup(done + [p] + rest)
    requires done != [] ==> done[|done| - 1] < |link|
    ensures done == [] ==> Chain(link, First(rest), rest)
    ensures done != [] ==> Chain(link[done[|done| - 1] := First(rest)], head, done + rest)
  {
    if done == [] {
      assert done + [p] + rest == [p] + rest;
      assert ([p] + rest)[1..] == rest;
      ChainTail(link, head, [p] + rest);
      FirstOfTail(link, head, p, rest);
    } else {
      CutAfter(link, head, done, p, rest);
    }
  }

  lemma FirstOfTail(link: seq<int>, head: int, p: nat, rest: seq<nat>)
    requires Chain(link, head, [p] + rest)
    ensures p < |link| && link[p] == First(rest)
  {
    assert ([p] + rest)[0] == p && ([p] + rest)[1..] == rest;
  }

  lemma CutAfter(link: seq<int>, head: int, done: seq<nat>, p: nat, rest: seq<nat>)
    requires Chain(link, head, done + [p] + rest) && NoDup(done + [p] + rest)
    requires done != [] && done[|done| - 1] < |link|
    ensures Chain(link[done[|done| - 1] := First(rest)], head, done + rest)
  {
    var l, m, n := done + [p] + rest, done + rest, |done|;
    var k := link[done[n - 1] := First(rest)];
    assert l[n - 1] == done[n - 1];
    forall i | 0 <= i < |m| ensures m[i] < |k| && k[m[i]] == First(m[i + 1..]) {
      if i < n - 1 {
        assert m[i] == l[i] && l[i] != l[n - 1];
        assert m[i + 1] == l[i + 1];
      } else if i == n - 1 {
        assert m[i + 1..] == rest;
      } else {
        assert m[i] == l[i + 1] && l[n - 1] != l[i + 1];
        assert m[i + 1..] == l[i + 2..];
      }
    }
    assert head == First(l) == First(m);
  }
}
