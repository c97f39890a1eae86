/** Character lists: queues of characters kept in chained blocks that all come from one pool
    (kernel/prim.c). */
module Clists {
  import opened Common
  import opened Chains

  /** Characters in a block. */
  const CB: nat := 30

  /** A queue: its length, and the block and slot its next character comes out of and goes in to. */
  datatype Clist = Clist(cc: int, hd: int, hix: nat, tl: int, tix: nat)

  /** The blocks' characters one after another. */
  function Bytes(info: seq<seq<nat>>, l: seq<nat>): seq<nat>
    requires forall i :: 0 <= i < |l| ==> l[i] < |info|
  {
    if l == [] then [] else info[l[0]] + Bytes(info, l[1..])
  }

  /** Character `c` stored in slot `i` of block `b`. */
  function Stored(info: seq<seq<nat>>, b: nat, i: nat, c: nat): seq<seq<nat>>
    requires b < |info| && i < |info[b]|
  {
    var block: seq<nat> := info[b];
    var block': seq<nat> := block[..i] + [c] + block[i + 1..];
    info[b := block']
  }

  ghost predicate Sized(info: seq<seq<nat>>, l: seq<nat>) {
    && (forall b :: 0 <= b < |info| ==> |info[b]| == CB)
    && (forall i :: 0 <= i < |l| ==> l[i] < |info|)
  }

  /** The cursors of a queue whose blocks are `l`. */
  ghost predicate Shape(q: Clist, l: seq<nat>) {
    if l == [] then q.cc == 0 && q.hd == NONE && q.tl == NONE
    else
      && q.hd == l[0] && q.tl == l[|l| - 1] && q.hix < CB && 0 < q.tix <= CB
      && q.cc == CB * (|l| - 1) + q.tix - q.hix > 0
  }

  /** The characters on a queue. */
  function Held(q: Clist, info: seq<seq<nat>>, l: seq<nat>): seq<nat>
    requires Sized(info, l) && Shape(q, l)
  {
    if l == [] then [] else
    BytesLength(info, l);
    Bytes(info, l)[q.hix..CB * (|l| - 1) + q.tix]
  }

  lemma {:induction false} BytesLength(info: seq<seq<nat>>, l: seq<nat>)
    requires Sized(info, l)
    ensures |Bytes(info, l)| == CB * |l|
  {
    if l != [] { BytesLength(info, l[1..]); }
  }

  lemma {:induction false} BytesSnoc(info: seq<seq<nat>>, l: seq<nat>, b: nat)
    requires Sized(info, l + [b]) && b < |info|
    ensures Sized(info, l) && Bytes(info, l + [b]) == Bytes(info, l) + info[b]
  {
    forall i | 0 <= i < |l| ensures l[i] < |info| { assert (l + [b])[i] == l[i]; }
    assert (l + [b])[|l|] == b;
    if l == [] {
      assert (l + [b])[1..] == [];
    } else {
      assert (l + [b])[1..] == l[1..] + [b];
      BytesSnoc(info, l[1..], b);
    }
  }

  lemma {:induction false} BytesFrame(info: seq<seq<nat>>, l: seq<nat>, b: nat, x: seq<nat>)
    requires Sized(info, l) && b < |info| && b !in l
    ensures Bytes(info[b := x], l) == Bytes(info, l)
  {
    if l != [] { BytesFrame(info, l[1..], b, x); }
  }

  /** Taking a character leaves the rest, in order. */
  lemma AfterGet(q: Clist, info: seq<seq<nat>>, l: seq<nat>)
    requires Sized(info, l) && Shape(q, l) && l != []
    ensures |Held(q, info, l)| == q.cc && Held(q, info, l)[0] == info[l[0]][q.hix]
    ensures q.cc == 1 ==> |l| == 1
    ensures q.cc > 1 && q.hix + 1 < CB ==>
              var q' := q.(hix := q.hix + 1, cc := q.cc - 1);
              Shape(q', l) && Held(q', info, l) == Held(q, info, l)[1..]
    ensures q.cc > 1 && q.hix + 1 == CB ==>
              |l| > 1 && var q' := q.(hix := 0, cc := q.cc - 1, hd := l[1]);
              Shape(q', l[1..]) && Held(q', info, l[1..]) == Held(q, info, l)[1..]
  {
    BytesLength(info, l);
    BytesLength(info, l[1..]);
    if q.cc > 1 && q.hix + 1 == CB {
      assert |l| > 1;
      var end := CB * (|l| - 1) + q.tix;
      assert Bytes(info, l)[CB..end] == Bytes(info, l[1..])[..end - CB];
    }
  }

  /** Putting a character in the last block puts it behind the others. */
  lemma AfterPut(q: Clist, info: seq<seq<nat>>, l: seq<nat>, c: nat)
    requires Sized(info, l) && Shape(q, l) && l != [] && NoDup(l) && q.tix < CB
    ensures var b := l[|l| - 1];
      var q', info' := q.(tix := q.tix + 1, cc := q.cc + 1), Stored(info, b, q.tix, c);
      Sized(info', l) && Shape(q', l) && Held(q', info', l) == Held(q, info, l) + [c]
  {
    var n := |l| - 1;
    var b := l[n];
    var info' := Stored(info, b, q.tix, c);
    var front := l[..n];
    assert l == front + [b];
    BytesSnoc(info, front, b);
    BytesSnoc(info', front, b);
    BytesLength(info, front);
    BytesFrame(info, front, b, info'[b]);
    EndGrows(Bytes(info, front), info[b], info'[b], q.hix, q.tix, c);
  }

  lemma EndGrows(x: seq<nat>, y: seq<nat>, y': seq<nat>, lo: nat, i: nat, c: nat)
    requires i < |y| == |y'| && y'[..i] == y[..i] && y'[i] == c && lo <= |x| + i
    ensures (x + y')[lo..|x| + i + 1] == (x + y)[lo..|x| + i] + [c]
  {
    assert (x + y')[..|x| + i] == x + y'[..i] == x + y[..i] == (x + y)[..|x| + i];
    assert (x + y')[lo..|x| + i] == (x + y')[..|x| + i][lo..];
    assert (x + y)[lo..|x| + i] == (x + y)[..|x| + i][lo..];
  }

  /** A character in a block of its own behind a full one. */
  lemma AfterLink(q: Clist, info: seq<seq<nat>>, l: seq<nat>, b: nat, c: nat)
    requires Sized(info, l) && Shape(q, l) && l != [] && b < |info| && b !in l && q.tix == CB
    ensures var q', info' := q.(tl := b, tix := 1, cc := q.cc + 1), Stored(info, b, 0, c);
      Sized(info', l + [b]) && Shape(q', l + [b]) && Held(q', info', l + [b]) == Held(q, info, l) + [c]
  {
    var info' := Stored(info, b, 0, c);
    BytesSnoc(info', l, b);
    BytesLength(info, l);
    BytesFrame(info, l, b, info'[b]);
    var x, n := Bytes(info, l), |l|;
    assert (x + info'[b])[q.hix..CB * n + 1] == x[q.hix..CB * n] + [c];
  }

  lemma AfterStart(q: Clist, info: seq<seq<nat>>, b: nat, c: nat)
    requires Sized(info, [b]) && b < |info|
    ensures var q', info' := Clist(1, b, 0, b, 1), Stored(info, b, 0, c);
      Sized(info', [b]) && Shape(q', [b]) && Held(q', info', [b]) == [c]
  {
    var info' := Stored(info, b, 0, c);
    assert Bytes(info', [b]) == info'[b] + Bytes(info', []);
  }

  lemma HeldFrame(q: Clist, info: seq<seq<nat>>, l: seq<nat>, b: nat, x: seq<nat>)
    requires Sized(info, l) && Shape(q, l) && b < |info| && b !in l && |x| == CB
    ensures Sized(info[b := x], l) && Held(q, info[b := x], l) == Held(q, info, l)
  {
    BytesFrame(info, l, b, x);
  }

  ghost predicate Owned(owner: seq<int>, l: seq<nat>, k: int) {
    forall b :: b in l ==> b < |owner| && owner[b] == k
  }

  /** Every block is on exactly one list, once: `owner` says which, the free list being -1. */
  ghost predicate Partition(owner: seq<int>, free: seq<nat>, lists: seq<seq<nat>>) {
    && NoDup(free) && (forall k :: 0 <= k < |lists| ==> NoDup(lists[k]))
    && Owned(owner, free, NONE) && (forall k :: 0 <= k < |lists| ==> Owned(owner, lists[k], k))
    && (forall b :: 0 <= b < |owner| ==> if owner[b] == NONE then b in free else 0 <= owner[b] < |lists| && b in lists[owner[b]])
  }

  /** The first free block goes to the end of a queue. */
  lemma Took(owner: seq<int>, free: seq<nat>, lists: seq<seq<nat>>, k: nat)
    requires Partition(owner, free, lists) && k < |lists| && free != []
    ensures free[0] !in lists[k] && free[0] < |owner|
    ensures Partition(owner[free[0] := k], free[1..], lists[k := lists[k] + [free[0]]])
  {
    var b := free[0];
    assert b in free;
    assert Owned(owner, lists[k], k);
    var l: seq<nat> := lists[k] + [b];
    assert forall x :: x in free[1..] <==> x in free && x != b;
    assert forall x :: x in l <==> x in lists[k] || x == b;
    assert NoDup(l) && Owned(owner[b := k], l, k);
    forall j | 0 <= j < |lists| && j != k ensures Owned(owner[b := k], lists[j], j) {
      assert Owned(owner, lists[j], j);
    }
    assert forall j :: 0 <= j < |lists| && j != k ==> lists[k := l][j] == lists[j];
  }

  /** The first block of a queue goes to the front of the free list. */
  lemma Gave(owner: seq<int>, free: seq<nat>, lists: seq<seq<nat>>, k: nat)
    requires Partition(owner, free, lists) && k < |lists| && lists[k] != []
    ensures lists[k][0] !in free && lists[k][0] < |owner|
    ensures Partition(owner[lists[k][0] := NONE], [lists[k][0]] + free, lists[k := lists[k][1..]])
  {
    var b := lists[k][0];
    assert Owned(owner, lists[k], k) && b in lists[k];
    var l: seq<nat> := lists[k][1..];
    assert forall x :: x in l <==> x in lists[k] && x != b;
    assert forall x :: x in [b] + free <==> x in free || x == b;
    assert NoDup(l) && Owned(owner[b := NONE], l, k);
    forall j | 0 <= j < |lists| && j != k ensures Owned(owner[b := NONE], lists[j], j) {
      assert Owned(owner, lists[j], j);
    }
    assert forall j :: 0 <= j < |lists| && j != k ==> lists[k := l][j] == lists[j];
  }

  /** Linking a block behind the last. */
  lemma ChainAppend(link: seq<int>, head: int, l: seq<nat>, p: nat)
    requires Chain(link, head, l) && NoDup(l) && l != [] && p !in l && p < |link| && link[p] == NONE
    ensures Chain(link[l[|l| - 1] := p], head, l + [p])
  {
    var m, n := l + [p], |l| - 1;
    var link' := link[l[n] := p];
    forall i | 0 <= i < |m| ensures m[i] < |link'| && link'[m[i]] == First(m[i + 1..]) {
      if i < n {
        assert l[i] != l[n] && m[i + 1] == l[i + 1];
      } else if i == n {
        assert m[i + 1..] == [p];
      } else {
        assert m[i] == p && p != l[n];
      }
    }
  }
}
