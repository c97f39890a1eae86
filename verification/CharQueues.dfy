/** The queue operations on character lists (kernel/prim.c). */
module CharQueues {
  import opened Common
  import opened Chains
  import opened Clists

  /** The blocks' links and characters, the head of the free list, and the queues. */
  datatype Pool = Pool(next: seq<int>, info: seq<seq<nat>>, head: int, qs: seq<Clist>)

  /** Which blocks are where. */
  datatype Where = Where(owner: seq<int>, free: seq<nat>, lists: seq<seq<nat>>)

  ghost predicate QueueOk(s: Pool, q: Clist, l: seq<nat>) {
    Chain(s.next, q.hd, l) && Shape(q, l) && Sized(s.info, l)
  }

  ghost predicate Good(s: Pool, w: Where) {
    && |s.next| == |s.info| == |w.owner| && |s.qs| == |w.lists|
    && (forall b :: 0 <= b < |s.info| ==> |s.info[b]| == CB)
    && Partition(w.owner, w.free, w.lists)
    && Chain(s.next, s.head, w.free)
    && (forall k :: 0 <= k < |s.qs| ==> QueueOk(s, s.qs[k], w.lists[k]))
  }

  /** The characters on queue `k`. */
  ghost function Text(s: Pool, w: Where, k: nat): seq<nat>
    requires Good(s, w) && k < |s.qs|
  {
    Held(s.qs[k], s.info, w.lists[k])
  }

  /** A change to a block that is not on a queue does not show in the queue. */
  lemma QueueFrame(s: Pool, q: Clist, l: seq<nat>, b: nat, v: int, x: seq<nat>)
    requires QueueOk(s, q, l) && b < |s.next| == |s.info| && b !in l && |x| == CB
    ensures var s' := s.(next := s.next[b := v], info := s.info[b := x]);
      QueueOk(s', q, l) && Held(q, s'.info, l) == Held(q, s.info, l)
  {
    ChainFrame(s.next, q.hd, l, b, v);
    HeldFrame(q, s.info, l, b, x);
  }

  lemma NotOn(s: Pool, w: Where, k: nat, j: nat, b: nat)
    requires Good(s, w) && k < |s.qs| && j < |s.qs| && j != k && b in w.lists[k]
    ensures b < |s.next| && b !in w.lists[j] && b !in w.free
  {
    assert Owned(w.owner, w.lists[k], k) && Owned(w.owner, w.lists[j], j);
  }

  lemma FreeNotOn(s: Pool, w: Where, j: nat, b: nat)
    requires Good(s, w) && j < |s.qs| && b in w.free
    ensures b < |s.next| && b !in w.lists[j]
  {
    assert Owned(w.owner, w.lists[j], j);
  }

  /** Everyone else's characters are as they were. */
  ghost predicate Apart(s: Pool, w: Where, s': Pool, w': Where, k: nat)
    requires Good(s, w) && Good(s', w') && |s.qs| == |s'.qs|
  {
    forall j :: 0 <= j < |s.qs| && j != k ==> Text(s', w', j) == Text(s, w, j)
  }

  function Give(s: Pool, k: nat, b: nat, q: Clist): Pool
    requires k < |s.qs| && b < |s.next|
  {
    s.(next := s.next[b := s.head], head := b, qs := s.qs[k := q])
  }

  ghost function Given(w: Where, k: nat): Where
    requires k < |w.lists| && w.lists[k] != [] && w.lists[k][0] < |w.owner|
  {
    var b := w.lists[k][0];
    Where(w.owner[b := NONE], [b] + w.free, w.lists[k := w.lists[k][1..]])
  }

  /** The first block of a queue goes back to the pool. */
  lemma GiveGood(s: Pool, w: Where, k: nat, q: Clist)
    requires Good(s, w) && k < |s.qs| && w.lists[k] != [] && Shape(q, w.lists[k][1..])
    ensures var b := w.lists[k][0]; b < |s.next| && b !in w.free
    ensures var s', w' := Give(s, k, w.lists[k][0], q), Given(w, k);
      && Good(s', w') && Apart(s, w, s', w', k)
      && Sized(s.info, w.lists[k][1..]) && Text(s', w', k) == Held(q, s.info, w.lists[k][1..])
  {
    hide Held, Shape, Partition, Sized;
    var l := w.lists[k];
    var b, rest := l[0], l[1..];
    assert QueueOk(s, s.qs[k], l);
    Gave(w.owner, w.free, w.lists, k);
    HeadAlone(s, w, k);
    ChainPush(s.next, s.head, w.free, b);
    ChainTail(s.next, s.qs[k].hd, l);
    ShapeHead(q, rest);
    ChainFrame(s.next, q.hd, rest, b, s.head);
    SizedTail(s.info, l);
    var s', w' := Give(s, k, b, q), Given(w, k);
    assert s.info[b := s.info[b]] == s.info;
    forall j | 0 <= j < |s.qs| && j != k
      ensures QueueOk(s', s'.qs[j], w'.lists[j]) && Held(s'.qs[j], s'.info, w'.lists[j]) == Held(s.qs[j], s.info, w.lists[j])
    {
      NotOn(s, w, k, j, b);
      QueueFrame(s, s.qs[j], w.lists[j], b, s.head, s.info[b]);
    }
    assert QueueOk(s', s'.qs[k], w'.lists[k]);
  }

  lemma HeadAlone(s: Pool, w: Where, k: nat)
    requires Good(s, w) && k < |s.qs| && w.lists[k] != []
    ensures var b := w.lists[k][0]; b < |s.next| && b !in w.lists[k][1..] && |s.info[b]| == CB
  {
    assert NoDup(w.lists[k]) && Owned(w.owner, w.lists[k], k);
    assert w.lists[k][0] in w.lists[k];
  }

  lemma ShapeHead(q: Clist, l: seq<nat>)
    requires Shape(q, l)
    ensures q.hd == First(l)
  {
  }

  lemma SizedTail(info: seq<seq<nat>>, l: seq<nat>)
    requires Sized(info, l) && l != []
    ensures Sized(info, l[1..])
  {
  }

  /** A change inside one queue's own block, links untouched. */
  lemma StoreGood(s: Pool, w: Where, k: nat, b: nat, q: Clist, x: seq<nat>)
    requires Good(s, w) && k < |s.qs| && b in w.lists[k] && |x| == CB
    requires Shape(q, w.lists[k]) && q.hd == s.qs[k].hd
    ensures b < |s.info|
    ensures var s' := s.(info := s.info[b := x], qs := s.qs[k := q]); Good(s', w) && Apart(s, w, s', w, k)
  {
    hide Held, Shape, Partition;
    assert Owned(w.owner, w.lists[k], k) by { PartitionOwned(w, k); }
    var s' := s.(info := s.info[b := x], qs := s.qs[k := q]);
    assert QueueOk(s, s.qs[k], w.lists[k]);
    assert s.next[b := s.next[b]] == s.next;
    forall j | 0 <= j < |s.qs| && j != k
      ensures QueueOk(s', s'.qs[j], w.lists[j]) && Held(s'.qs[j], s'.info, w.lists[j]) == Held(s.qs[j], s.info, w.lists[j])
    {
      NotOn(s, w, k, j, b);
      QueueFrame(s, s.qs[j], w.lists[j], b, s.next[b], x);
    }
    assert QueueOk(s', s'.qs[k], w.lists[k]);
  }

  lemma PartitionOwned(w: Where, k: nat)
    requires Partition(w.owner, w.free, w.lists) && k < |w.lists|
    ensures Owned(w.owner, w.lists[k], k) && NoDup(w.lists[k])
  {
  }

  /** The links after the first free block is put behind a queue's last. */
  function Linked(next: seq<int>, b: nat, last: int): (r: seq<int>)
    requires b < |next| && last < |next|
    ensures |r| == |next|
  {
    if last < 0 then next[b := NONE] else next[b := NONE][last := b]
  }

  ghost function Taken(w: Where, k: nat): Where
    requires k < |w.lists| && w.free != [] && w.free[0] < |w.owner|
  {
    var b := w.free[0];
    Where(w.owner[b := k], w.free[1..], w.lists[k := w.lists[k] + [b]])
  }

  function Take(s: Pool, k: nat, b: nat, q: Clist, x: seq<nat>): Pool
    requires k < |s.qs| && b < |s.next| == |s.info| && s.qs[k].tl < |s.next|
  {
    s.(next := Linked(s.next, b, s.qs[k].tl), head := s.next[b], info := s.info[b := x], qs := s.qs[k := q])
  }

  lemma LinkedFree(s: Pool, w: Where, k: nat)
    requires Good(s, w) && k < |s.qs| && w.free != []
    ensures var b := w.free[0]; b < |s.next| && s.qs[k].tl < |s.next| && Chain(Linked(s.next, b, s.qs[k].tl), s.next[b], w.free[1..])
  {
    var b, last := w.free[0], s.qs[k].tl;
    assert b in w.free;
    assert QueueOk(s, s.qs[k], w.lists[k]);
    ChainTail(s.next, s.head, w.free);
    ChainFrame(s.next, s.next[b], w.free[1..], b, NONE);
    if last >= 0 {
      assert last in w.lists[k];
      PartitionOwned(w, k);
      assert last !in w.free[1..];
      ChainFrame(s.next[b := NONE], s.next[b], w.free[1..], last, b);
    }
  }

  lemma LinkedQueue(s: Pool, w: Where, k: nat)
    requires Good(s, w) && k < |s.qs| && w.free != []
    ensures var b, l := w.free[0], w.lists[k];
      && b < |s.next| && s.qs[k].tl < |s.next|
      && Chain(Linked(s.next, b, s.qs[k].tl), if l == [] then b else s.qs[k].hd, l + [b])
  {
    var b, l := w.free[0], w.lists[k];
    assert b in w.free;
    FreeNotOn(s, w, k, b);
    assert QueueOk(s, s.qs[k], l);
    PartitionOwned(w, k);
    ChainFrame(s.next, s.qs[k].hd, l, b, NONE);
    if l == [] {
      assert (l + [b])[1..] == [];
    } else {
      ChainAppend(s.next[b := NONE], s.qs[k].hd, l, b);
    }
  }

  lemma LinkedOther(s: Pool, w: Where, k: nat, j: nat, x: seq<nat>)
    requires Good(s, w) && k < |s.qs| && j < |s.qs| && j != k && w.free != [] && |x| == CB
    ensures var b, l := w.free[0], w.lists[j];
      && b < |s.next| && s.qs[k].tl < |s.next|
      && var s' := s.(next := Linked(s.next, b, s.qs[k].tl), info := s.info[b := x]);
      QueueOk(s', s.qs[j], l) && Held(s.qs[j], s'.info, l) == Held(s.qs[j], s.info, l)
  {
    hide Held, Partition;
    var b, last, l := w.free[0], s.qs[k].tl, w.lists[j];
    assert b in w.free;
    FreeNotOn(s, w, j, b);
    assert QueueOk(s, s.qs[k], w.lists[k]) && QueueOk(s, s.qs[j], l);
    QueueFrame(s, s.qs[j], l, b, NONE, x);
    if last >= 0 {
      assert last in w.lists[k];
      NotOn(s, w, k, j, last);
      ChainFrame(s.next[b := NONE], s.qs[j].hd, l, last, b);
    }
  }

  /** The first free block goes behind a queue's last. */
  lemma TakeGood(s: Pool, w: Where, k: nat, q: Clist, x: seq<nat>)
    requires Good(s, w) && k < |s.qs| && w.free != [] && |x| == CB
    requires Shape(q, w.lists[k] + [w.free[0]]) && (w.lists[k] != [] ==> q.hd == s.qs[k].hd)
    ensures w.free[0] < |s.next| && s.qs[k].tl < |s.next|
    ensures var s', w' := Take(s, k, w.free[0], q, x), Taken(w, k); Good(s', w') && Apart(s, w, s', w', k)
  {
    hide Held, Partition, Chain, Linked;
    var b := w.free[0];
    LinkedFree(s, w, k);
    LinkedQueue(s, w, k);
    Took(w.owner, w.free, w.lists, k);
    var s', w' := Take(s, k, b, q, x), Taken(w, k);
    assert QueueOk(s, s.qs[k], w.lists[k]);
    assert Sized(s'.info, w.lists[k] + [b]);
    forall j | 0 <= j < |s.qs| && j != k
      ensures QueueOk(s', s'.qs[j], w'.lists[j]) && Held(s'.qs[j], s'.info, w'.lists[j]) == Held(s.qs[j], s.info, w.lists[j])
    {
      LinkedOther(s, w, k, j, x);
    }
    assert QueueOk(s', s'.qs[k], w'.lists[k]);
  }
}
