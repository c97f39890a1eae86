/** Taking and putting characters, in place, on queues that share a pool of blocks (kernel/prim.c). */
module CharLists {
  import opened Common
  import opened Chains
  import opened Clists
  import opened CharQueues

  /** Any number of character lists and the pool they draw from. */
  class Lists {
    var next: seq<int>
    var info: seq<seq<nat>>
    var cfreelist: int
    var qs: seq<Clist>

    ghost var where: Where

    ghost function State(): Pool
      reads this
    {
      Pool(next, info, cfreelist, qs)
    }

    ghost predicate Valid()
      reads this
    {
      Good(State(), where)
    }

    /** The characters on queue `k`, first in first. */
    ghost function Contents(k: nat): seq<nat>
      requires Valid() && k < |qs|
      reads this
    {
      Text(State(), where, k)
    }

    /** Does the next character for queue `k` need a block? */
    predicate Full(k: nat)
      requires k < |qs|
      reads this
    {
      qs[k].tl == NONE || qs[k].tix == CB
    }

    /** The tables as they are before any block is freed. */
    constructor (blocks: nat, queues: nat)
      ensures Blank(blocks, queues)
    {
      next := seq(blocks, _ => NONE);
      info := seq(blocks, _ => seq(CB, _ => 0));
      cfreelist := NONE;
      qs := seq(queues, _ => Clist(0, NONE, 0, NONE, 0));
      where := Where(seq(blocks, _ => NONE), [], seq(queues, _ => []));
    }

    ghost predicate Blank(blocks: nat, queues: nat)
      reads this
    {
      && blocks == |next| == |info| == |where.owner| && |qs| == |where.lists| == queues
      && (forall i :: 0 <= i < |info| ==> |info[i]| == CB)
      && (forall i :: 0 <= i < blocks ==> where.owner[i] == NONE)
      && (forall k :: 0 <= k < queues ==> qs[k] == Clist(0, NONE, 0, NONE, 0) && where.lists[k] == [])
      && where.free == [] && cfreelist == NONE
    }

    /** Frees every block. */
    method CInit(ghost queues: nat)
      requires Blank(|next|, queues)
      modifies `next, `cfreelist, `where
      ensures Valid() && |qs| == queues && |next| == old(|next|)
      ensures forall k :: 0 <= k < queues ==> Contents(k) == []
      ensures forall b :: 0 <= b < |next| ==> b in where.free
    {
      var b := 0;
      while b < |next|
        invariant b <= |next| == old(|next|) && where == old(where).(free := where.free)
        invariant Chain(next, cfreelist, where.free) && NoDup(where.free)
        invariant forall i: nat :: i in where.free <==> i < b
      {
        ChainPush(next, cfreelist, where.free, b);
        next := next[b := cfreelist];
        cfreelist := b;
        where := where.(free := [b] + where.free);
        b := b + 1;
      }
    }

    /** Takes the first character off queue `k`; -1 if there is none. */
    method Getc(k: nat) returns (c: int)
      requires Valid() && k < |qs|
      modifies this
      ensures Valid() && |qs| == old(|qs|) && |next| == old(|next|)
      ensures old(Contents(k)) == [] ==> c == -1 && Contents(k) == []
      ensures old(Contents(k)) != [] ==> c == old(Contents(k))[0] && Contents(k) == old(Contents(k))[1..]
      ensures forall j :: 0 <= j < |qs| && j != k ==> Contents(j) == old(Contents(j))
    {
      hide Held, Shape, Partition, Chain;
      ghost var s, w := State(), where;
      ghost var l := where.lists[k];
      assert QueueOk(s, qs[k], l);
      CursorIs(s, w, k);
      var q := qs[k];
      if q.cc <= 0 {
        qs := qs[k := q.(cc := 0, hd := NONE, tl := NONE)];
        assert qs == s.qs;
        return -1;
      }
      AfterGet(q, info, l);
      var b := q.hd;
      c := info[b][q.hix];
      q := q.(hix := q.hix + 1, cc := q.cc - 1);
      if q.cc == 0 {
        EmptyShape(q, info);
        assert old(Contents(k))[1..] == [];
        GiveGood(s, w, k, q.(hd := NONE, tl := NONE));
        Release(k, b, q.(hd := NONE, tl := NONE));
      } else if q.hix == CB {
        assert next[b] == l[1] by { SecondIs(s, w, k); }
        GiveGood(s, w, k, q.(hd := next[b], hix := 0));
        Release(k, b, q.(hd := next[b], hix := 0));
      } else {
        StoreGood(s, w, k, b, q, info[b]);
        assert info[b := info[b]] == info;
        qs := qs[k := q];
      }
    }

    method Release(k: nat, b: nat, q: Clist)
      requires k < |qs| == |where.lists| && b < |next| && where.lists[k] != [] && b == where.lists[k][0] < |where.owner|
      modifies this
      ensures State() == Give(old(State()), k, b, q) && where == Given(old(where), k)
    {
      qs := qs[k := q];
      next := next[b := cfreelist];
      cfreelist := b;
      where := Given(where, k);
    }

    /** Puts a character behind the others on queue `k`; -1, and nothing changed, exactly when that takes
        a new block and none is free. */
    method Putc(c: int, k: nat) returns (r: int)
      requires Valid() && k < |qs|
      modifies this
      ensures Valid() && |qs| == old(|qs|) && |next| == old(|next|)
      ensures r == -1 <==> old(Full(k)) && old(where.free) == []
      ensures r == -1 ==> State() == old(State()) && where == old(where)
      ensures r != -1 ==> r == 0 && Contents(k) == old(Contents(k)) + [c % 256]
      ensures forall j :: 0 <= j < |qs| && j != k ==> Contents(j) == old(Contents(j))
    {
      hide Held, Shape, Partition, Chain;
      ghost var s, w := State(), where;
      ghost var l := where.lists[k];
      assert QueueOk(s, qs[k], l);
      CursorIs(s, w, k);
      var q := qs[k];
      if q.tl == NONE || q.tix == CB {
        assert cfreelist == First(w.free) by { FreeIs(s, w); }
        if cfreelist == NONE {
          return -1;
        }
        TakeBlock(c, k);
      } else {
        LastOn(s, w, k);
        AfterPut(q, info, l, c % 256);
        info := Stored(info, q.tl, q.tix, c % 256);
        qs := qs[k := q.(tix := q.tix + 1, cc := q.cc + 1)];
        StoreGood(s, w, k, q.tl, qs[k], info[q.tl]);
      }
      r := 0;
    }

    method TakeBlock(c: int, k: nat)
      requires Valid() && k < |qs| && Full(k) && where.free != [] && cfreelist == where.free[0]
      modifies this
      ensures Valid() && |qs| == old(|qs|) && |next| == old(|next|)
      ensures Contents(k) == old(Contents(k)) + [c % 256]
      ensures forall j :: 0 <= j < |qs| && j != k ==> Contents(j) == old(Contents(j))
    {
      hide Held, Shape, Partition, Chain;
      ghost var s, w := State(), where;
      ghost var l := where.lists[k];
      assert QueueOk(s, qs[k], l);
      CursorIs(s, w, k);
      FreeNotOn(s, w, k, w.free[0]);
      var b := cfreelist;
      var q := qs[k];
      var q' := if q.tl == NONE then Clist(1, b, 0, b, 1) else q.(tl := b, tix := 1, cc := q.cc + 1);
      var info' := Stored(info, b, 0, c % 256);
      if l == [] {
        assert l + [b] == [b];
        AfterStart(q, info, b, c % 256);
      } else {
        LastOn(s, w, k);
        AfterLink(q, info, l, b, c % 256);
      }
      TakeGood(s, w, k, q', info'[b]);
      cfreelist := next[b];
      next := next[b := NONE];
      if q.tl != NONE {
        next := next[q.tl := b];
      }
      info := info';
      qs := qs[k := q'];
      where := Taken(where, k);
      assert State() == Take(s, k, b, q', info'[b]);
    }

    /** Moves up to `cc` characters from queue `k` to a buffer. */
    method QToB(k: nat, cc: nat) returns (buf: seq<nat>)
      requires Valid() && k < |qs|
      modifies this
      ensures Valid() && |qs| == old(|qs|) && |next| == old(|next|)
      ensures |buf| == (if cc <= |old(Contents(k))| then cc else |old(Contents(k))|)
      ensures buf + Contents(k) == old(Contents(k))
      ensures forall j :: 0 <= j < |qs| && j != k ==> Contents(j) == old(Contents(j))
    {
      hide Good, Text;
      buf := [];
      while |buf| < cc
        invariant Valid() && |qs| == old(|qs|) && |next| == old(|next|) && |buf| <= cc
        invariant buf + Contents(k) == old(Contents(k))
        invariant forall j :: 0 <= j < |qs| && j != k ==> Contents(j) == old(Contents(j))
        decreases cc - |buf|
      {
        var c := Getc(k);
        if c < 0 {
          break;
        }
        buf := buf + [c];
      }
    }

    /** Moves a buffer to queue `k`; `left` characters did not fit, and then no block was free for the
        next one. */
    method BToQ(buf: seq<nat>, k: nat) returns (left: nat)
      requires Valid() && k < |qs| && forall i :: 0 <= i < |buf| ==> buf[i] < 256
      modifies this
      ensures Valid() && |qs| == old(|qs|) && |next| == old(|next|)
      ensures left <= |buf| && Contents(k) == old(Contents(k)) + buf[..|buf| - left]
      ensures left > 0 ==> Full(k) && where.free == []
      ensures forall j :: 0 <= j < |qs| && j != k ==> Contents(j) == old(Contents(j))
    {
      hide Good, Text;
      left := |buf|;
      while left > 0
        invariant Valid() && |qs| == old(|qs|) && |next| == old(|next|) && left <= |buf|
        invariant Contents(k) == old(Contents(k)) + buf[..|buf| - left]
        invariant forall j :: 0 <= j < |qs| && j != k ==> Contents(j) == old(Contents(j))
      {
        var r := Putc(buf[|buf| - left], k);
        if r < 0 {
          return;
        }
        left := left - 1;
      }
    }
  }

  /** What the cursors say of a queue's blocks and characters. */
  lemma CursorIs(s: Pool, w: Where, k: nat)
    requires Good(s, w) && k < |s.qs|
    ensures QueueOk(s, s.qs[k], w.lists[k])
    ensures w.lists[k] == [] <==> s.qs[k].tl == NONE
    ensures w.lists[k] == [] <==> s.qs[k].cc <= 0
    ensures w.lists[k] == [] ==> s.qs[k].cc == 0 && s.qs[k].hd == NONE && Text(s, w, k) == []
    ensures w.lists[k] != [] ==> |Text(s, w, k)| == s.qs[k].cc && s.qs[k].hd == w.lists[k][0] < |s.info| && s.qs[k].hix < CB && s.qs[k].tix <= CB
  {
    assert QueueOk(s, s.qs[k], w.lists[k]);
    if w.lists[k] != [] { AfterGet(s.qs[k], s.info, w.lists[k]); }
  }

  lemma EmptyShape(q: Clist, info: seq<seq<nat>>)
    requires q.cc == 0 && forall b :: 0 <= b < |info| ==> |info[b]| == CB
    ensures Shape(q.(hd := NONE, tl := NONE), []) && Held(q.(hd := NONE, tl := NONE), info, []) == []
  {
  }

  lemma SecondIs(s: Pool, w: Where, k: nat)
    requires Good(s, w) && k < |s.qs| && |w.lists[k]| > 1
    ensures w.lists[k][0] < |s.next| && s.next[w.lists[k][0]] == w.lists[k][1]
  {
    assert QueueOk(s, s.qs[k], w.lists[k]);
    assert w.lists[k][1..][0] == w.lists[k][1];
  }

  lemma FreeIs(s: Pool, w: Where)
    requires Good(s, w)
    ensures s.head == First(w.free)
  {
  }

  lemma LastOn(s: Pool, w: Where, k: nat)
    requires Good(s, w) && k < |s.qs| && w.lists[k] != []
    ensures var l := w.lists[k]; s.qs[k].tl == l[|l| - 1] && s.qs[k].tl in l && 0 <= s.qs[k].tl < |s.info| && NoDup(l)
    ensures |s.info[s.qs[k].tl]| == CB
  {
    assert QueueOk(s, s.qs[k], w.lists[k]);
    PartitionOwned(w, k);
  }

  /** When every queue is empty every block is free: none is ever lost. */
  lemma AllComeBack(s: Pool, w: Where)
    requires Good(s, w) && forall k :: 0 <= k < |s.qs| ==> Text(s, w, k) == []
    ensures forall b :: 0 <= b < |s.next| ==> b in w.free
  {
    forall b | 0 <= b < |s.next| ensures b in w.free {
      if w.owner[b] != NONE {
        CursorIs(s, w, w.owner[b]);
      }
    }
  }
}
