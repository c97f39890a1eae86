/** The free list of a file system: a cache in the superblock, and a chain of blocks on the disk
    (kernel/alloc.c).  Together they are a stack of block numbers. */
module FreeList {
  import opened Common
  import opened Blocks

  const NICFREE: nat := 320

  /** The superblock's part in it, the disk, and how many chain blocks there are. */
  datatype Vol = Vol(isize: nat, fsize: nat, nfree: nat, free: seq<nat>, tfree: int, disk: seq<Block>, depth: nat)

  /** !badblock. */
  predicate InRange(v: Vol, b: nat) {
    v.isize <= b < v.fsize
  }

  // ----- chain blocks --------------------------------------------------------------------------

  /** The first n words after word 0 of b set from f. */
  function Fill(b: Block, f: seq<nat>, n: nat): Block
    requires n <= |f| <= NICFREE && forall i :: 0 <= i < |f| ==> f[i] < WORDS
  {
    if n == 0 then b else PutWord(Fill(b, f, n - 1), n, f[n - 1])
  }

  lemma {:induction false} FillAt(b: Block, f: seq<nat>, n: nat, j: nat)
    requires n <= |f| <= NICFREE && (forall i :: 0 <= i < |f| ==> f[i] < WORDS) && j < NINDIR
    ensures WordAt(Fill(b, f, n), j) == if 1 <= j <= n then f[j - 1] else WordAt(b, j)
  {
    if n > 0 {
      FillAt(b, f, n - 1, j);
      WordPut(Fill(b, f, n - 1), n, f[n - 1], j);
    }
  }

  /** struct fblk: the count and the NICFREE addresses, in a cleared block. */
  function MakeChain(n: nat, f: seq<nat>): Block
    requires n <= NICFREE == |f| && forall i :: 0 <= i < |f| ==> f[i] < WORDS
  {
    PutWord(Fill(Zero(), f, NICFREE), 0, n)
  }

  function ChainCount(b: Block): nat {
    WordAt(b, 0)
  }

  function ChainFree(b: Block): (f: seq<nat>)
    ensures |f| == NICFREE
  {
    seq(NICFREE, i requires 0 <= i < NICFREE => WordAt(b, i + 1))
  }

  lemma {:induction false} ReadChain(n: nat, f: seq<nat>)
    requires n <= NICFREE == |f| && forall i :: 0 <= i < |f| ==> f[i] < WORDS
    ensures ChainCount(MakeChain(n, f)) == n && ChainFree(MakeChain(n, f)) == f
  {
    hide WordAt, PutWord, Fill;
    var b := Fill(Zero(), f, NICFREE);
    WordPut(b, 0, n, 0);
    forall i | 0 <= i < NICFREE ensures WordAt(PutWord(b, 0, n), i + 1) == f[i] {
      WordPut(b, 0, n, i + 1);
      FillAt(Zero(), f, NICFREE, i + 1);
    }
    assert ChainFree(MakeChain(n, f)) == f;
  }

  // ----- the stack -----------------------------------------------------------------------------

  function Rev(s: seq<nat>): (r: seq<nat>)
    ensures |r| == |s|
  {
    if s == [] then [] else [s[|s| - 1]] + Rev(s[..|s| - 1])
  }

  /** The free blocks, the next to be allocated first: the cached ones, and those behind address 0. */
  function StackOf(nfree: nat, free: seq<nat>, disk: seq<Block>, depth: nat): seq<nat>
    decreases depth, 1
  {
    if nfree == 0 || nfree > |free| then [] else Rev(free[1..nfree]) + Behind(free[0], disk, depth)
  }

  /** The chain block at address c, and what is in it. */
  function Behind(c: nat, disk: seq<Block>, depth: nat): seq<nat>
    decreases depth, 0
  {
    if depth == 0 || c >= |disk| then []
    else [c] + StackOf(ChainCount(disk[c]), ChainFree(disk[c]), disk, depth - 1)
  }

  function Stack(v: Vol): seq<nat> {
    StackOf(v.nfree, v.free, v.disk, v.depth)
  }

  /** The cached addresses are in range, and address 0 leads to a chain block or ends the list. */
  predicate ListOk(isize: nat, nfree: nat, free: seq<nat>, disk: seq<Block>, depth: nat)
    decreases depth, 1
  {
    && |free| == NICFREE && nfree <= NICFREE && (nfree == 0 ==> depth == 0)
    && (forall i :: 1 <= i < nfree ==> isize <= free[i] < |disk|)
    && (nfree > 0 ==> BehindOk(isize, free[0], disk, depth))
  }

  predicate BehindOk(isize: nat, c: nat, disk: seq<Block>, depth: nat)
    decreases depth, 0
  {
    if depth == 0 then c == 0
    else
      && isize <= c < |disk| && ChainCount(disk[c]) > 0
      && ListOk(isize, ChainCount(disk[c]), ChainFree(disk[c]), disk, depth - 1)
  }

  /** The cache can be written to a chain block. */
  predicate Storable(v: Vol) {
    |v.free| == NICFREE && forall i :: 0 <= i < NICFREE ==> v.free[i] < WORDS
  }

  ghost predicate Valid(v: Vol) {
    && 0 < v.isize <= v.fsize == |v.disk| < WORDS && Storable(v)
    && ListOk(v.isize, v.nfree, v.free, v.disk, v.depth) && NoDup(Stack(v)) && v.tfree == |Stack(v)|
  }

  lemma {:induction false} RevIn(s: seq<nat>, b: nat)
    ensures b in Rev(s) <==> b in s
  {
    if s != [] {
      RevIn(s[..|s| - 1], b);
      assert s == s[..|s| - 1] + [s[|s| - 1]];
    }
  }

  /** Every block of the stack is in range. */
  lemma {:induction false} StackInRange(isize: nat, nfree: nat, free: seq<nat>, disk: seq<Block>, depth: nat, b: nat)
    requires ListOk(isize, nfree, free, disk, depth) && b in StackOf(nfree, free, disk, depth)
    ensures isize <= b < |disk|
    decreases depth
  {
    hide ChainCount, ChainFree, Rev;
    if b in Rev(free[1..nfree]) {
      RevIn(free[1..nfree], b);
      var i :| 0 <= i < nfree - 1 && free[1..nfree][i] == b;
      assert free[i + 1] == b;
    } else if depth > 0 && b != free[0] {
      assert BehindOk(isize, free[0], disk, depth);
      assert b in Behind(free[0], disk, depth);
      StackInRange(isize, ChainCount(disk[free[0]]), ChainFree(disk[free[0]]), disk, depth - 1, b);
    }
  }

  /** The list does not depend on blocks that are not in it. */
  lemma {:induction false} StackFrame(isize: nat, nfree: nat, free: seq<nat>, disk: seq<Block>, depth: nat, b: nat, x: Block)
    requires ListOk(isize, nfree, free, disk, depth) && b < |disk| && b !in StackOf(nfree, free, disk, depth)
    ensures ListOk(isize, nfree, free, disk[b := x], depth)
    ensures StackOf(nfree, free, disk[b := x], depth) == StackOf(nfree, free, disk, depth)
    decreases depth, 1
  {
    hide Rev, Behind, BehindOk;
    if nfree > 0 {
      BehindFrame(isize, free[0], disk, depth, b, x);
    }
  }

  lemma {:induction false} BehindFrame(isize: nat, c: nat, disk: seq<Block>, depth: nat, b: nat, x: Block)
    requires BehindOk(isize, c, disk, depth) && b < |disk| && b !in Behind(c, disk, depth)
    ensures BehindOk(isize, c, disk[b := x], depth)
    ensures Behind(c, disk[b := x], depth) == Behind(c, disk, depth)
    decreases depth, 0
  {
    hide ChainCount, ChainFree, ListOk, StackOf;
    if depth > 0 {
      StackFrame(isize, ChainCount(disk[c]), ChainFree(disk[c]), disk, depth - 1, b, x);
    }
  }

  // ----- free ----------------------------------------------------------------------------------

  /** An exhausted list is begun again. */
  function Begun(v: Vol): Vol
    requires |v.free| == NICFREE
  {
    if v.nfree == 0 then v.(nfree := 1, free := v.free[0 := 0]) else v
  }

  /** A full cache goes to block b, which heads the chain now. */
  function Spilt(v: Vol, b: nat): Vol
    requires Storable(v) && b < |v.disk|
  {
    if v.nfree < NICFREE then v
    else v.(disk := v.disk[b := MakeChain(NICFREE, v.free)], nfree := 0, depth := v.depth + 1)
  }

  function FreeTo(v: Vol, b: nat): Vol
    requires Storable(v) && b < |v.disk|
  {
    var w := Spilt(Begun(v), b);
    if w.nfree < |w.free| then w.(free := w.free[w.nfree := b], nfree := w.nfree + 1, tfree := w.tfree + 1) else w
  }

  lemma {:induction false} BegunOk(v: Vol)
    requires Valid(v)
    ensures Valid(Begun(v)) && Stack(Begun(v)) == Stack(v) && 0 < Begun(v).nfree
  {
    hide ChainCount, ChainFree;
    if v.nfree == 0 {
      assert Begun(v).free[1..1] == [];
    }
  }

  lemma RevPush(s: seq<nat>, b: nat)
    ensures Rev(s + [b]) == [b] + Rev(s)
  {
    assert (s + [b])[..|s|] == s;
  }

  /** Room in the cache: the block goes on top. */
  lemma {:induction false} PushCached(v: Vol, b: nat)
    requires Valid(v) && 0 < v.nfree < NICFREE && InRange(v, b) && b !in Stack(v)
    ensures var w := v.(free := v.free[v.nfree := b], nfree := v.nfree + 1, tfree := v.tfree + 1);
            Valid(w) && Stack(w) == [b] + Stack(v)
  {
    hide Rev, Behind, BehindOk;
    var w := v.(free := v.free[v.nfree := b], nfree := v.nfree + 1, tfree := v.tfree + 1);
    assert w.free[1..w.nfree] == v.free[1..v.nfree] + [b];
    RevPush(v.free[1..v.nfree], b);
    assert Stack(w) == [b] + Stack(v);
  }

  /** No room: the cache goes into the block, and the block is the whole cache. */
  lemma {:induction false} PushSpilt(v: Vol, b: nat)
    requires Valid(v) && v.nfree == NICFREE && InRange(v, b) && b !in Stack(v)
    ensures var x := Spilt(v, b);
            var w := x.(free := x.free[0 := b], nfree := 1, tfree := x.tfree + 1);
            Valid(w) && Stack(w) == [b] + Stack(v)
  {
    hide ChainCount, ChainFree, Rev, MakeChain, ListOk, StackOf, Behind;
    ReadChain(NICFREE, v.free);
    var x := Spilt(v, b);
    var w := x.(free := x.free[0 := b], nfree := 1, tfree := x.tfree + 1);
    StackFrame(v.isize, v.nfree, v.free, v.disk, v.depth, b, MakeChain(NICFREE, v.free));
    SpiltStack(w, v.nfree, v.free, v.depth);
  }

  /** A cache of one address is that chain block and what is in it. */
  lemma {:induction false} SpiltStack(w: Vol, n: nat, f: seq<nat>, depth: nat)
    requires w.nfree == 1 && |w.free| == NICFREE && w.depth == depth + 1 && w.free[0] < |w.disk|
    requires ChainCount(w.disk[w.free[0]]) == n && ChainFree(w.disk[w.free[0]]) == f
    requires n > 0 && w.isize <= w.free[0] && ListOk(w.isize, n, f, w.disk, depth)
    ensures Stack(w) == [w.free[0]] + StackOf(n, f, w.disk, depth) && ListOk(w.isize, 1, w.free, w.disk, w.depth)
  {
    hide ChainCount, ChainFree;
    assert w.free[1..1] == [];
    assert Behind(w.free[0], w.disk, w.depth) == [w.free[0]] + StackOf(n, f, w.disk, depth);
    assert BehindOk(w.isize, w.free[0], w.disk, w.depth);
  }

  lemma RevNil()
    ensures Rev([]) == []
  {
  }

  /** free pushes. */
  lemma {:induction false} FreePushes(v: Vol, b: nat)
    requires Valid(v) && InRange(v, b) && b !in Stack(v)
    ensures Valid(FreeTo(v, b)) && Stack(FreeTo(v, b)) == [b] + Stack(v)
  {
    CacheBound(v);
    hide Valid, Stack, MakeChain;
    BegunOk(v);
    var u := Begun(v);
    CacheBound(u);
    if u.nfree < NICFREE {
      PushCached(u, b);
    } else {
      PushSpilt(u, b);
    }
  }

  lemma CacheBound(v: Vol)
    requires Valid(v)
    ensures v.nfree <= NICFREE == |v.free| && Storable(v) && v.fsize == |v.disk|
  {
  }

  // ----- alloc ---------------------------------------------------------------------------------

  /** The cache without its top; when that empties it, the chain block's cache. */
  function Popped(v: Vol): Vol
    requires 0 < v.nfree <= |v.free| && v.free[v.nfree - 1] < |v.disk|
  {
    var b := v.free[v.nfree - 1];
    if v.nfree > 1 then v.(nfree := v.nfree - 1)
    else v.(nfree := ChainCount(v.disk[b]), free := ChainFree(v.disk[b]), depth := if v.depth == 0 then 0 else v.depth - 1)
  }

  /** What alloc leaves when it finds no space. */
  function Exhausted(v: Vol): Vol {
    v.(nfree := 0, tfree := 0, depth := 0)
  }

  lemma {:induction false} PopStack(v: Vol)
    requires Valid(v) && v.nfree > 0
    ensures (v.free[v.nfree - 1] == 0) <==> Stack(v) == []
    ensures Stack(v) != [] ==>
      && InRange(v, v.free[v.nfree - 1]) && v.free[v.nfree - 1] == Stack(v)[0]
      && Popped(v).nfree > 0 && Storable(Popped(v)) && Stack(Popped(v)) == Stack(v)[1..]
      && ListOk(v.isize, Popped(v).nfree, Popped(v).free, v.disk, Popped(v).depth)
  {
    hide ChainCount, ChainFree, Rev;
    RevNil();
    var n := v.nfree;
    assert BehindOk(v.isize, v.free[0], v.disk, v.depth);
    assert Stack(v) == Rev(v.free[1..n]) + Behind(v.free[0], v.disk, v.depth);
    if n > 1 {
      assert v.free[1..n] == v.free[1..n - 1] + [v.free[n - 1]];
      RevPush(v.free[1..n - 1], v.free[n - 1]);
    } else {
      assert v.free[1..1] == [];
      if v.depth > 0 {
        ChainStorable(v.disk[v.free[0]]);
      }
    }
  }

  lemma ChainStorable(b: Block)
    ensures forall i :: 0 <= i < NICFREE ==> ChainFree(b)[i] < WORDS
  {
  }

  /** alloc pops, and hands out the block cleared. */
  lemma {:induction false} AllocPops(v: Vol)
    requires Valid(v) && Stack(v) != []
    ensures v.nfree > 0 && InRange(v, v.free[v.nfree - 1])
    ensures var b := v.free[v.nfree - 1];
            var w := Popped(v).(disk := v.disk[b := Zero()], tfree := v.tfree - 1);
            Valid(w) && b == Stack(v)[0] && Stack(w) == Stack(v)[1..]
  {
    CacheBound(v);
    NoneFree(v);
    hide ChainCount, ChainFree, Rev, ListOk, StackOf, Zero;
    PopStack(v);
    var b, u := v.free[v.nfree - 1], Popped(v);
    assert b !in Stack(u);
    StackFrame(v.isize, u.nfree, u.free, v.disk, u.depth, b, Zero());
  }

  lemma NoneFree(v: Vol)
    ensures v.nfree == 0 ==> Stack(v) == []
  {
  }

  lemma ExhaustedOk(v: Vol)
    requires Valid(v)
    ensures Valid(Exhausted(v)) && Stack(Exhausted(v)) == []
  {
  }

  /** alloc after free(b) hands out b again and leaves the cache as it was, even across a spill. */
  lemma {:induction false} AllocUndoesFree(v: Vol, b: nat)
    requires Valid(v) && InRange(v, b) && b !in Stack(v)
    ensures var u, w := Begun(v), FreeTo(v, b);
            && 0 < w.nfree <= |w.free| && w.free[w.nfree - 1] == b
            && var r := Popped(w);
               && r.nfree == u.nfree <= |u.free| == |r.free| && r.free[..r.nfree] == u.free[..u.nfree] && r.depth == u.depth
               && w.tfree - 1 == v.tfree && Stack(r) == Stack(v)
  {
    FreePushes(v, b);
    BegunOk(v);
    CacheBound(v);
    CacheBound(Begun(v));
    var w := FreeTo(v, b);
    CacheBound(w);
    hide ListOk, StackOf, MakeChain, ChainCount, ChainFree, NoDup;
    ReadChain(NICFREE, Begun(v).free);
    PopStack(w);
  }
}
