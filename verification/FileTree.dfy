/** Inodes and the blocks behind them: direct, single and double indirect (kernel/subr.c,
    kernel/iget.c). */
module FileTree {
  import opened Common
  import opened Blocks
  import opened FreeList

  const NADDR: nat := 8
  const NLEVEL: nat := 2
  const NDIRECT: nat := NADDR - NLEVEL

  /** The blocks of a file system and its inodes' addresses and sizes. */
  datatype Fs = Fs(vol: Vol, addr: seq<seq<nat>>, size: seq<nat>)

  // ----- places in a file ----------------------------------------------------------------------

  /** A place: an address of the inode, then indices into indirect blocks.  Addresses 6 and 7 lead to
      the single and the double indirect block. */
  predicate IsPlace(p: seq<nat>) {
    && 1 <= |p| <= 3 && p[0] < NADDR
    && (|p| == 2 ==> NDIRECT <= p[0]) && (|p| == 3 ==> p[0] == NADDR - 1)
    && forall i :: 1 <= i < |p| ==> p[i] < NINDIR
  }

  /** A place that holds data rather than addresses. */
  predicate IsData(p: seq<nat>) {
    IsPlace(p) && |p| == if p[0] < NDIRECT then 1 else if p[0] == NDIRECT then 2 else 3
  }

  /** What entry i of indirect block b says. */
  function Entry(disk: seq<Block>, b: nat, i: nat): nat {
    if b == 0 || b >= |disk| || i >= NINDIR then 0 else WordAt(disk[b], i)
  }

  /** The block at place p, or 0. */
  function At(a: seq<nat>, disk: seq<Block>, p: seq<nat>): nat
    decreases |p|
  {
    if p == [] then 0
    else if |p| == 1 then if p[0] < |a| then a[p[0]] else 0
    else Entry(disk, At(a, disk, p[..|p| - 1]), p[|p| - 1])
  }

  /** The place of logical block bn; [] when it is beyond the double indirect block. */
  function PlaceOf(bn: nat): (p: seq<nat>)
    ensures p != [] ==> IsData(p)
    ensures p == [] <==> bn >= NDIRECT + NINDIR + NINDIR * NINDIR
  {
    if bn < NDIRECT then [bn]
    else if bn - NDIRECT < NINDIR then [NDIRECT, bn - NDIRECT]
    else if bn - NDIRECT - NINDIR < NINDIR * NINDIR then
      var n := bn - NDIRECT - NINDIR;
      assert n / NINDIR < NINDIR;
      [NDIRECT + 1, n / NINDIR, n % NINDIR]
    else []
  }

  /** Different logical blocks have different places. */
  lemma PlaceOnce(m: nat, n: nat)
    requires PlaceOf(m) == PlaceOf(n) != []
    ensures m == n
  {
  }

  /** Every data place is the place of a logical block. */
  lemma PlaceReached(p: seq<nat>) returns (bn: nat)
    requires IsData(p)
    ensures PlaceOf(bn) == p
  {
    if |p| == 1 {
      bn := p[0];
    } else if |p| == 2 {
      bn := NDIRECT + p[1];
    } else {
      bn := NDIRECT + NINDIR + p[1] * NINDIR + p[2];
      var n := p[1] * NINDIR + p[2];
      assert n / NINDIR == p[1] && n % NINDIR == p[2];
      assert PlaceOf(bn) == p;
    }
  }

  // ----- who holds a block ---------------------------------------------------------------------

  datatype Owner = InFree | InLimbo | InFile(ino: nat, p: seq<nat>)

  /** limbo: blocks cut off from their file and not yet freed. */
  predicate Holds(s: Fs, limbo: set<nat>, o: Owner, b: nat) {
    match o
    case InFree => b in Stack(s.vol)
    case InLimbo => b in limbo
    case InFile(ino, p) => ino < |s.addr| && IsPlace(p) && b != 0 && At(s.addr[ino], s.vol.disk, p) == b
  }

  ghost predicate OneHolder(s: Fs, limbo: set<nat>) {
    forall o, o', b :: Holds(s, limbo, o, b) && Holds(s, limbo, o', b) ==> o == o'
  }

  /** Exactly the blocks between the inode list and the end of the device are held. */
  ghost predicate Conserved(s: Fs, limbo: set<nat>) {
    forall b: nat :: InRange(s.vol, b) <==> exists o :: Holds(s, limbo, o, b)
  }

  /** Every block is in one place: the free list, limbo, or one place of one file. */
  ghost predicate Inv(s: Fs, limbo: set<nat>) {
    && Valid(s.vol) && |s.addr| == |s.size| && (forall i :: 0 <= i < |s.addr| ==> |s.addr[i]| == NADDR)
    && OneHolder(s, limbo) && Conserved(s, limbo)
  }

  lemma HeldInRange(s: Fs, limbo: set<nat>, o: Owner, b: nat)
    requires Inv(s, limbo) && Holds(s, limbo, o, b)
    ensures InRange(s.vol, b) && 0 < b < |s.vol.disk|
  {
    hide ListOk, StackOf, OneHolder;
  }

  /** Below an absent block there is nothing. */
  lemma {:induction false} AbsentBelow(a: seq<nat>, disk: seq<Block>, p: seq<nat>, k: nat)
    requires 1 <= k <= |p| && At(a, disk, p[..k]) == 0
    ensures At(a, disk, p) == 0
    decreases |p|
  {
    if k < |p| {
      assert p[..|p| - 1][..k] == p[..k];
      AbsentBelow(a, disk, p[..|p| - 1], k);
    } else {
      assert p[..k] == p;
    }
  }

  lemma PrefixPlace(p: seq<nat>, k: nat)
    requires IsPlace(p) && 1 <= k < |p|
    ensures IsPlace(p[..k]) && !IsData(p[..k])
  {
  }

  /** A place does not see changes in blocks that are not on the way to it. */
  lemma {:induction false} AtFrame(a: seq<nat>, disk: seq<Block>, p: seq<nat>, b: nat, x: Block)
    requires b < |disk| && forall k :: 1 <= k < |p| ==> At(a, disk, p[..k]) != b
    ensures At(a, disk[b := x], p) == At(a, disk, p)
    decreases |p|
  {
    if |p| >= 2 {
      var n := |p| - 1;
      forall k | 1 <= k < n ensures At(a, disk, p[..n][..k]) != b {
        assert p[..n][..k] == p[..k];
      }
      AtFrame(a, disk, p[..n], b, x);
    }
  }

  /** The same for any change of the disk. */
  lemma {:induction false} AtSame(a: seq<nat>, disk: seq<Block>, disk': seq<Block>, p: seq<nat>)
    requires |disk'| == |disk|
    requires forall k :: 1 <= k < |p| && At(a, disk, p[..k]) < |disk| ==> disk'[At(a, disk, p[..k])] == disk[At(a, disk, p[..k])]
    ensures At(a, disk', p) == At(a, disk, p)
    decreases |p|
  {
    if |p| >= 2 {
      var n := |p| - 1;
      forall k | 1 <= k < n && At(a, disk, p[..n][..k]) < |disk|
        ensures disk'[At(a, disk, p[..n][..k])] == disk[At(a, disk, p[..n][..k])]
      {
        assert p[..n][..k] == p[..k];
      }
      AtSame(a, disk, disk', p[..n]);
    }
  }

  // ----- giving a place a block ----------------------------------------------------------------

  /** What alloc leaves of the volume. */
  function Taken(v: Vol): Vol
    requires 0 < v.nfree <= |v.free| && v.free[v.nfree - 1] < |v.disk|
  {
    Popped(v).(disk := v.disk[v.free[v.nfree - 1] := Zero()], tfree := v.tfree - 1)
  }

  /** The next block to be allocated. */
  function Top(v: Vol): nat
    requires 0 < v.nfree <= |v.free|
  {
    v.free[v.nfree - 1]
  }

  ghost predicate HasSpace(v: Vol) {
    Valid(v) && Stack(v) != []
  }

  lemma {:induction false} TakenOk(v: Vol)
    requires HasSpace(v)
    ensures 0 < v.nfree <= |v.free| && InRange(v, Top(v)) && 0 < Top(v) < |v.disk|
    ensures Valid(Taken(v)) && Top(v) == Stack(v)[0] && Stack(Taken(v)) == Stack(v)[1..]
    ensures forall b :: b in Stack(Taken(v)) <==> b in Stack(v) && b != Top(v)
    ensures Taken(v).isize == v.isize && Taken(v).fsize == v.fsize && Taken(v).disk == v.disk[Top(v) := Zero()]
  {
    hide ListOk, StackOf, Zero;
    CacheBound(v);
    AllocPops(v);
    assert Stack(v) == [Stack(v)[0]] + Stack(v)[1..];
  }

  /** The place can be given a block: it has none, and its indirect block is there. */
  predicate Vacant(s: Fs, ino: nat, p: seq<nat>) {
    && ino < |s.addr| && |s.addr[ino]| == NADDR && IsPlace(p) && At(s.addr[ino], s.vol.disk, p) == 0
    && (|p| > 1 ==> 0 < At(s.addr[ino], s.vol.disk, p[..|p| - 1]) < |s.vol.disk|)
  }

  function SetAddr(a: seq<nat>, k: nat, b: nat): (r: seq<nat>)
    requires k < |a|
    ensures |r| == |a|
  {
    a[..k] + [b] + a[k + 1..]
  }

  /** alloc, and the new block's number stored at place p. */
  function Attach(s: Fs, ino: nat, p: seq<nat>): Fs
    requires Vacant(s, ino, p) && 0 < s.vol.nfree <= |s.vol.free| && Top(s.vol) < |s.vol.disk| && Top(s.vol) < WORDS
  {
    var b, v := Top(s.vol), Taken(s.vol);
    if |p| == 1 then s.(vol := v, addr := s.addr[ino := SetAddr(s.addr[ino], p[0], b)])
    else
      var q := At(s.addr[ino], s.vol.disk, p[..|p| - 1]);
      s.(vol := v.(disk := v.disk[q := PutWord(v.disk[q], p[|p| - 1], b)]))
  }

  /** A free block is at no place. */
  lemma FreeNowhere(s: Fs, limbo: set<nat>, b: nat, ino: nat, p: seq<nat>)
    requires Inv(s, limbo) && b in Stack(s.vol) && ino < |s.addr| && IsPlace(p)
    ensures At(s.addr[ino], s.vol.disk, p) != b
  {
    hide ListOk, StackOf, At, Conserved, Valid;
    assert Holds(s, limbo, InFree, b);
    HeldInRange(s, limbo, InFree, b);
    assert At(s.addr[ino], s.vol.disk, p) == b ==> Holds(s, limbo, InFile(ino, p), b);
  }

  /** Two places with the same block are the same place. */
  lemma PlaceUnique(s: Fs, limbo: set<nat>, ino: nat, p: seq<nat>, ino': nat, p': seq<nat>)
    requires Inv(s, limbo) && ino < |s.addr| && IsPlace(p) && ino' < |s.addr| && IsPlace(p')
    requires At(s.addr[ino], s.vol.disk, p) == At(s.addr[ino'], s.vol.disk, p') != 0
    ensures ino == ino' && p == p'
  {
    hide ListOk, StackOf, At, Conserved, Valid;
    var b := At(s.addr[ino], s.vol.disk, p);
    assert Holds(s, limbo, InFile(ino, p), b) && Holds(s, limbo, InFile(ino', p'), b);
  }

  /** The new block in an address of the inode. */
  lemma {:induction false} AttachRoot(s: Fs, limbo: set<nat>, ino: nat, p: seq<nat>, ino': nat, p': seq<nat>)
    requires Inv(s, limbo) && HasSpace(s.vol) && Vacant(s, ino, p) && |p| == 1 && ino' < |s.addr| && IsPlace(p')
    requires 0 < s.vol.nfree <= |s.vol.free| && 0 < Top(s.vol) < |s.vol.disk| && Top(s.vol) < WORDS && Top(s.vol) in Stack(s.vol)
    ensures At(Attach(s, ino, p).addr[ino'], s.vol.disk[Top(s.vol) := Zero()], p') ==
            if ino' == ino && p' == p then Top(s.vol) else At(s.addr[ino'], s.vol.disk, p')
    decreases |p'|
  {
    hide ListOk, StackOf, Conserved, OneHolder, Valid;
    var a, disk, b := s.addr[ino'], s.vol.disk, Top(s.vol);
    var a', disk' := Attach(s, ino, p).addr[ino'], disk[b := Zero()];
    if |p'| > 1 {
      var q := p'[..|p'| - 1];
      PrefixPlace(p', |p'| - 1);
      AttachRoot(s, limbo, ino, p, ino', q);
      FreeNowhere(s, limbo, b, ino', q);
      if ino' == ino && q == p {
        WordZero(p'[|p'| - 1]);
      }
    }
  }

  /** The new block in an indirect block. */
  lemma {:induction false} AttachDeep(s: Fs, limbo: set<nat>, ino: nat, p: seq<nat>, ino': nat, p': seq<nat>)
    requires Inv(s, limbo) && HasSpace(s.vol) && Vacant(s, ino, p) && |p| > 1 && ino' < |s.addr| && IsPlace(p')
    requires 0 < s.vol.nfree <= |s.vol.free| && 0 < Top(s.vol) < |s.vol.disk| && Top(s.vol) < WORDS && Top(s.vol) in Stack(s.vol)
    ensures At(s.addr[ino'], Attach(s, ino, p).vol.disk, p') ==
            if ino' == ino && p' == p then Top(s.vol) else At(s.addr[ino'], s.vol.disk, p')
    decreases |p'|
  {
    hide ListOk, StackOf, Conserved, OneHolder, Valid, WordAt, PutWord, Zero, Holds;
    var disk, b, n := s.vol.disk, Top(s.vol), |p'| - 1;
    var parent := p[..|p| - 1];
    PrefixPlace(p, |p| - 1);
    var q := At(s.addr[ino], disk, parent);
    FreeNowhere(s, limbo, b, ino, parent);
    if n > 0 {
      var r := p'[..n];
      PrefixPlace(p', n);
      AttachDeep(s, limbo, ino, p, ino', r);
      FreeNowhere(s, limbo, b, ino', r);
      var x := At(s.addr[ino'], disk, r);
      if ino' == ino && r == p {
        WordZero(p'[n]);
      } else if x == q {
        PlaceUnique(s, limbo, ino', r, ino, parent);
        WordPut(disk[q], p[|p| - 1], b, p'[n]);
        assert p == parent + [p[|p| - 1]] && p' == r + [p'[n]];
      }
    }
  }

  /** Giving place p a block changes no other place of any file. */
  lemma {:induction false} AttachAt(s: Fs, limbo: set<nat>, ino: nat, p: seq<nat>, ino': nat, p': seq<nat>)
    requires Inv(s, limbo) && HasSpace(s.vol) && Vacant(s, ino, p) && ino' < |s.addr| && IsPlace(p')
    ensures 0 < s.vol.nfree <= |s.vol.free| && Top(s.vol) < |s.vol.disk| && Top(s.vol) < WORDS
    ensures var s' := Attach(s, ino, p);
            && |s'.addr| == |s.addr|
            && At(s'.addr[ino'], s'.vol.disk, p') == if ino' == ino && p' == p then Top(s.vol) else At(s.addr[ino'], s.vol.disk, p')
  {
    TakenOk(s.vol);
    SpaceFacts(s.vol);
    hide ListOk, StackOf, Conserved, OneHolder, Valid, At;
    if |p| == 1 {
      AttachRoot(s, limbo, ino, p, ino', p');
    } else {
      AttachDeep(s, limbo, ino, p, ino', p');
    }
  }

  lemma SpaceFacts(v: Vol)
    requires HasSpace(v)
    ensures |v.disk| < WORDS
  {
  }

  /** The free list after that. */
  lemma {:induction false} AttachList(s: Fs, limbo: set<nat>, ino: nat, p: seq<nat>)
    requires Inv(s, limbo) && HasSpace(s.vol) && Vacant(s, ino, p)
    ensures 0 < s.vol.nfree <= |s.vol.free| && Top(s.vol) < |s.vol.disk| && Top(s.vol) < WORDS
    ensures var s' := Attach(s, ino, p);
            && Valid(s'.vol) && s'.vol.isize == s.vol.isize && s'.vol.fsize == s.vol.fsize
            && forall b :: b in Stack(s'.vol) <==> b in Stack(s.vol) && b != Top(s.vol)
  {
    hide ListOk, StackOf, Conserved, OneHolder, At;
    TakenOk(s.vol);
    SpaceFacts(s.vol);
    var v := Taken(s.vol);
    if |p| > 1 {
      var q := At(s.addr[ino], s.vol.disk, p[..|p| - 1]);
      PrefixPlace(p, |p| - 1);
      assert q !in Stack(v) by {
        if q in Stack(s.vol) {
          FreeNowhere(s, limbo, q, ino, p[..|p| - 1]);
        }
      }
      StackFrame(v.isize, v.nfree, v.free, v.disk, v.depth, q, PutWord(v.disk[q], p[|p| - 1], Top(s.vol)));
    }
  }

  lemma {:induction false} AttachKeeps(s: Fs, limbo: set<nat>, ino: nat, p: seq<nat>)
    requires Inv(s, limbo) && HasSpace(s.vol) && Vacant(s, ino, p)
    ensures 0 < s.vol.nfree <= |s.vol.free| && Top(s.vol) < |s.vol.disk| && Top(s.vol) < WORDS
    ensures Inv(Attach(s, ino, p), limbo)
  {
    hide ListOk, StackOf, At, Valid;
    AttachList(s, limbo, ino, p);
    TakenOk(s.vol);
    var s', b0 := Attach(s, ino, p), Top(s.vol);
    AttachShape(s, ino, p);
    forall o, b ensures Holds(s', limbo, o, b) <==>
        (Holds(s, limbo, o, b) && !(o == InFree && b == b0)) || (o == InFile(ino, p) && b == b0)
    {
      if o.InFile? && o.ino < |s.addr| && IsPlace(o.p) {
        AttachAt(s, limbo, ino, p, o.ino, o.p);
      }
    }
    HoldersMoved(s, s', limbo, limbo, InFree, InFile(ino, p), b0);
  }

  lemma AttachShape(s: Fs, ino: nat, p: seq<nat>)
    requires Vacant(s, ino, p) && 0 < s.vol.nfree <= |s.vol.free| && Top(s.vol) < |s.vol.disk| && Top(s.vol) < WORDS
    ensures var s' := Attach(s, ino, p);
            && |s'.addr| == |s.addr| && s'.size == s.size
            && (forall i :: 0 <= i < |s.addr| && |s.addr[i]| == NADDR ==> |s'.addr[i]| == NADDR)
  {
    hide At;
  }

  /** A block that goes from one holder to another. */
  lemma {:induction false} HoldersMoved(s: Fs, s': Fs, limbo: set<nat>, limbo': set<nat>, from: Owner, to: Owner, b0: nat)
    requires OneHolder(s, limbo) && Conserved(s, limbo) && Holds(s, limbo, from, b0) && from != to
    requires s'.vol.isize == s.vol.isize && s'.vol.fsize == s.vol.fsize
    requires forall o, b :: Holds(s', limbo', o, b) <==> (Holds(s, limbo, o, b) && !(o == from && b == b0)) || (o == to && b == b0)
    ensures OneHolder(s', limbo') && Conserved(s', limbo')
  {
    hide Holds;
    forall b: nat ensures InRange(s'.vol, b) <==> exists o :: Holds(s', limbo', o, b) {
      assert InRange(s'.vol, b) == InRange(s.vol, b);
      if b == b0 {
        assert Holds(s', limbo', to, b);
      }
      if o :| Holds(s, limbo, o, b) {
        assert b != b0 ==> Holds(s', limbo', o, b);
      }
    }
  }
}
