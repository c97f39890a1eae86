/** What itrunc() frees: the blocks behind each address of an inode, in its order. */
module FileTrunc {
  import opened Common
  import opened Blocks
  import opened FreeList
  import opened FileTree
  import opened FileBytes

  /** The blocks tloop frees from the entries below n of block bn, the highest entry first: at level 0
      the blocks themselves, at level 1 those behind them too. */
  function Scan(disk: seq<Block>, bn: nat, level: nat, n: nat): seq<nat>
    requires n <= NINDIR
    decreases level, n
  {
    if n == 0 then [] else Part(disk, Entry(disk, bn, n - 1), level) + Scan(disk, bn, level, n - 1)
  }

  /** What it frees for one entry. */
  function Part(disk: seq<Block>, e: nat, level: nat): seq<nat>
    decreases level, 0
  {
    if e == 0 then [] else if level == 0 then [e] else Scan(disk, e, level - 1, NINDIR) + [e]
  }

  /** All that tloop frees: what is behind bn, then bn. */
  function Whole(disk: seq<Block>, bn: nat, level: nat): seq<nat> {
    Scan(disk, bn, level, NINDIR) + [bn]
  }

  /** What itrunc frees for address k of an inode. */
  function Doomed(a: seq<nat>, disk: seq<Block>, k: nat): seq<nat>
    requires k < |a|
  {
    if a[k] == 0 then [] else if k < NDIRECT then [a[k]] else Whole(disk, a[k], k - NDIRECT)
  }

  // ----- the blocks are those at the places ----------------------------------------------------

  /** b is at a place below r, by way of an index below n. */
  ghost predicate Below(a: seq<nat>, disk: seq<Block>, r: seq<nat>, n: nat, b: nat) {
    exists p :: IsPlace(p) && |r| < |p| && p[..|r|] == r && p[|r|] < n && At(a, disk, p) == b
  }

  /** How far the tree goes below place r. */
  predicate Depth(r: seq<nat>, level: nat) {
    IsPlace(r) && r[0] >= NDIRECT && |r| + level == r[0] - NDIRECT + 1
  }

  /** A place one step below r. */
  lemma StepPlace(r: seq<nat>, level: nat, i: nat)
    requires Depth(r, level) && i < NINDIR
    ensures IsPlace(r + [i]) && (level > 0 ==> Depth(r + [i], level - 1))
    ensures (r + [i])[..|r|] == r
  {
  }

  /** What is below r by way of index i: the block there, and what is below it. */
  lemma {:induction false} BelowStep(a: seq<nat>, disk: seq<Block>, r: seq<nat>, level: nat, n: nat, b: nat)
    requires Depth(r, level) && 0 < n <= NINDIR && b != 0
    ensures Below(a, disk, r, n, b) <==>
            || Below(a, disk, r, n - 1, b)
            || At(a, disk, r + [n - 1]) == b
            || (level > 0 && Below(a, disk, r + [n - 1], NINDIR, b))
  {
    hide At;
    StepPlace(r, level, n - 1);
    var c := r + [n - 1];
    if Below(a, disk, r, n, b) {
      var p :| IsPlace(p) && |r| < |p| && p[..|r|] == r && p[|r|] < n && At(a, disk, p) == b;
      if p[|r|] == n - 1 {
        if |p| == |r| + 1 {
          assert p == c;
        } else {
          assert p[..|c|] == c;
          assert p[|c|] < NINDIR;
          assert Below(a, disk, c, NINDIR, b);
        }
      } else {
        assert Below(a, disk, r, n - 1, b);
      }
    }
    if level > 0 && Below(a, disk, c, NINDIR, b) {
      var p :| IsPlace(p) && |c| < |p| && p[..|c|] == c && p[|c|] < NINDIR && At(a, disk, p) == b;
      assert p[..|r|] == p[..|c|][..|r|] && p[|r|] == p[..|c|][|r|];
    }
  }

  /** Nothing is below an absent block. */
  lemma {:induction false} NoneBelow(a: seq<nat>, disk: seq<Block>, r: seq<nat>, n: nat, b: nat)
    requires r != [] && At(a, disk, r) == 0 && b != 0
    ensures !Below(a, disk, r, n, b)
  {
    forall p | IsPlace(p) && |r| < |p| && p[..|r|] == r && p[|r|] < n ensures At(a, disk, p) != b {
      AbsentBelow(a, disk, p, |r|);
    }
  }

  lemma AtStep(a: seq<nat>, disk: seq<Block>, r: seq<nat>, i: nat)
    requires r != []
    ensures At(a, disk, r + [i]) == Entry(disk, At(a, disk, r), i)
  {
    assert (r + [i])[..|r|] == r;
  }

  /** tloop visits exactly the blocks below. */
  lemma {:induction false} ScanAre(a: seq<nat>, disk: seq<Block>, r: seq<nat>, level: nat, n: nat, b: nat)
    requires Depth(r, level) && n <= NINDIR && b != 0
    ensures b in Scan(disk, At(a, disk, r), level, n) <==> Below(a, disk, r, n, b)
    decreases level, n
  {
    hide At, Entry, Below;
    if n == 0 {
      NothingBelow(a, disk, r, b);
    } else {
      BelowStep(a, disk, r, level, n, b);
      AtStep(a, disk, r, n - 1);
      ScanAre(a, disk, r, level, n - 1, b);
      StepPlace(r, level, n - 1);
      var c := r + [n - 1];
      PartAre(a, disk, c, level, b);
      ScanStep(disk, At(a, disk, r), level, n, b);
    }
  }

  lemma ScanStep(disk: seq<Block>, bn: nat, level: nat, n: nat, b: nat)
    requires 0 < n <= NINDIR
    ensures b in Scan(disk, bn, level, n) <==> b in Part(disk, Entry(disk, bn, n - 1), level) || b in Scan(disk, bn, level, n - 1)
  {
    hide Part, Entry;
  }

  /** What is freed for place c: what is below it, and its block. */
  lemma {:induction false} PartAre(a: seq<nat>, disk: seq<Block>, c: seq<nat>, level: nat, b: nat)
    requires c != [] && b != 0 && (level > 0 ==> Depth(c, level - 1))
    ensures b in Part(disk, At(a, disk, c), level) <==> At(a, disk, c) == b || (level > 0 && Below(a, disk, c, NINDIR, b))
    decreases level, 0
  {
    hide At, Entry, Below, Scan;
    if At(a, disk, c) == 0 {
      NoneBelow(a, disk, c, NINDIR, b);
    } else if level > 0 {
      ScanAre(a, disk, c, level - 1, NINDIR, b);
    }
  }

  lemma NothingBelow(a: seq<nat>, disk: seq<Block>, r: seq<nat>, b: nat)
    ensures !Below(a, disk, r, 0, b)
  {
  }

  /** b is at some place that begins with address k. */
  ghost predicate Behind(a: seq<nat>, disk: seq<Block>, k: nat, b: nat) {
    b != 0 && exists p :: IsPlace(p) && p[0] == k && At(a, disk, p) == b
  }

  lemma {:induction false} DoomedAre(a: seq<nat>, disk: seq<Block>, k: nat, b: nat)
    requires |a| == NADDR && k < NADDR
    ensures b in Doomed(a, disk, k) <==> Behind(a, disk, k, b)
  {
    hide Entry, Scan, Below, Behind, At;
    if b == 0 || a[k] == 0 || k < NDIRECT {
      DoomedSimple(a, disk, k, b);
    } else {
      AtRoot(a, disk, k);
      ScanAre(a, disk, [k], k - NDIRECT, NINDIR, b);
      BehindIs(a, disk, k, b);
    }
  }

  lemma AtRoot(a: seq<nat>, disk: seq<Block>, k: nat)
    requires k < |a|
    ensures At(a, disk, [k]) == a[k]
  {
  }

  lemma {:induction false} DoomedSimple(a: seq<nat>, disk: seq<Block>, k: nat, b: nat)
    requires |a| == NADDR && k < NADDR && (b == 0 || a[k] == 0 || k < NDIRECT)
    ensures b in Doomed(a, disk, k) <==> Behind(a, disk, k, b)
  {
    hide Entry, Scan, At;
    AtRoot(a, disk, k);
    if a[k] == 0 {
      forall p | IsPlace(p) && p[0] == k ensures At(a, disk, p) == 0 {
        assert p[..1] == [k];
        AbsentBelow(a, disk, p, 1);
      }
    } else if b == 0 {
      if k >= NDIRECT {
        ScanNonzero(disk, a[k], k - NDIRECT, NINDIR);
      }
    } else {
      assert IsPlace([k]);
      forall p | IsPlace(p) && p[0] == k ensures p == [k] {
      }
    }
  }

  lemma {:induction false} BehindIs(a: seq<nat>, disk: seq<Block>, k: nat, b: nat)
    requires |a| == NADDR && NDIRECT <= k < NADDR && b != 0
    ensures Behind(a, disk, k, b) <==> At(a, disk, [k]) == b || Below(a, disk, [k], NINDIR, b)
  {
    hide At;
    if Behind(a, disk, k, b) {
      var p :| IsPlace(p) && p[0] == k && At(a, disk, p) == b;
      if |p| == 1 {
        assert p == [k];
      } else {
        assert p[..1] == [k] && p[1] < NINDIR;
        assert Below(a, disk, [k], NINDIR, b);
      }
    }
    if Below(a, disk, [k], NINDIR, b) {
      var p :| IsPlace(p) && 1 < |p| && p[..1] == [k] && p[1] < NINDIR && At(a, disk, p) == b;
      assert p[0] == p[..1][0];
    }
    assert IsPlace([k]);
  }

  lemma {:induction false} ScanNonzero(disk: seq<Block>, bn: nat, level: nat, n: nat)
    requires n <= NINDIR
    ensures 0 !in Scan(disk, bn, level, n)
    decreases level, n
  {
    hide Entry, Part;
    if n > 0 {
      ScanNonzero(disk, bn, level, n - 1);
      PartNonzero(disk, Entry(disk, bn, n - 1), level);
    }
  }

  lemma {:induction false} PartNonzero(disk: seq<Block>, e: nat, level: nat)
    ensures 0 !in Part(disk, e, level)
    decreases level, 0
  {
    hide Scan;
    if e != 0 && level > 0 {
      ScanNonzero(disk, e, level - 1, NINDIR);
    }
  }

  // ----- each once -----------------------------------------------------------------------------

  lemma NoDupConcat(x: seq<nat>, y: seq<nat>)
    requires NoDup(x) && NoDup(y) && forall b :: b in x ==> b !in y
    ensures NoDup(x + y)
  {
    var z := x + y;
    forall i, j | 0 <= i < j < |z| ensures z[i] != z[j] {
      if i < |x| <= j {
        assert z[i] in x && z[j] in y;
      }
    }
  }

  /** No block is below r by way of two indices, or is both below c and at c. */
  lemma {:induction false} BelowOnce(s: Fs, limbo: set<nat>, ino: nat, r: seq<nat>, level: nat, n: nat, b: nat)
    requires Inv(s, limbo) && ino < |s.addr| && Depth(r, level) && n < NINDIR && b != 0
    ensures var a, disk, c := s.addr[ino], s.vol.disk, r + [n];
            && !(Below(a, disk, r, n, b) && (At(a, disk, c) == b || Below(a, disk, c, NINDIR, b)))
            && !(At(a, disk, c) == b && Below(a, disk, c, NINDIR, b))
            && !(At(a, disk, r) == b && Below(a, disk, r, NINDIR, b))
  {
    hide At, Valid, OneHolder, Conserved;
    var a, disk, c := s.addr[ino], s.vol.disk, r + [n];
    StepPlace(r, level, n);
    forall p, q | IsPlace(p) && IsPlace(q) && At(a, disk, p) == b && At(a, disk, q) == b ensures p == q {
      PlaceUnique(s, limbo, ino, p, ino, q);
    }
    if Below(a, disk, c, NINDIR, b) {
      var q :| IsPlace(q) && |c| < |q| && q[..|c|] == c && q[|c|] < NINDIR && At(a, disk, q) == b;
      assert q[|r|] == q[..|c|][|r|] == n;
      assert forall p :: IsPlace(p) && At(a, disk, p) == b ==> p == q;
    } else if At(a, disk, c) == b {
      assert c[|r|] == n;
      assert forall p :: IsPlace(p) && At(a, disk, p) == b ==> p == c;
    }
    if At(a, disk, r) == b {
      assert forall p :: IsPlace(p) && At(a, disk, p) == b ==> p == r;
    }
  }

  lemma {:induction false} ScanOnce(s: Fs, limbo: set<nat>, ino: nat, r: seq<nat>, level: nat, n: nat)
    requires Inv(s, limbo) && ino < |s.addr| && Depth(r, level) && n <= NINDIR
    ensures NoDup(Scan(s.vol.disk, At(s.addr[ino], s.vol.disk, r), level, n))
    decreases level, n
  {
    hide At, Entry, Below, Inv, Depth, Part;
    var a, disk := s.addr[ino], s.vol.disk;
    if n > 0 {
      var c, rest := r + [n - 1], Scan(disk, At(a, disk, r), level, n - 1);
      DepthPlace(r, level, n - 1);
      AtStep(a, disk, r, n - 1);
      ScanOnce(s, limbo, ino, r, level, n - 1);
      PartOnce(s, limbo, ino, r, level, n - 1);
      var x := Part(disk, At(a, disk, c), level);
      PartNonzero(disk, At(a, disk, c), level);
      forall b | b in x ensures b !in rest {
        PartAre(a, disk, c, level, b);
        ScanAre(a, disk, r, level, n - 1, b);
        BelowOnce(s, limbo, ino, r, level, n - 1, b);
      }
      NoDupConcat(x, rest);
    }
  }

  lemma {:induction false} PartOnce(s: Fs, limbo: set<nat>, ino: nat, r: seq<nat>, level: nat, i: nat)
    requires Inv(s, limbo) && ino < |s.addr| && Depth(r, level) && i < NINDIR
    ensures NoDup(Part(s.vol.disk, At(s.addr[ino], s.vol.disk, r + [i]), level))
    decreases level, 0
  {
    hide At, Entry, Below, Inv, Depth, Scan;
    var a, disk, c := s.addr[ino], s.vol.disk, r + [i];
    var e := At(a, disk, c);
    DepthPlace(r, level, i);
    if e != 0 && level > 0 {
      ScanOnce(s, limbo, ino, c, level - 1, NINDIR);
      ScanAre(a, disk, c, level - 1, NINDIR, e);
      BelowOnce(s, limbo, ino, r, level, i, e);
      NoDupConcat(Scan(disk, e, level - 1, NINDIR), [e]);
    }
  }

  /** itrunc frees each of them once. */
  lemma {:induction false} DoomedOnce(s: Fs, limbo: set<nat>, ino: nat, k: nat)
    requires Inv(s, limbo) && ino < |s.addr| && k < NADDR
    ensures |s.addr[ino]| == NADDR && NoDup(Doomed(s.addr[ino], s.vol.disk, k))
  {
    hide At, Entry, Below, Scan, OneHolder, Conserved, Valid;
    var a, disk := s.addr[ino], s.vol.disk;
    if a[k] != 0 && k >= NDIRECT {
      AtRoot(a, disk, k);
      ScanOnce(s, limbo, ino, [k], k - NDIRECT, NINDIR);
      ScanAre(a, disk, [k], k - NDIRECT, NINDIR, a[k]);
      BelowOnce(s, limbo, ino, [k], k - NDIRECT, 0, a[k]);
      NoDupConcat(Scan(disk, a[k], k - NDIRECT, NINDIR), [a[k]]);
    }
  }

  lemma DepthPlace(r: seq<nat>, level: nat, i: nat)
    requires Depth(r, level) && i < NINDIR
    ensures level > 0 ==> Depth(r + [i], level - 1)
    ensures r != []
  {
  }

  // ----- freeing what has been cut off ---------------------------------------------------------

  function SetOf(s: seq<nat>): set<nat> {
    set b | b in s
  }

  /** Every place has the block it had, and every file the bytes. */
  ghost predicate FilesKept(s: Fs, s': Fs) {
    && s'.addr == s.addr && s'.size == s.size && s'.vol.isize == s.vol.isize && s'.vol.fsize == s.vol.fsize
    && (forall i: nat, p :: i < |s.addr| && IsPlace(p) ==> At(s'.addr[i], s'.vol.disk, p) == At(s.addr[i], s.vol.disk, p))
    && forall i: nat, o: nat :: i < |s.addr| ==> FileByte(s', i, o) == FileByte(s, i, o)
  }

  lemma FilesKeptTrans(a: Fs, b: Fs, c: Fs)
    requires FilesKept(a, b) && FilesKept(b, c)
    ensures FilesKept(a, c)
  {
    hide At, FileByte;
    forall i: nat, p | i < |a.addr| && IsPlace(p) ensures At(c.addr[i], c.vol.disk, p) == At(a.addr[i], a.vol.disk, p) {
      assert At(b.addr[i], b.vol.disk, p) == At(a.addr[i], a.vol.disk, p);
    }
    forall i: nat, o: nat | i < |a.addr| ensures FileByte(c, i, o) == FileByte(a, i, o) {
      assert FileByte(b, i, o) == FileByte(a, i, o);
    }
  }

  /** A block in limbo is at no place. */
  lemma LimboNowhere(s: Fs, limbo: set<nat>, b: nat, ino: nat, p: seq<nat>)
    requires Inv(s, limbo) && b in limbo && ino < |s.addr| && IsPlace(p)
    ensures At(s.addr[ino], s.vol.disk, p) != b && b !in Stack(s.vol) && InRange(s.vol, b) && b < |s.vol.disk|
  {
    hide ListOk, StackOf, At, Valid;
    assert Holds(s, limbo, InLimbo, b);
    HeldInRange(s, limbo, InLimbo, b);
    assert At(s.addr[ino], s.vol.disk, p) == b ==> Holds(s, limbo, InFile(ino, p), b);
    assert b in Stack(s.vol) ==> Holds(s, limbo, InFree, b);
  }

  lemma LimboFacts(s: Fs, limbo: set<nat>, b: nat)
    requires Inv(s, limbo) && b in limbo
    ensures b !in Stack(s.vol) && InRange(s.vol, b) && 0 < b < |s.vol.disk| && Storable(s.vol)
  {
    hide ListOk, StackOf, At;
    assert Holds(s, limbo, InLimbo, b);
    HeldInRange(s, limbo, InLimbo, b);
    assert b in Stack(s.vol) ==> Holds(s, limbo, InFree, b);
  }

  /** free writes no block but the one it frees. */
  lemma FreeWrites(v: Vol, b: nat) returns (x: Block)
    requires Storable(v) && b < |v.disk|
    ensures var w := FreeTo(v, b); w.disk == v.disk[b := x] && w.isize == v.isize && w.fsize == v.fsize
  {
    hide MakeChain;
    var u := Begun(v);
    if u.nfree < NICFREE {
      x := v.disk[b];
      assert v.disk[b := v.disk[b]] == v.disk;
    } else {
      x := MakeChain(NICFREE, u.free);
    }
  }

  lemma {:induction false} FreeLimbo(s: Fs, limbo: set<nat>, b: nat)
    requires Inv(s, limbo) && b in limbo
    ensures Storable(s.vol) && b < |s.vol.disk|
    ensures var s' := s.(vol := FreeTo(s.vol, b));
            && Inv(s', limbo - {b}) && Stack(s'.vol) == [b] + Stack(s.vol) && FilesKept(s, s')
            && |s'.vol.disk| == |s.vol.disk| && forall c :: 0 <= c < |s.vol.disk| && c != b ==> s'.vol.disk[c] == s.vol.disk[c]
  {
    hide ListOk, StackOf, At, FreeTo, Valid, Conserved, OneHolder;
    LimboFacts(s, limbo, b);
    FreePushes(s.vol, b);
    var x := FreeWrites(s.vol, b);
    var s' := s.(vol := FreeTo(s.vol, b));
    forall i: nat, p | i < |s.addr| && IsPlace(p) ensures At(s'.addr[i], s'.vol.disk, p) == At(s.addr[i], s.vol.disk, p) {
      LimboUnseen(s, limbo, b, x, i, p);
    }
    forall i: nat, o: nat | i < |s.addr| ensures FileByte(s', i, o) == FileByte(s, i, o) {
      LimboBytes(s, limbo, b, x, i, o);
    }
    forall o, c ensures Holds(s', limbo - {b}, o, c) <==> (Holds(s, limbo, o, c) && !(o == InLimbo && c == b)) || (o == InFree && c == b) {
    }
    assert Holds(s, limbo, InLimbo, b);
    HoldersMoved(s, s', limbo, limbo - {b}, InLimbo, InFree, b);
  }

  lemma {:induction false} LimboUnseen(s: Fs, limbo: set<nat>, b: nat, x: Block, i: nat, p: seq<nat>)
    requires Inv(s, limbo) && b in limbo && i < |s.addr| && IsPlace(p) && b < |s.vol.disk|
    ensures At(s.addr[i], s.vol.disk[b := x], p) == At(s.addr[i], s.vol.disk, p) != b
  {
    hide At, Inv;
    LimboNowhere(s, limbo, b, i, p);
    forall k | 1 <= k < |p| ensures At(s.addr[i], s.vol.disk, p[..k]) != b {
      PrefixPlace(p, k);
      LimboNowhere(s, limbo, b, i, p[..k]);
    }
    AtFrame(s.addr[i], s.vol.disk, p, b, x);
  }

  lemma {:induction false} LimboBytes(s: Fs, limbo: set<nat>, b: nat, x: Block, i: nat, o: nat)
    requires Inv(s, limbo) && b in limbo && i < |s.addr| && b < |s.vol.disk|
    ensures FileByte(s.(vol := s.vol.(disk := s.vol.disk[b := x])), i, o) == FileByte(s, i, o)
  {
    hide At, Inv, PlaceOf, IsData;
    var r := PlaceOf(o / BSIZE);
    if r == [] {
      NoPlace(s.addr[i], s.vol.disk);
      NoPlace(s.addr[i], s.vol.disk[b := x]);
    } else {
      DataPlace(r);
      LimboUnseen(s, limbo, b, x, i, r);
    }
  }

  // ----- cutting an address off ----------------------------------------------------------------

  function CutOff(s: Fs, ino: nat, k: nat): Fs
    requires ino < |s.addr| && k < |s.addr[ino]|
  {
    s.(addr := s.addr[ino := SetAddr(s.addr[ino], k, 0)])
  }

  lemma {:induction false} CutAt(a: seq<nat>, disk: seq<Block>, k: nat, p: seq<nat>)
    requires k < |a| && p != []
    ensures At(SetAddr(a, k, 0), disk, p) == if p[0] == k then 0 else At(a, disk, p)
    decreases |p|
  {
    if |p| > 1 {
      CutAt(a, disk, k, p[..|p| - 1]);
    }
  }

  /** What was behind the address is in limbo now. */
  lemma {:induction false} CutKeeps(s: Fs, limbo: set<nat>, ino: nat, k: nat)
    requires Inv(s, limbo) && ino < |s.addr| && k < NADDR
    ensures |s.addr[ino]| == NADDR
    ensures Inv(CutOff(s, ino, k), limbo + SetOf(Doomed(s.addr[ino], s.vol.disk, k)))
  {
    hide ListOk, StackOf, At, Valid, Doomed;
    var a, disk, s' := s.addr[ino], s.vol.disk, CutOff(s, ino, k);
    var limbo' := limbo + SetOf(Doomed(a, disk, k));
    forall o, b ensures Holds(s', limbo', o, b) <==>
        || (Holds(s, limbo, o, b) && !(o.InFile? && o.ino == ino && o.p[0] == k))
        || (o == InLimbo && Behind(a, disk, k, b))
    {
      DoomedAre(a, disk, k, b);
      if o.InFile? && o.ino < |s.addr| && IsPlace(o.p) {
        CutAt(a, disk, k, o.p);
      }
    }
    CutHolders(s, s', limbo, limbo', ino, k);
  }

  lemma {:induction false} CutHolders(s: Fs, s': Fs, limbo: set<nat>, limbo': set<nat>, ino: nat, k: nat)
    requires OneHolder(s, limbo) && Conserved(s, limbo) && s'.vol == s.vol && ino < |s.addr|
    requires forall o, b :: Holds(s', limbo', o, b) <==>
        || (Holds(s, limbo, o, b) && !(o.InFile? && o.p != [] && o.ino == ino && o.p[0] == k))
        || (o == InLimbo && Behind(s.addr[ino], s.vol.disk, k, b))
    ensures OneHolder(s', limbo') && Conserved(s', limbo')
  {
    hide At, InRange;
    var a, disk := s.addr[ino], s.vol.disk;
    forall b | Behind(a, disk, k, b) ensures exists o :: Holds(s, limbo, o, b) && o.InFile? && o.p != [] && o.ino == ino && o.p[0] == k {
      var p :| IsPlace(p) && p[0] == k && At(a, disk, p) == b;
      assert Holds(s, limbo, InFile(ino, p), b);
    }
    forall o, b | Holds(s, limbo, o, b) && o.InFile? && o.p != [] && o.ino == ino && o.p[0] == k ensures Behind(a, disk, k, b) {
    }
    hide Holds, Behind;
    forall b: nat ensures InRange(s'.vol, b) <==> exists o :: Holds(s', limbo', o, b) {
      if o :| Holds(s, limbo, o, b) {
        if o.InFile? && o.p != [] && o.ino == ino && o.p[0] == k {
          assert Holds(s', limbo', InLimbo, b);
        } else {
          assert Holds(s', limbo', o, b);
        }
      }
    }
  }

  // ----- the walk of tloop ---------------------------------------------------------------------

  /** What is behind a block depends only on blocks behind it and on itself. */
  lemma {:induction false} ScanFrame(disk: seq<Block>, disk': seq<Block>, bn: nat, level: nat, n: nat)
    requires n <= NINDIR && |disk'| == |disk| && bn < |disk| && disk'[bn] == disk[bn]
    requires forall b :: b in Scan(disk, bn, level, n) && b < |disk| ==> disk'[b] == disk[b]
    ensures Scan(disk', bn, level, n) == Scan(disk, bn, level, n)
    decreases level, n
  {
    hide Part, WordAt;
    if n > 0 {
      ScanFrame(disk, disk', bn, level, n - 1);
      PartFrame(disk, disk', Entry(disk, bn, n - 1), level);
    }
  }

  lemma {:induction false} PartFrame(disk: seq<Block>, disk': seq<Block>, e: nat, level: nat)
    requires |disk'| == |disk| && forall b :: b in Part(disk, e, level) && b < |disk| ==> disk'[b] == disk[b]
    ensures Part(disk', e, level) == Part(disk, e, level)
    decreases level, 0
  {
    hide Scan;
    if e != 0 && level > 0 {
      if e < |disk| {
        ScanFrame(disk, disk', e, level - 1, NINDIR);
      } else {
        ScanAbsent(disk, e, level - 1, NINDIR);
        ScanAbsent(disk', e, level - 1, NINDIR);
      }
    }
  }

  lemma {:induction false} ScanAbsent(disk: seq<Block>, e: nat, level: nat, n: nat)
    requires n <= NINDIR && e >= |disk|
    ensures Scan(disk, e, level, n) == []
  {
    if n > 0 {
      ScanAbsent(disk, e, level, n - 1);
    }
  }

  lemma {:induction false} RevConcat(x: seq<nat>, y: seq<nat>)
    ensures Rev(x + y) == Rev(y) + Rev(x)
  {
    if y == [] {
      assert x + y == x;
    } else {
      var n := |y| - 1;
      assert (x + y)[..|x + y| - 1] == x + y[..n];
      RevConcat(x, y[..n]);
    }
  }

  /** tloop, begun in s0 with limbo, has freed the blocks done and is in s. */
  ghost predicate Freed(s0: Fs, limbo: set<nat>, done: seq<nat>, s: Fs) {
    && Inv(s, limbo - SetOf(done)) && Stack(s.vol) == Rev(done) + Stack(s0.vol) && FilesKept(s0, s)
    && |s.vol.disk| == |s0.vol.disk| && forall b :: 0 <= b < |s0.vol.disk| && b !in done ==> s.vol.disk[b] == s0.vol.disk[b]
  }

  lemma FreedNone(s: Fs, limbo: set<nat>)
    requires Inv(s, limbo)
    ensures Freed(s, limbo, [], s)
  {
    hide Inv, At, FileByte;
    assert limbo - SetOf([]) == limbo;
  }

  /** More blocks freed. */
  lemma {:induction false} FreedMore(s0: Fs, limbo: set<nat>, done: seq<nat>, s1: Fs, more: seq<nat>, s2: Fs)
    requires Freed(s0, limbo, done, s1) && Freed(s1, limbo - SetOf(done), more, s2)
    ensures Freed(s0, limbo, done + more, s2)
  {
    hide Inv, FilesKept;
    FilesKeptTrans(s0, s1, s2);
    RevConcat(done, more);
    assert limbo - SetOf(done) - SetOf(more) == limbo - SetOf(done + more);
    assert Rev(more) + (Rev(done) + Stack(s0.vol)) == Rev(more) + Rev(done) + Stack(s0.vol);
  }

  lemma {:induction false} FreedOne(s: Fs, limbo: set<nat>, b: nat)
    requires Inv(s, limbo) && b in limbo
    ensures Storable(s.vol) && b < |s.vol.disk| && InRange(s.vol, b) && Freed(s, limbo, [b], s.(vol := FreeTo(s.vol, b)))
  {
    hide Inv, FilesKept, FreeTo;
    LimboFacts(s, limbo, b);
    FreeLimbo(s, limbo, b);
    assert SetOf([b]) == {b};
    assert Rev([b]) == [b] by {
      assert [b][..0] == [];
    }
  }

  // ----- the walk of itrunc --------------------------------------------------------------------

  /** b is at a place of file ino that begins with address i or a higher one. */
  ghost predicate From(s: Fs, ino: nat, i: nat, b: nat)
    requires ino < |s.addr|
  {
    b != 0 && exists p :: IsPlace(p) && p[0] >= i && At(s.addr[ino], s.vol.disk, p) == b
  }

  /** itrunc, begun in s0, has dealt with the addresses from i up, and freed the blocks done. */
  ghost predicate Cut(s0: Fs, s: Fs, ino: nat, i: nat, done: seq<nat>) {
    && ino < |s0.addr| == |s.addr| && Inv(s, {}) && Stack(s.vol) == Rev(done) + Stack(s0.vol) && s.size == s0.size
    && (forall b :: b in done <==> From(s0, ino, i, b))
    && (forall j: nat, p :: j < |s.addr| && IsPlace(p) ==>
          At(s.addr[j], s.vol.disk, p) == if j == ino && p[0] >= i then 0 else At(s0.addr[j], s0.vol.disk, p))
    && (forall j: nat :: j < |s.addr| && j != ino ==> s.addr[j] == s0.addr[j])
    && forall j: nat, o: nat :: j < |s.addr| && j != ino ==> FileByte(s, j, o) == FileByte(s0, j, o)
  }

  lemma CutStart(s: Fs, ino: nat)
    requires Inv(s, {}) && ino < |s.addr|
    ensures Cut(s, s, ino, NADDR, [])
  {
    hide Inv, At, FileByte;
  }

  /** What is behind address i, seen now or at the beginning. */
  lemma {:induction false} CutBehind(s0: Fs, s: Fs, ino: nat, i: nat, done: seq<nat>, b: nat)
    requires Cut(s0, s, ino, i + 1, done) && i < NADDR
    ensures Behind(s.addr[ino], s.vol.disk, i, b) <==> Behind(s0.addr[ino], s0.vol.disk, i, b)
    ensures From(s0, ino, i, b) <==> From(s0, ino, i + 1, b) || Behind(s0.addr[ino], s0.vol.disk, i, b)
  {
    hide Inv, At, FileByte;
    assert forall p :: IsPlace(p) && p[0] == i ==> At(s.addr[ino], s.vol.disk, p) == At(s0.addr[ino], s0.vol.disk, p);
  }

  /** Address i cut off and what was behind it freed. */
  lemma {:induction false} CutStep(s0: Fs, s: Fs, ino: nat, i: nat, done: seq<nat>, s2: Fs)
    requires Cut(s0, s, ino, i + 1, done) && i < NADDR && i < |s.addr[ino]|
    requires var dead := Doomed(s.addr[ino], s.vol.disk, i);
             Freed(CutOff(s, ino, i), {} + SetOf(dead), dead, s2)
    ensures Cut(s0, s2, ino, i, done + Doomed(s.addr[ino], s.vol.disk, i))
  {
    hide Conserved, OneHolder, Valid, At, FileByte, Doomed;
    var a, disk, s1 := s.addr[ino], s.vol.disk, CutOff(s, ino, i);
    var dead := Doomed(a, disk, i);
    RevConcat(done, dead);
    assert {} + SetOf(dead) - SetOf(dead) == {};
    assert Rev(dead) + (Rev(done) + Stack(s0.vol)) == Rev(dead) + Rev(done) + Stack(s0.vol);
    forall b ensures b in done + dead <==> From(s0, ino, i, b) {
      DoomedAre(a, disk, i, b);
      CutBehind(s0, s, ino, i, done, b);
    }
    CutPlaces(s0, s, ino, i, done, s2);
  }

  lemma {:induction false} CutPlaces(s0: Fs, s: Fs, ino: nat, i: nat, done: seq<nat>, s2: Fs)
    requires Cut(s0, s, ino, i + 1, done) && i < NADDR && i < |s.addr[ino]| && FilesKept(CutOff(s, ino, i), s2)
    ensures forall j: nat, p :: j < |s.addr| && IsPlace(p) ==>
              At(s2.addr[j], s2.vol.disk, p) == if j == ino && p[0] >= i then 0 else At(s0.addr[j], s0.vol.disk, p)
    ensures forall j: nat, o: nat :: j < |s.addr| && j != ino ==> FileByte(s2, j, o) == FileByte(s0, j, o)
  {
    hide Inv, At, FileByte;
    var s1 := CutOff(s, ino, i);
    forall j: nat, p | j < |s.addr| && IsPlace(p)
      ensures At(s2.addr[j], s2.vol.disk, p) == if j == ino && p[0] >= i then 0 else At(s0.addr[j], s0.vol.disk, p)
    {
      CutAt(s.addr[ino], s.vol.disk, i, p);
      assert At(s2.addr[j], s2.vol.disk, p) == At(s1.addr[j], s1.vol.disk, p);
    }
    forall j: nat, o: nat | j < |s.addr| && j != ino ensures FileByte(s2, j, o) == FileByte(s0, j, o) {
      assert FileByte(s2, j, o) == FileByte(s1, j, o);
      OtherBytes(s, ino, i, j, o);
      assert FileByte(s, j, o) == FileByte(s0, j, o);
    }
  }

  lemma OtherBytes(s: Fs, ino: nat, i: nat, j: nat, o: nat)
    requires ino < |s.addr| && i < |s.addr[ino]| && j < |s.addr| && j != ino
    ensures FileByte(CutOff(s, ino, i), j, o) == FileByte(s, j, o)
  {
  }

  /** An address that was 0 already. */
  lemma {:induction false} CutSkip(s0: Fs, s: Fs, ino: nat, i: nat, done: seq<nat>)
    requires Cut(s0, s, ino, i + 1, done) && i < NADDR && i < |s.addr[ino]| && s.addr[ino][i] == 0
    ensures Cut(s0, s, ino, i, done)
  {
    hide Inv, At, FileByte;
    forall p | IsPlace(p) && p[0] == i ensures At(s.addr[ino], s.vol.disk, p) == 0 {
      AtRoot(s.addr[ino], s.vol.disk, i);
      assert p[..1] == [i];
      AbsentBelow(s.addr[ino], s.vol.disk, p, 1);
    }
    forall b ensures b in done <==> From(s0, ino, i, b) {
      CutBehind(s0, s, ino, i, done, b);
    }
  }

  lemma CutShape(s0: Fs, s: Fs, ino: nat, i: nat, done: seq<nat>)
    requires Cut(s0, s, ino, i, done)
    ensures Inv(s, {}) && |s.addr| == |s.size| == |s0.addr| && ino < |s.addr| && |s.addr[ino]| == NADDR
  {
  }

  /** When all addresses are done, the file is empty and its blocks are free. */
  lemma {:induction false} CutEnd(s0: Fs, s: Fs, ino: nat, done: seq<nat>)
    requires Cut(s0, s, ino, 0, done)
    ensures s.addr[ino] == seq(NADDR, _ => 0) && NoDup(done)
  {
    hide Conserved, OneHolder, ListOk, StackOf, FileByte;
    forall k: nat | k < NADDR ensures s.addr[ino][k] == 0 {
      AtRoot(s.addr[ino], s.vol.disk, k);
      assert IsPlace([k]);
      assert At(s.addr[ino], s.vol.disk, [k]) == 0;
    }
    RevOnce(done, Stack(s0.vol));
  }

  lemma {:induction false} RevOnce(s: seq<nat>, t: seq<nat>)
    requires NoDup(Rev(s) + t)
    ensures NoDup(s)
  {
    if s != [] {
      var n := |s| - 1;
      var l, rest := Rev(s) + t, Rev(s[..n]) + t;
      assert l == [s[n]] + rest;
      assert forall i :: 0 <= i < |rest| ==> rest[i] == l[i + 1];
      RevOnce(s[..n], t);
      forall i | 0 <= i < n ensures s[i] != s[n] {
        RevIn(s[..n], s[i]);
        assert s[..n][i] == s[i];
        var j :| 0 <= j < |Rev(s[..n])| && Rev(s[..n])[j] == s[i];
        assert rest[j] == s[i] == l[j + 1] && l[0] == s[n];
      }
      forall i, j | 0 <= i < j < |s| ensures s[i] != s[j] {
        assert j < n ==> s[..n][i] == s[i] && s[..n][j] == s[j];
      }
    }
  }
}
