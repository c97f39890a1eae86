/** What bmap() does to a file system: it fills in a place and those on the way to it. */
module FileMap {
  import opened Common
  import opened Blocks
  import opened FreeList
  import opened FileTree
  import opened FileBytes

  predicate AttachReady(s: Fs, ino: nat, p: seq<nat>) {
    Vacant(s, ino, p) && 0 < s.vol.nfree <= |s.vol.free| && Top(s.vol) < |s.vol.disk| && Top(s.vol) < WORDS
  }

  /** One level of bmap: the block at place p, or a new one if it may be allocated; -1 for none. */
  ghost predicate Ensured(s: Fs, s': Fs, ino: nat, p: seq<nat>, write: bool, nb: int)
    requires ino < |s.addr|
  {
    var b := At(s.addr[ino], s.vol.disk, p);
    if b != 0 then s' == s && nb == b
    else if !write then s' == s && nb == -1
    else if Stack(s.vol) == [] then s' == s.(vol := Exhausted(s.vol)) && nb == -1
    else AttachReady(s, ino, p) && s' == Attach(s, ino, p) && nb == Top(s.vol)
  }

  /** No byte of any file has changed. */
  ghost predicate BytesSame(s: Fs, s': Fs) {
    |s'.addr| == |s.addr| && forall ino, off :: 0 <= ino < |s.addr| && 0 <= off ==> FileByte(s', ino, off) == FileByte(s, ino, off)
  }

  /** Blocks stay where they were; new ones are at places of file ino on the way to p. */
  ghost predicate PlacesKept(s: Fs, s': Fs, ino: nat, p: seq<nat>) {
    && |s'.addr| == |s.addr|
    && forall i, r :: 0 <= i < |s.addr| && IsPlace(r) ==>
         || At(s'.addr[i], s'.vol.disk, r) == At(s.addr[i], s.vol.disk, r)
         || (At(s.addr[i], s.vol.disk, r) == 0 && i == ino && r <= p)
  }

  /** bmap has come to the first k steps of place p. */
  ghost predicate Reached(s: Fs, s': Fs, limbo: set<nat>, ino: nat, p: seq<nat>, k: nat, write: bool) {
    && ino < |s.addr| && IsPlace(p) && k <= |p| && Inv(s', limbo) && s'.size == s.size
    && BytesSame(s, s') && PlacesKept(s, s', ino, p)
    && (k > 0 ==> At(s'.addr[ino], s'.vol.disk, p[..k]) != 0)
    && (!write ==> s' == s) && (At(s.addr[ino], s.vol.disk, p) != 0 ==> s' == s)
  }

  lemma ReachedStart(s: Fs, limbo: set<nat>, ino: nat, p: seq<nat>, write: bool)
    requires Inv(s, limbo) && ino < |s.addr| && IsPlace(p)
    ensures Reached(s, s, limbo, ino, p, 0, write)
  {
    hide Inv, FileByte, At;
  }

  /** The next place is vacant, or has its block. */
  lemma {:induction false} NextVacant(s: Fs, s': Fs, limbo: set<nat>, ino: nat, p: seq<nat>, k: nat, write: bool)
    requires Reached(s, s', limbo, ino, p, k, write) && k < |p|
    ensures IsPlace(p[..k + 1]) && ino < |s'.addr|
    ensures k > 0 ==> p[..k + 1][..k] == p[..k] && 0 < At(s'.addr[ino], s'.vol.disk, p[..k]) < |s'.vol.disk|
    ensures At(s'.addr[ino], s'.vol.disk, p[..k + 1]) == 0 ==> Vacant(s', ino, p[..k + 1])
  {
    hide BytesSame, Conserved, ListOk, StackOf, At;
    assert p[..|p|] == p;
    if k + 1 < |p| {
      PrefixPlace(p, k + 1);
    }
    if k > 0 {
      assert p[..k + 1][..k] == p[..k];
      PrefixPlace(p, k);
      HeldInRange(s', limbo, InFile(ino, p[..k]), At(s'.addr[ino], s'.vol.disk, p[..k]));
    }
  }

  lemma {:induction false} ReachedStep(s: Fs, s1: Fs, s2: Fs, limbo: set<nat>, ino: nat, p: seq<nat>, k: nat, write: bool, nb: int)
    requires Reached(s, s1, limbo, ino, p, k, write) && k < |p| && Ensured(s1, s2, ino, p[..k + 1], write, nb) && nb >= 0
    ensures Reached(s, s2, limbo, ino, p, k + 1, write) && ino < |s2.addr| && nb == At(s2.addr[ino], s2.vol.disk, p[..k + 1]) > 0
  {
    hide Conserved, OneHolder, Valid, ListOk, StackOf, At, FileByte;
    var r := p[..k + 1];
    NextVacant(s, s1, limbo, ino, p, k, write);
    if At(s1.addr[ino], s1.vol.disk, r) == 0 {
      AttachStep(s, s1, limbo, ino, p, k, write);
    }
  }

  lemma {:induction false} AttachStep(s: Fs, s1: Fs, limbo: set<nat>, ino: nat, p: seq<nat>, k: nat, write: bool)
    requires Reached(s, s1, limbo, ino, p, k, write) && k < |p| && write && AttachReady(s1, ino, p[..k + 1]) && Stack(s1.vol) != []
    ensures Reached(s, Attach(s1, ino, p[..k + 1]), limbo, ino, p, k + 1, write)
    ensures var s2 := Attach(s1, ino, p[..k + 1]);
            ino < |s2.addr| && At(s2.addr[ino], s2.vol.disk, p[..k + 1]) == Top(s1.vol) > 0
  {
    hide Conserved, OneHolder, ListOk, StackOf, At, FileByte, Attach;
    var r := p[..k + 1];
    var s2 := Attach(s1, ino, r);
    TakenOk(s1.vol);
    AttachShape(s1, ino, r);
    AttachKeeps(s1, limbo, ino, r);
    AttachAt(s1, limbo, ino, r, ino, r);
    forall i: nat, off: nat | i < |s.addr| ensures FileByte(s2, i, off) == FileByte(s, i, off) {
      AttachBytes(s1, limbo, ino, r, i, off);
      assert FileByte(s1, i, off) == FileByte(s, i, off);
    }
    forall i: nat, q | i < |s.addr| && IsPlace(q)
      ensures || At(s2.addr[i], s2.vol.disk, q) == At(s.addr[i], s.vol.disk, q)
              || (At(s.addr[i], s.vol.disk, q) == 0 && i == ino && q <= p)
    {
      AttachAt(s1, limbo, ino, r, i, q);
    }
    assert At(s.addr[ino], s.vol.disk, p) == 0 by {
      if At(s.addr[ino], s.vol.disk, p) != 0 {
        AbsentThere(s, ino, p, k);
      }
    }
  }

  lemma AbsentThere(s: Fs, ino: nat, p: seq<nat>, k: nat)
    requires ino < |s.addr| && k < |p| && At(s.addr[ino], s.vol.disk, p[..k + 1]) == 0
    ensures At(s.addr[ino], s.vol.disk, p) == 0
  {
    AbsentBelow(s.addr[ino], s.vol.disk, p, k + 1);
  }

  // ----- the whole of bmap ---------------------------------------------------------------------

  /** What bmap(ino, bn) leaves for place p, and returns. */
  ghost predicate Mapped(s: Fs, s': Fs, limbo: set<nat>, ino: nat, p: seq<nat>, write: bool, nb: int) {
    && ino < |s.addr| && Inv(s', limbo) && s'.size == s.size && BytesSame(s, s') && PlacesKept(s, s', ino, p)
    && (nb >= 0 ==> nb == At(s'.addr[ino], s'.vol.disk, p) > 0)
    && (!write ==> s' == s && nb == if At(s.addr[ino], s.vol.disk, p) == 0 then -1 else At(s.addr[ino], s.vol.disk, p))
    && (At(s.addr[ino], s.vol.disk, p) != 0 ==> s' == s && nb == At(s.addr[ino], s.vol.disk, p))
    && (write && nb < 0 ==> nb == -1 && Stack(s'.vol) == [])
  }

  lemma {:induction false} MappedDone(s: Fs, s': Fs, limbo: set<nat>, ino: nat, p: seq<nat>, write: bool)
    requires Reached(s, s', limbo, ino, p, |p|, write)
    ensures Mapped(s, s', limbo, ino, p, write, At(s'.addr[ino], s'.vol.disk, p))
  {
    hide Inv, BytesSame, PlacesKept, At;
    assert p[..|p|] == p;
  }

  /** bmap stops where there is no block. */
  lemma {:induction false} MappedStop(s: Fs, s1: Fs, s2: Fs, limbo: set<nat>, ino: nat, p: seq<nat>, k: nat, write: bool, nb: int)
    requires Reached(s, s1, limbo, ino, p, k, write) && k < |p| && Ensured(s1, s2, ino, p[..k + 1], write, nb) && nb < 0
    ensures Mapped(s, s2, limbo, ino, p, write, nb)
  {
    hide BytesSame, PlacesKept, At, Conserved, OneHolder, Valid;
    if write {
      ExhaustedKeeps(s1, limbo);
      SameFiles(s, s1, s2, ino, p);
    }
    if At(s.addr[ino], s.vol.disk, p) != 0 || !write {
      assert s1 == s;
      AbsentThere(s, ino, p, k);
    }
  }

  lemma {:induction false} ExhaustedKeeps(s: Fs, limbo: set<nat>)
    requires Inv(s, limbo) && Stack(s.vol) == []
    ensures Inv(s.(vol := Exhausted(s.vol)), limbo) && Stack(Exhausted(s.vol)) == []
  {
    hide ListOk, StackOf, At, NoDup;
    ExhaustedOk(s.vol);
    var s' := s.(vol := Exhausted(s.vol));
    assert forall o, b :: Holds(s', limbo, o, b) <==> Holds(s, limbo, o, b);
    HoldersSame(s, s', limbo);
  }

  lemma SameFiles(s: Fs, s1: Fs, s2: Fs, ino: nat, p: seq<nat>)
    requires BytesSame(s, s1) && PlacesKept(s, s1, ino, p) && s2.addr == s1.addr && s2.vol.disk == s1.vol.disk
    ensures BytesSame(s, s2) && PlacesKept(s, s2, ino, p)
  {
    hide At;
    forall i, off | 0 <= i < |s.addr| && 0 <= off ensures FileByte(s2, i, off) == FileByte(s, i, off) {
      assert FileByte(s2, i, off) == FileByte(s1, i, off);
    }
  }

  /** Different logical blocks, of one file or of two, have different blocks. */
  lemma {:induction false} DistinctBlocks(s: Fs, limbo: set<nat>, ino: nat, m: nat, ino': nat, n: nat)
    requires Inv(s, limbo) && ino < |s.addr| && ino' < |s.addr| && (ino != ino' || m != n)
    requires At(s.addr[ino], s.vol.disk, PlaceOf(m)) != 0
    ensures At(s.addr[ino], s.vol.disk, PlaceOf(m)) != At(s.addr[ino'], s.vol.disk, PlaceOf(n))
  {
    hide At, Inv, PlaceOf, IsData;
    NoPlace(s.addr[ino], s.vol.disk);
    NoPlace(s.addr[ino'], s.vol.disk);
    if At(s.addr[ino], s.vol.disk, PlaceOf(m)) == At(s.addr[ino'], s.vol.disk, PlaceOf(n)) {
      DataPlace(PlaceOf(m));
      DataPlace(PlaceOf(n));
      PlaceUnique(s, limbo, ino, PlaceOf(m), ino', PlaceOf(n));
      PlaceOnce(m, n);
    }
  }
}
