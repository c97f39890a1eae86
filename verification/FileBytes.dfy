/** A file as an array of bytes: holes are zero, and writing into one block changes that block. */
module FileBytes {
  import opened Common
  import opened Blocks
  import opened FreeList
  import opened FileTree

  /** Byte o of block b; a hole is zero. */
  function BlockByte(disk: seq<Block>, b: nat, o: nat): Byte
    requires o < BSIZE
  {
    if b == 0 || b >= |disk| then 0 else disk[b][o]
  }

  /** Byte off of the file ino. */
  function FileByte(s: Fs, ino: nat, off: nat): Byte
    requires ino < |s.addr|
  {
    BlockByte(s.vol.disk, At(s.addr[ino], s.vol.disk, PlaceOf(off / BSIZE)), off % BSIZE)
  }

  /** Giving a place a block changes no byte of any file: the new block is clear, and a hole was zero. */
  lemma {:induction false} AttachBytes(s: Fs, limbo: set<nat>, ino: nat, p: seq<nat>, ino': nat, off: nat)
    requires Inv(s, limbo) && HasSpace(s.vol) && Vacant(s, ino, p) && ino' < |s.addr|
    ensures 0 < s.vol.nfree <= |s.vol.free| && Top(s.vol) < |s.vol.disk| && Top(s.vol) < WORDS
    ensures ino' < |Attach(s, ino, p).addr| && FileByte(Attach(s, ino, p), ino', off) == FileByte(s, ino', off)
  {
    hide ListOk, StackOf, At, Valid, OneHolder, Conserved, PlaceOf, IsData;
    TakenOk(s.vol);
    SpaceFacts(s.vol);
    var r, s' := PlaceOf(off / BSIZE), Attach(s, ino, p);
    AttachShape(s, ino, p);
    if r == [] {
      NoPlace(s.addr[ino'], s.vol.disk);
      NoPlace(s'.addr[ino'], s'.vol.disk);
    } else {
      DataPlace(r);
      AttachAt(s, limbo, ino, p, ino', r);
      FreeNowhere(s, limbo, Top(s.vol), ino', r);
      if |p| > 1 {
        PrefixPlace(p, |p| - 1);
        FreeNowhere(s, limbo, Top(s.vol), ino, p[..|p| - 1]);
        NotParent(s, limbo, ino, p, ino', r);
      }
    }
  }

  lemma NoPlace(a: seq<nat>, disk: seq<Block>)
    ensures At(a, disk, []) == 0
  {
  }

  lemma DataPlace(r: seq<nat>)
    requires IsData(r)
    ensures IsPlace(r)
  {
  }

  /** A data block is not an indirect block. */
  lemma {:induction false} NotParent(s: Fs, limbo: set<nat>, ino: nat, p: seq<nat>, ino': nat, r: seq<nat>)
    requires Inv(s, limbo) && ino < |s.addr| && IsPlace(p) && |p| > 1 && ino' < |s.addr| && IsData(r)
    requires At(s.addr[ino], s.vol.disk, p[..|p| - 1]) != 0
    ensures At(s.addr[ino'], s.vol.disk, r) != At(s.addr[ino], s.vol.disk, p[..|p| - 1])
  {
    hide ListOk, StackOf, At, Valid, OneHolder, Conserved;
    PrefixPlace(p, |p| - 1);
    if At(s.addr[ino'], s.vol.disk, r) == At(s.addr[ino], s.vol.disk, p[..|p| - 1]) {
      PlaceUnique(s, limbo, ino', r, ino, p[..|p| - 1]);
    }
  }

  // ----- writing a block -----------------------------------------------------------------------

  /** The data block b with the bytes d from o on. */
  function Stored(s: Fs, b: nat, o: nat, d: seq<Byte>): Fs
    requires b < |s.vol.disk| && o + |d| <= BSIZE
  {
    s.(vol := s.vol.(disk := s.vol.disk[b := PutBytes(s.vol.disk[b], o, d)]))
  }

  /** Writing a data block moves no block. */
  lemma {:induction false} StoredAt(s: Fs, limbo: set<nat>, ino: nat, p: seq<nat>, x: Block, ino': nat, p': seq<nat>)
    requires Inv(s, limbo) && ino < |s.addr| && IsData(p) && ino' < |s.addr| && IsPlace(p')
    requires 0 < At(s.addr[ino], s.vol.disk, p) < |s.vol.disk|
    ensures At(s.addr[ino'], s.vol.disk[At(s.addr[ino], s.vol.disk, p) := x], p') == At(s.addr[ino'], s.vol.disk, p')
  {
    hide ListOk, StackOf, At, Valid, OneHolder, Conserved;
    var b := At(s.addr[ino], s.vol.disk, p);
    forall k | 1 <= k < |p'| ensures At(s.addr[ino'], s.vol.disk, p'[..k]) != b {
      PrefixPlace(p', k);
      if At(s.addr[ino'], s.vol.disk, p'[..k]) == b {
        PlaceUnique(s, limbo, ino', p'[..k], ino, p);
      }
    }
    AtFrame(s.addr[ino'], s.vol.disk, p', b, x);
  }

  lemma {:induction false} StoredKeeps(s: Fs, limbo: set<nat>, ino: nat, p: seq<nat>, o: nat, d: seq<Byte>)
    requires Inv(s, limbo) && ino < |s.addr| && IsData(p) && o + |d| <= BSIZE
    requires 0 < At(s.addr[ino], s.vol.disk, p) < |s.vol.disk|
    ensures Inv(Stored(s, At(s.addr[ino], s.vol.disk, p), o, d), limbo)
    ensures Stack(Stored(s, At(s.addr[ino], s.vol.disk, p), o, d).vol) == Stack(s.vol)
  {
    hide ListOk, StackOf, At, PutBytes, NoDup;
    var b := At(s.addr[ino], s.vol.disk, p);
    var s' := Stored(s, b, o, d);
    var x := PutBytes(s.vol.disk[b], o, d);
    assert b !in Stack(s.vol) by {
      if b in Stack(s.vol) {
        FreeNowhere(s, limbo, b, ino, p);
      }
    }
    StackFrame(s.vol.isize, s.vol.nfree, s.vol.free, s.vol.disk, s.vol.depth, b, x);
    forall ow, c ensures Holds(s', limbo, ow, c) <==> Holds(s, limbo, ow, c) {
      if ow.InFile? && ow.ino < |s.addr| && IsPlace(ow.p) {
        StoredAt(s, limbo, ino, p, x, ow.ino, ow.p);
      }
    }
    HoldersSame(s, s', limbo);
  }

  lemma {:induction false} HoldersSame(s: Fs, s': Fs, limbo: set<nat>)
    requires OneHolder(s, limbo) && Conserved(s, limbo) && s'.vol.isize == s.vol.isize && s'.vol.fsize == s.vol.fsize
    requires forall o, b :: Holds(s', limbo, o, b) <==> Holds(s, limbo, o, b)
    ensures OneHolder(s', limbo) && Conserved(s', limbo)
  {
    hide Holds;
    forall b: nat ensures InRange(s'.vol, b) <==> exists o :: Holds(s', limbo, o, b) {
      assert InRange(s'.vol, b) == InRange(s.vol, b);
      if o :| Holds(s, limbo, o, b) {
        assert Holds(s', limbo, o, b);
      }
    }
  }

  /** Byte off of file ino' lies in the o.. range of logical block bn of file ino. */
  predicate Hit(ino: nat, bn: nat, o: nat, n: nat, ino': nat, off: nat) {
    ino' == ino && off / BSIZE == bn && o <= off % BSIZE < o + n
  }

  /** Writing changes exactly the bytes written, in that file and in no other. */
  lemma {:induction false} StoredBytes(s: Fs, limbo: set<nat>, ino: nat, bn: nat, o: nat, d: seq<Byte>, ino': nat, off: nat)
    requires Inv(s, limbo) && ino < |s.addr| && PlaceOf(bn) != [] && o + |d| <= BSIZE && ino' < |s.addr|
    requires 0 < At(s.addr[ino], s.vol.disk, PlaceOf(bn)) < |s.vol.disk|
    ensures FileByte(Stored(s, At(s.addr[ino], s.vol.disk, PlaceOf(bn)), o, d), ino', off) ==
            if Hit(ino, bn, o, |d|, ino', off) then d[off % BSIZE - o] else FileByte(s, ino', off)
  {
    hide ListOk, StackOf, At, Valid, OneHolder, Conserved, IsData, IsPlace, PlaceOf;
    var p, r := PlaceOf(bn), PlaceOf(off / BSIZE);
    var b := At(s.addr[ino], s.vol.disk, p);
    var x := PutBytes(s.vol.disk[b], o, d);
    if r == [] {
      NoPlace(s.addr[ino'], s.vol.disk);
      NoPlace(s.addr[ino'], s.vol.disk[b := x]);
    } else {
      DataPlace(p);
      DataPlace(r);
      StoredAt(s, limbo, ino, p, x, ino', r);
      if At(s.addr[ino'], s.vol.disk, r) == b {
        PlaceUnique(s, limbo, ino', r, ino, p);
        PlaceOnce(off / BSIZE, bn);
      }
    }
  }
}
