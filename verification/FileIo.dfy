/** What readi() and writei() mean: transfers to and from a sparse array of bytes. */
module FileIo {
  import opened Blocks
  import opened FreeList
  import opened FileTree
  import opened FileBytes
  import opened FileMap

  datatype Err = Ok | EInval | EFBig | ENoSpc

  /** The first byte no file can have. */
  const LIMIT: nat := (NDIRECT + NINDIR + NINDIR * NINDIR) * BSIZE

  /** The first n bytes of data have been written at off0 of file ino, and nothing else has changed. */
  ghost predicate Wrote(s: Fs, s': Fs, ino: nat, off0: nat, data: seq<Byte>, n: nat) {
    && |s'.addr| == |s.addr| && n <= |data|
    && forall i, o :: 0 <= i < |s.addr| && 0 <= o ==>
         FileByte(s', i, o) == if i == ino && off0 <= o < off0 + n then data[o - off0] else FileByte(s, i, o)
  }

  lemma WroteNothing(s: Fs, ino: nat, off0: nat, data: seq<Byte>)
    ensures Wrote(s, s, ino, off0, data, 0)
  {
  }

  /** A byte is in the chunk exactly when it is in the block, at the chunk's place. */
  lemma InChunk(off: nat, n: nat, o: nat)
    requires off % BSIZE + n <= BSIZE
    ensures off <= o < off + n <==> o / BSIZE == off / BSIZE && off % BSIZE <= o % BSIZE < off % BSIZE + n
    ensures off <= o < off + n ==> o % BSIZE - off % BSIZE == o - off
  {
    var a, b := off / BSIZE, o / BSIZE;
    assert off == BSIZE * a + off % BSIZE && o == BSIZE * b + o % BSIZE;
    if off <= o < off + n {
      assert BSIZE * a <= o < BSIZE * a + BSIZE;
    }
  }

  /** bmap, then the bytes into the block it gave: n bytes more are written. */
  lemma {:induction false} WroteMore(s: Fs, s1: Fs, s2: Fs, limbo: set<nat>, ino: nat, off0: nat, data: seq<Byte>, m: nat, n: nat, nb: nat)
    requires ino < |s.addr| && Wrote(s, s1, ino, off0, data, m) && m + n <= |data|
    requires var off := off0 + m;
             && PlaceOf(off / BSIZE) != [] && off % BSIZE + n <= BSIZE
             && Mapped(s1, s2, limbo, ino, PlaceOf(off / BSIZE), true, nb)
    ensures 0 < nb < |s2.vol.disk|
    ensures var s3 := Stored(s2, nb, (off0 + m) % BSIZE, data[m..m + n]);
            Inv(s3, limbo) && Wrote(s, s3, ino, off0, data, m + n) && s3.size == s1.size && |s3.addr| == |s.addr|
  {
    hide Conserved, OneHolder, Valid, At, FileByte, PlaceOf, PlacesKept, IsData, IsPlace;
    var off := off0 + m;
    var p, d := PlaceOf(off / BSIZE), data[m..m + n];
    DataPlace(p);
    HeldInRange(s2, limbo, InFile(ino, p), nb);
    var s3 := Stored(s2, nb, off % BSIZE, d);
    StoredKeeps(s2, limbo, ino, p, off % BSIZE, d);
    forall i: nat, o: nat | i < |s.addr|
      ensures FileByte(s3, i, o) == if i == ino && off0 <= o < off0 + m + n then data[o - off0] else FileByte(s, i, o)
    {
      StoredBytes(s2, limbo, ino, off / BSIZE, off % BSIZE, d, i, o);
      InChunk(off, n, o);
      assert FileByte(s2, i, o) == FileByte(s1, i, o);
      assert FileByte(s1, i, o) == if i == ino && off0 <= o < off0 + m then data[o - off0] else FileByte(s, i, o);
    }
  }

  /** A transfer that found no block has written nothing. */
  lemma WroteSame(s: Fs, s1: Fs, s2: Fs, ino: nat, off0: nat, data: seq<Byte>, m: nat)
    requires Wrote(s, s1, ino, off0, data, m) && BytesSame(s1, s2)
    ensures Wrote(s, s2, ino, off0, data, m)
  {
    hide FileByte;
    forall i, o | 0 <= i < |s.addr| && 0 <= o
      ensures FileByte(s2, i, o) == if i == ino && off0 <= o < off0 + m then data[o - off0] else FileByte(s, i, o)
    {
      assert FileByte(s2, i, o) == FileByte(s1, i, o);
    }
  }

  /** The size does not matter to the blocks or the bytes. */
  lemma {:induction false} Resized(s: Fs, limbo: set<nat>, sizes: seq<nat>)
    requires Inv(s, limbo) && |sizes| == |s.size|
    ensures Inv(s.(size := sizes), limbo) && BytesSame(s, s.(size := sizes)) && Stack(s.(size := sizes).vol) == Stack(s.vol)
  {
    hide Valid, At;
    var s' := s.(size := sizes);
    assert forall o, b :: Holds(s', limbo, o, b) <==> Holds(s, limbo, o, b);
    HoldersSame(s, s', limbo);
  }

  /** Offsets below the limit have a place, the others none. */
  lemma InLimit(off: nat)
    ensures PlaceOf(off / BSIZE) != [] <==> off < LIMIT
  {
    assert off == off / BSIZE * BSIZE + off % BSIZE;
  }

  // ----- reading -------------------------------------------------------------------------------

  /** The n bytes of file ino from off on. */
  function Slice(s: Fs, ino: nat, off: nat, n: nat): (d: seq<Byte>)
    requires ino < |s.addr|
    ensures |d| == n && forall k :: 0 <= k < n ==> d[k] == FileByte(s, ino, off + k)
  {
    seq<Byte>(n, k requires 0 <= k => FileByte(s, ino, off + k))
  }

  /** What a read of one block moves. */
  lemma {:induction false} ReadMore(s: Fs, limbo: set<nat>, ino: nat, off0: nat, m: nat, n: nat, nb: int, d: seq<Byte>)
    requires ino < |s.addr| && d == Slice(s, ino, off0, m)
    requires var off := off0 + m;
             && PlaceOf(off / BSIZE) != [] && off % BSIZE + n <= BSIZE
             && Mapped(s, s, limbo, ino, PlaceOf(off / BSIZE), false, nb)
    ensures nb < 0 || 0 < nb < |s.vol.disk|
    ensures var on := (off0 + m) % BSIZE;
            d + (if nb < 0 then Zero()[on..on + n] else s.vol.disk[nb][on..on + n]) == Slice(s, ino, off0, m + n)
  {
    hide Conserved, OneHolder, Valid, At, PlaceOf, PlacesKept, BytesSame, IsData, IsPlace;
    var off := off0 + m;
    var p := PlaceOf(off / BSIZE);
    DataPlace(p);
    if nb >= 0 {
      HeldInRange(s, limbo, InFile(ino, p), nb);
    }
    var x: seq<Byte> := if nb < 0 then Zero()[off % BSIZE..off % BSIZE + n] else s.vol.disk[nb][off % BSIZE..off % BSIZE + n];
    forall k: nat | k < n ensures x[k] == FileByte(s, ino, off + k) {
      InChunk(off, n, off + k);
    }
    assert d + x == Slice(s, ino, off0, m + n);
  }

  /** What has been written reads back. */
  lemma {:induction false} ReadsBack(s: Fs, s': Fs, ino: nat, off0: nat, data: seq<Byte>, n: nat)
    requires ino < |s.addr| && Wrote(s, s', ino, off0, data, n)
    ensures Slice(s', ino, off0, n) == data[..n]
  {
    hide FileByte;
  }

  // ----- beyond the end of a file --------------------------------------------------------------

  /** Nothing but zeros beyond the end of any file. */
  ghost predicate ZeroTail(s: Fs) {
    |s.size| == |s.addr| && forall i: nat, o: nat :: i < |s.addr| && o >= s.size[i] ==> FileByte(s, i, o) == 0
  }

  /** A write that reaches no further than the new size keeps it so. */
  lemma TailKept(s: Fs, s': Fs, ino: nat, off0: nat, data: seq<Byte>, stored: nat)
    requires ZeroTail(s) && ino < |s.addr| && Wrote(s, s', ino, off0, data, stored)
    requires |s'.size| == |s.size| && (forall i :: 0 <= i < |s.size| ==> s.size[i] <= s'.size[i])
    requires stored > 0 ==> off0 + stored <= s'.size[ino]
    ensures ZeroTail(s')
  {
    hide FileByte;
  }

  /** A write that starts beyond the end of the file leaves zeros in between. */
  lemma GapZero(s: Fs, s': Fs, ino: nat, off0: nat, data: seq<Byte>, stored: nat, o: nat)
    requires ZeroTail(s) && ino < |s.addr| && Wrote(s, s', ino, off0, data, stored) && s.size[ino] <= o < off0
    ensures FileByte(s', ino, o) == 0
  {
    hide FileByte;
    assert FileByte(s', ino, o) == FileByte(s, ino, o);
  }

  /** A file without blocks has only zeros. */
  lemma NoBlocks(s: Fs, ino: nat, o: nat)
    requires ino < |s.addr| && |s.addr[ino]| == NADDR && forall k :: 0 <= k < NADDR ==> s.addr[ino][k] == 0
    ensures FileByte(s, ino, o) == 0
  {
    hide IsData;
    var p := PlaceOf(o / BSIZE);
    if p != [] {
      DataPlace(p);
      assert p[..1] == [p[0]];
      AbsentBelow(s.addr[ino], s.vol.disk, p, 1);
    }
  }

  lemma TailCleared(s: Fs, s': Fs, ino: nat)
    requires ZeroTail(s) && ino < |s.addr| == |s'.addr| == |s'.size| && |s'.addr[ino]| == NADDR
    requires forall k :: 0 <= k < NADDR ==> s'.addr[ino][k] == 0
    requires forall j: nat :: j < |s.addr| && j != ino ==> s'.size[j] == s.size[j]
    requires forall j: nat, o: nat :: j < |s.addr| && j != ino ==> FileByte(s', j, o) == FileByte(s, j, o)
    ensures ZeroTail(s')
  {
    hide FileByte;
    forall i: nat, o: nat | i < |s'.addr| && o >= s'.size[i] ensures FileByte(s', i, o) == 0 {
      if i == ino { NoBlocks(s', ino, o); }
    }
  }
}
