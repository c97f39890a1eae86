/** A mounted file system: alloc() and free() (kernel/alloc.c), bmap() (kernel/subr.c), readi() and
    writei() (kernel/rdwri.c), itrunc() and tloop() (kernel/iget.c).  bread() and bwrite() are reads and
    writes of the array of blocks. */
module Volume {
  import opened Common
  import opened Blocks
  import opened FreeList
  import opened FileTree
  import opened FileBytes
  import opened FileMap
  import opened FileIo
  import opened FileTrunc

  class Device {
    const isize: nat
    const fsize: nat
    var nfree: nat
    var free: seq<nat>
    var tfree: int
    var disk: seq<Block>
    var addr: seq<seq<nat>>
    var size: seq<nat>
    ghost var depth: nat

    ghost function Space(): Vol
      reads this
    {
      Vol(isize, fsize, nfree, free, tfree, disk, depth)
    }

    ghost function State(): Fs
      reads this
    {
      Fs(Space(), addr, size)
    }

    /** A device with n inodes, none of them with blocks, and all blocks behind the inode list in limbo. */
    constructor (isize: nat, fsize: nat, n: nat)
      requires 0 < isize <= fsize < WORDS
      ensures this.isize == isize && this.fsize == fsize && |addr| == n
      ensures Inv(State(), Span(isize, fsize)) && Stack(Space()) == [] && ZeroTail(State())
      ensures forall i :: 0 <= i < n ==> size[i] == 0
    {
      this.isize, this.fsize := isize, fsize;
      nfree, tfree, depth := 0, 0, 0;
      free := seq(NICFREE, _ => 0);
      disk := seq(fsize, _ => Zero());
      addr := seq(n, _ => seq(NADDR, _ => 0));
      size := seq(n, _ => 0);
      new;
      BlankInv(State());
    }

    /** Puts every block on the free list. */
    method Format()
      requires Inv(State(), Span(isize, fsize)) && Stack(Space()) == [] && ZeroTail(State())
      modifies this`nfree, this`free, this`tfree, this`disk, this`depth
      ensures Inv(State(), {}) && ZeroTail(State())
      ensures (forall b: nat :: b in Stack(Space()) <==> isize <= b < fsize) && tfree == |Stack(Space())| == fsize - isize
    {
      hide Inv, Freed, ZeroTail, FreeTo;
      ghost var s0, limbo := State(), Span(isize, fsize);
      ghost var done: seq<nat> := [];
      FreedNone(s0, limbo);
      BlankSizes(s0, limbo);
      var b := isize;
      while b < fsize
        invariant isize <= b <= fsize && done == Upto(isize, b) && Freed(s0, limbo, done, State())
      {
        ghost var s := State();
        FreedShape(s0, limbo, done, s);
        assert b in limbo - SetOf(done);
        FreedOne(s, limbo - SetOf(done), b);
        Free(b);
        FreedMore(s0, limbo, done, s, [b], State());
        done := done + [b];
        b := b + 1;
      }
      FormatDone(s0, limbo, done, State());
    }

    /** badblock. */
    method BadBlock(b: nat) returns (bad: bool)
      ensures bad <==> !InRange(Space(), b)
    {
      bad := b < isize || b >= fsize;
    }

    /** alloc: the block, cleared; 0 when there is no space. */
    method Alloc() returns (b: nat)
      requires Valid(Space())
      modifies this`nfree, this`free, this`tfree, this`disk, this`depth
      ensures Stack(old(Space())) == [] ==> b == 0 && Space() == Exhausted(old(Space()))
      ensures Stack(old(Space())) != [] ==>
        HasSpace(old(Space())) && 0 < old(nfree) <= |old(free)| && Top(old(Space())) < |old(disk)| &&
        b == Top(old(Space())) == Stack(old(Space()))[0] && Space() == Taken(old(Space()))
    {
      ghost var v := Space();
      hide Valid, Stack, ChainCount, ChainFree, Zero;
      b := PopCache();
      if b == 0 {
        return;
      }
      TakenOk(v);
      Refills(v);
      b := Refill(b);
      if b != 0 {
        disk := disk[b := Zero()];
        tfree := tfree - 1;
      }
    }

    /** An empty cache is filled from the block b just taken, which was the head of the chain.  0: the
        chain ends there, and there is no space after all. */
    method Refill(b: nat) returns (r: nat)
      requires 0 < b < |disk|
      modifies this`nfree, this`free, this`tfree, this`depth
      ensures old(nfree) > 0 ==> r == b && Space() == old(Space())
      ensures old(nfree) == 0 ==>
        && r == (if ChainCount(disk[b]) > 0 then b else 0) && free == ChainFree(disk[b])
        && (r != 0 ==> nfree == ChainCount(disk[b]) && tfree == old(tfree) && depth == if old(depth) == 0 then 0 else old(depth) - 1)
        && (r == 0 ==> nfree == 0 && tfree == 0 && depth == 0)
    {
      hide ChainCount, ChainFree;
      r := b;
      if nfree == 0 {
        nfree := ChainCount(disk[b]);
        free := ChainFree(disk[b]);
        depth := if depth == 0 then 0 else depth - 1;
        if nfree == 0 {
          NoSpace();
          r := 0;
        }
      }
    }

    /** The top of the cache that is a good block; 0 when there is none. */
    method PopCache() returns (b: nat)
      requires Valid(Space())
      modifies this`nfree, this`tfree, this`depth
      ensures Stack(old(Space())) == [] ==> b == 0 && Space() == Exhausted(old(Space()))
      ensures Stack(old(Space())) != [] ==>
        && HasSpace(old(Space())) && 0 < old(nfree) <= |free| && b == Top(old(Space())) == Stack(old(Space()))[0] && b != 0
        && Space() == old(Space()).(nfree := old(nfree) - 1)
    {
      ghost var v := Space();
      CacheBound(v);
      NoneFree(v);
      hide ListOk, StackOf, NoDup;
      b := 0;
      var bad := true;
      while bad
        invariant bad ==> Space() == v
        invariant !bad ==> v.nfree > 0 && Space() == v.(nfree := v.nfree - 1) && b == v.free[nfree] && b != 0 && Stack(v) != []
        decreases bad
      {
        if nfree == 0 || nfree > NICFREE {
          NoSpace();
          return 0;
        }
        PopStack(v);
        nfree := nfree - 1;
        b := free[nfree];
        if b == 0 {
          NoSpace();
          return 0;
        }
        bad := BadBlock(b);
      }
      PopStack(v);
    }

    /** What alloc does when the list has run out. */
    method NoSpace()
      modifies this`nfree, this`tfree, this`depth
      ensures nfree == 0 && tfree == 0 && depth == 0
    {
      nfree, tfree := 0, 0;
      depth := 0;
    }

    /** free(b). */
    method Free(b: nat)
      requires Valid(Space())
      modifies this`nfree, this`free, this`tfree, this`disk, this`depth
      ensures Storable(old(Space())) && fsize == |old(disk)|
      ensures !InRange(old(Space()), b) ==> Space() == old(Space())
      ensures InRange(old(Space()), b) ==> Space() == FreeTo(old(Space()), b)
    {
      CacheBound(Space());
      hide ListOk, StackOf, MakeChain;
      var bad := BadBlock(b);
      if bad {
        return;
      }
      if nfree == 0 {
        nfree := 1;
        free := free[0 := 0];
      }
      if nfree >= NICFREE {
        disk := disk[b := MakeChain(nfree, free)];
        nfree := 0;
        depth := depth + 1;
      }
      free := free[nfree := b];
      nfree := nfree + 1;
      tfree := tfree + 1;
    }

    /** Address k of inode ino: the block there, or a new one if it may be allocated; -1 for none. */
    method FetchRoot(ino: nat, k: nat, write: bool, ghost limbo: set<nat>) returns (nb: int)
      requires Inv(State(), limbo) && ino < |addr| && k < NADDR
      modifies this`nfree, this`free, this`tfree, this`disk, this`depth, this`addr
      ensures Ensured(old(State()), State(), ino, [k], write, nb)
    {
      hide Valid, Conserved, OneHolder, Zero;
      ghost var s := State();
      nb := addr[ino][k];
      if nb == 0 {
        if !write {
          return -1;
        }
        SpaceIf(s.vol);
        var b := Alloc();
        if b == 0 {
          return -1;
        }
        nb := b;
        addr := addr[ino := SetAddr(addr[ino], k, b)];
      }
    }

    /** Entry i of the indirect block q, which is place p; the same. */
    method FetchEntry(ino: nat, q: int, ghost p: seq<nat>, i: nat, write: bool, ghost limbo: set<nat>) returns (nb: int)
      requires Inv(State(), limbo) && ino < |addr| && IsPlace(p) && |p| > 1 && i == p[|p| - 1]
      requires At(addr[ino], disk, p[..|p| - 1]) == q && 0 < q < |disk|
      requires At(addr[ino], disk, p) == 0 ==> Vacant(State(), ino, p)
      modifies this`nfree, this`free, this`tfree, this`disk, this`depth
      ensures Ensured(old(State()), State(), ino, p, write, nb)
    {
      hide Valid, Conserved, OneHolder, Zero, PutWord, WordAt;
      ghost var s := State();
      nb := WordAt(disk[q], i);
      if nb == 0 {
        if !write {
          return -1;
        }
        SpaceIf(s.vol);
        var b := Alloc();
        if b == 0 {
          return -1;
        }
        nb := b;
        disk := disk[q := PutWord(disk[q], i, b)];
      }
    }

    /** bmap: the block behind logical block bn; -1 when there is none and none may be, or can be,
        allocated.  efbig: bn is negative or beyond the double indirect block, and the answer is 0. */
    method BMap(ino: nat, bn: int, write: bool, ghost limbo: set<nat>) returns (nb: int, efbig: bool)
      requires Inv(State(), limbo) && ino < |addr|
      modifies this`nfree, this`free, this`tfree, this`disk, this`depth, this`addr
      ensures efbig <==> bn < 0 || PlaceOf(bn) == []
      ensures efbig ==> nb == 0 && State() == old(State())
      ensures !efbig ==> Mapped(old(State()), State(), limbo, ino, PlaceOf(bn), write, nb)
    {
      hide Inv, Ensured, Reached, Mapped, At;
      ghost var s := State();
      efbig := false;
      if bn < 0 {
        return 0, true;
      }
      if bn < NDIRECT {
        nb := FetchFirst(ino, bn, PlaceOf(bn), write, limbo);
        return;
      }
      var n := bn - NDIRECT;
      var span, j := 1, NLEVEL;
      while j > 0
        invariant 0 <= j <= NLEVEL
        invariant j == 2 ==> n == bn - NDIRECT && span == 1
        invariant j == 1 ==> n == bn - NDIRECT - NINDIR >= 0 && span == NINDIR
        invariant j == 0 ==> bn >= NDIRECT + NINDIR + NINDIR * NINDIR
      {
        span := span * NINDIR;
        if n < span {
          break;
        }
        n := n - span;
        j := j - 1;
      }
      if j == 0 {
        return 0, true;
      }
      ghost var p := PlaceOf(bn);
      nb := FetchFirst(ino, NADDR - j, p, write, limbo);
      if nb < 0 {
        return;
      }
      nb := Descend(ino, nb, n, span, j, p, s, write, limbo);
    }

    /** The first step of place p. */
    method FetchFirst(ino: nat, k: nat, ghost p: seq<nat>, write: bool, ghost limbo: set<nat>) returns (nb: int)
      requires Inv(State(), limbo) && ino < |addr| && IsPlace(p) && k == p[0]
      modifies this`nfree, this`free, this`tfree, this`disk, this`depth, this`addr
      ensures nb >= 0 && |p| > 1 ==>
        Reached(old(State()), State(), limbo, ino, p, 1, write) && ino < |addr| && nb == At(addr[ino], disk, p[..1]) > 0
      ensures nb < 0 || |p| == 1 ==> Mapped(old(State()), State(), limbo, ino, p, write, nb)
    {
      hide Inv, Ensured, Reached, Mapped, At;
      ghost var s := State();
      ReachedStart(s, limbo, ino, p, write);
      assert p[..1] == [p[0]];
      nb := FetchRoot(ino, k, write, limbo);
      if nb >= 0 {
        ReachedStep(s, s, State(), limbo, ino, p, 0, write, nb);
        if |p| == 1 {
          assert p[..1] == p;
          MappedDone(s, State(), limbo, ino, p, write);
        }
      } else {
        MappedStop(s, s, State(), limbo, ino, p, 0, write, nb);
      }
    }

    /** The way through the indirect blocks: level j and up, index n within span. */
    method Descend(ino: nat, q: int, n: nat, span0: nat, j0: nat, ghost p: seq<nat>, ghost s: Fs, write: bool, ghost limbo: set<nat>)
      returns (nb: int)
      requires Reached(s, State(), limbo, ino, p, 1, write) && IsPlace(p) && |p| > 1 && ino < |addr|
      requires q == At(addr[ino], disk, p[..1]) > 0 && (j0 == 1 || j0 == 2) && |p| == 4 - j0
      requires n < span0 == if j0 == 1 then NINDIR * NINDIR else NINDIR
      requires if j0 == 2 then p[1] == n else p[1] == n / NINDIR && p[2] == n % NINDIR
      modifies this`nfree, this`free, this`tfree, this`disk, this`depth
      ensures Mapped(s, State(), limbo, ino, p, write, nb)
    {
      hide Inv, Ensured, Reached, Mapped, At;
      var span, j := span0, j0;
      nb := q;
      while j <= NLEVEL
        invariant j0 <= j <= NLEVEL + 1 && nb > 0 && ino < |addr|
        invariant span == if j == 1 then NINDIR * NINDIR else if j == 2 then NINDIR else 1
        invariant Reached(s, State(), limbo, ino, p, 1 + j - j0, write) && nb == At(addr[ino], disk, p[..1 + j - j0])
      {
        span := span / NINDIR;
        var i := n / span % NINDIR;
        ghost var k, s1 := 1 + j - j0, State();
        assert i == p[k];
        NextVacant(s, s1, limbo, ino, p, k, write);
        assert p[..k + 1][|p[..k + 1]| - 1] == i;
        StillInv(s, s1, limbo, ino, p, k, write);
        nb := FetchEntry(ino, nb, p[..k + 1], i, write, limbo);
        if nb < 0 {
          MappedStop(s, s1, State(), limbo, ino, p, k, write, nb);
          return;
        }
        ReachedStep(s, s1, State(), limbo, ino, p, k, write, nb);
        j := j + 1;
      }
      assert p[..|p|] == p;
      MappedDone(s, State(), limbo, ino, p, write);
    }

    /** writei of data at off0: how far u_offset has moved, and u_error. What lies beyond the end of a file
        stays zero, and so a gap the write leaves behind the old end reads as zeros. */
    method WriteI(ino: nat, off0: int, data: seq<Byte>, ghost limbo: set<nat>) returns (moved: nat, err: Err)
      requires Inv(State(), limbo) && ino < |addr|
      modifies this`nfree, this`free, this`tfree, this`disk, this`depth, this`addr, this`size
      ensures err == EInval <==> off0 < 0
      ensures err == EInval || data == [] ==> State() == old(State()) && moved == 0
      ensures off0 >= 0 ==> Inv(State(), limbo) && Written(old(State()), State(), ino, off0, data, moved, err)
      ensures old(ZeroTail(State())) ==> ZeroTail(State())
      ensures old(ZeroTail(State())) ==>
        |addr| == |old(addr)| == |old(size)| && forall o: nat :: old(size)[ino] <= o < off0 ==> FileByte(State(), ino, o) == 0
    {
      hide Inv, Written, ZeroTail, FileByte;
      ghost var s := State();
      moved, err := Write(ino, off0, data, limbo);
      InvShape(s, limbo);
      if off0 >= 0 && ZeroTail(s) {
        TailWritten(s, State(), ino, off0, data, moved, err);
      } else if ZeroTail(s) {
        NothingBehind(s, ino, off0);
      }
    }

    /** The loop of writei. */
    method Write(ino: nat, off0: int, data: seq<Byte>, ghost limbo: set<nat>) returns (moved: nat, err: Err)
      requires Inv(State(), limbo) && ino < |addr|
      modifies this`nfree, this`free, this`tfree, this`disk, this`depth, this`addr, this`size
      ensures err == EInval <==> off0 < 0
      ensures err == EInval || data == [] ==> State() == old(State()) && moved == 0
      ensures off0 >= 0 ==> Inv(State(), limbo) && Written(old(State()), State(), ino, off0, data, moved, err)
    {
      hide Inv, Wrote, PlaceOf;
      moved := 0;
      if off0 < 0 {
        return 0, EInval;
      }
      ghost var s := State();
      WroteNothing(s, ino, off0, data);
      SizedNone(s.size, ino);
      err := Ok;
      while moved < |data|
        invariant 0 <= moved <= |data| && err == Ok && Inv(State(), limbo) && ino < |addr|
        invariant moved == 0 ==> State() == s
        invariant moved > 0 ==> off0 + moved <= LIMIT
        invariant Wrote(s, State(), ino, off0, data, moved)
        invariant size == Sized(s.size, ino, if moved == 0 then 0 else off0 + moved)
      {
        ghost var m := moved;
        var n;
        n, err := WriteBlock(ino, off0, data, moved, s, limbo);
        SizedTwice(s.size, ino, if m == 0 then 0 else off0 + m, off0 + m + n);
        moved := moved + n;
        if err != Ok {
          return;
        }
      }
    }

    /** One pass of writei's loop, moved bytes into the transfer. */
    method WriteBlock(ino: nat, off0: nat, data: seq<Byte>, moved: nat, ghost s: Fs, ghost limbo: set<nat>) returns (n: nat, err: Err)
      requires Inv(State(), limbo) && ino < |addr| && moved < |data| && Wrote(s, State(), ino, off0, data, moved) && ino < |s.addr|
      modifies this`nfree, this`free, this`tfree, this`disk, this`depth, this`addr, this`size
      ensures Inv(State(), limbo) && ino < |addr| && moved + n <= |data|
      ensures err == Ok || err == EFBig || err == ENoSpc
      ensures err == Ok ==> n > 0 && off0 + moved + n <= LIMIT && Wrote(s, State(), ino, off0, data, moved + n)
      ensures err == EFBig ==> 0 < n <= BSIZE && off0 + moved >= LIMIT && Wrote(s, State(), ino, off0, data, moved)
      ensures err == ENoSpc ==> n == 0 && off0 + moved < LIMIT && Wrote(s, State(), ino, off0, data, moved) && Stack(Space()) == []
      ensures size == if err == ENoSpc then old(size) else Sized(old(size), ino, off0 + moved + n)
    {
      hide Inv, Mapped, Wrote, PlaceOf, Sized, PutBytes, Stack;
      ghost var s1 := State();
      InvShape(s1, limbo);
      var bn, on := (off0 + moved) / BSIZE, (off0 + moved) % BSIZE;
      n := if BSIZE - on < |data| - moved then BSIZE - on else |data| - moved;
      InLimit(off0 + moved);
      var nb, efbig := BMap(ino, bn, true, limbo);
      if nb < 0 {
        Unwritten(s, s1, State(), limbo, ino, off0, data, moved, nb);
        return 0, ENoSpc;
      }
      if efbig {
        GrowFile(ino, off0 + moved + n, s, off0, data, moved, limbo);
        return n, EFBig;
      }
      WroteMore(s, s1, State(), limbo, ino, off0, data, moved, n, nb);
      disk := disk[nb := PutBytes(disk[nb], on, data[moved..moved + n])];
      GrowFile(ino, off0 + moved + n, s, off0, data, moved + n, limbo);
      ChunkInLimit(off0 + moved, n);
      err := Ok;
    }

    /** i_size is raised to u_offset. */
    method GrowFile(ino: nat, off: nat, ghost s: Fs, ghost off0: nat, ghost data: seq<Byte>, ghost m: nat, ghost limbo: set<nat>)
      requires Inv(State(), limbo) && ino < |size| && Wrote(s, State(), ino, off0, data, m)
      modifies this`size
      ensures Inv(State(), limbo) && Wrote(s, State(), ino, off0, data, m)
      ensures size == Sized(old(size), ino, off) && |addr| == |s.addr|
    {
      WroteShape(s, State(), ino, off0, data, m);
      hide Inv, Wrote, BytesSame;
      if off > size[ino] {
        ghost var s1 := State();
        InvShape(s1, limbo);
        size := Sized(size, ino, off);
        Resized(s1, limbo, size);
        WroteSame(s, s1, State(), ino, off0, data, m);
      }
    }

    /** readi of count bytes at off0: the bytes moved, and u_error. */
    method ReadI(ino: nat, off0: int, count: nat, ghost limbo: set<nat>) returns (data: seq<Byte>, err: Err)
      requires Inv(State(), limbo) && ino < |addr| == |size|
      modifies this`nfree, this`free, this`tfree, this`disk, this`depth, this`addr
      ensures State() == old(State())
      ensures err == EInval <==> off0 < 0 && count > 0
      ensures off0 < 0 || count == 0 ==> data == []
      ensures off0 >= 0 ==> data == Slice(State(), ino, off0, |data|) && err != ENoSpc
      ensures off0 >= 0 && err == Ok ==> |data| == if size[ino] <= off0 then 0 else if size[ino] - off0 < count then size[ino] - off0 else count
      ensures err == EFBig ==> off0 + |data| >= LIMIT && size[ino] > off0 + |data|
    {
      data := [];
      if count == 0 {
        return [], Ok;
      }
      if off0 < 0 {
        return [], EInval;
      }
      hide Inv, Slice;
      ghost var s := State();
      SliceNone(s, ino, off0);
      var left := count;
      err := Ok;
      while left != 0
        invariant State() == s && 0 <= left <= count && |data| == count - left && err == Ok
        invariant data == Slice(s, ino, off0, |data|) && (|data| > 0 ==> off0 + |data| <= size[ino])
      {
        var diff := size[ino] - (off0 + |data|);
        if diff <= 0 {
          return;
        }
        var d;
        d, err := ReadBlock(ino, off0, data, if diff < left then diff else left, limbo);
        if err != Ok {
          return;
        }
        left := left - |d|;
        data := data + d;
      }
    }

    /** One pass of readi's loop, after the bytes done: at most want bytes, from one block. */
    method ReadBlock(ino: nat, off0: nat, done: seq<Byte>, want: nat, ghost limbo: set<nat>) returns (d: seq<Byte>, err: Err)
      requires Inv(State(), limbo) && ino < |addr| && want > 0 && done == Slice(State(), ino, off0, |done|)
      modifies this`nfree, this`free, this`tfree, this`disk, this`depth, this`addr
      ensures State() == old(State()) && (err == Ok || err == EFBig)
      ensures err == Ok ==> 0 < |d| <= want && done + d == Slice(State(), ino, off0, |done| + |d|)
      ensures err == EFBig ==> off0 + |done| >= LIMIT
    {
      hide Inv, Mapped, PlaceOf, Slice;
      ghost var s := State();
      var off := off0 + |done|;
      var bn, on := off / BSIZE, off % BSIZE;
      var n := if BSIZE - on < want then BSIZE - on else want;
      InLimit(off);
      var nb, efbig := BMap(ino, bn, false, limbo);
      if efbig {
        return [], EFBig;
      }
      ReadKeeps(s, State(), limbo, ino, PlaceOf(bn), nb);
      ReadMore(s, limbo, ino, off0, |done|, n, nb, done);
      var b := if nb < 0 then Zero() else disk[nb];
      d, err := b[on..on + n], Ok;
    }

    /** tloop: everything behind bn, then bn, goes to the free list. */
    method TLoop(bn: nat, level: nat, ghost limbo: set<nat>)
      requires Inv(State(), limbo) && bn < |disk| && bn != 0
      requires NoDup(Whole(disk, bn, level)) && forall b :: b in Whole(disk, bn, level) ==> b in limbo
      modifies this`nfree, this`free, this`tfree, this`disk, this`depth
      ensures Freed(old(State()), limbo, Whole(old(disk), bn, level), State())
      decreases level
    {
      hide Inv, Freed, Scan, NoDup, WordAt;
      ghost var s0 := State();
      ghost var done: seq<nat> := [];
      var i := NINDIR;
      FreedNone(s0, limbo);
      while i > 0
        invariant 0 <= i <= NINDIR && Freed(s0, limbo, done, State()) && bn < |disk|
        invariant done + Scan(s0.vol.disk, bn, level, i) == Scan(s0.vol.disk, bn, level, NINDIR)
      {
        i := i - 1;
        ghost var s1 := State();
        Ahead(s0, limbo, done, s1, bn, level, i);
        var nb := WordAt(disk[bn], i);
        if nb != 0 {
          if level > 0 {
            TLoop(nb, level - 1, limbo - SetOf(done));
          } else {
            FreedOne(s1, limbo - SetOf(done), nb);
            Free(nb);
          }
          ghost var part := Part(s0.vol.disk, nb, level);
          FreedMore(s0, limbo, done, s1, part, State());
          done := done + part;
        }
        FreedShape(s0, limbo, done, State());
      }
      Last(s0, limbo, done, State(), bn, level);
      InvValid(State(), limbo - SetOf(done));
      FreedOne(State(), limbo - SetOf(done), bn);
      ghost var s1 := State();
      Free(bn);
      FreedMore(s0, limbo, done, s1, [bn], State());
    }

    /** itrunc of a regular file or directory: exactly its blocks are freed, each once. */
    method ITrunc(ino: nat) returns (ghost freed: seq<nat>)
      requires Inv(State(), {}) && ino < |addr|
      modifies this`nfree, this`free, this`tfree, this`disk, this`depth, this`addr, this`size
      ensures Inv(State(), {}) && |addr| == |old(addr)| == |size| == |old(size)|
      ensures Stack(Space()) == Rev(freed) + Stack(old(Space())) && NoDup(freed)
      ensures forall b :: b in freed <==> b != 0 && exists p :: IsPlace(p) && At(old(addr)[ino], old(disk), p) == b
      ensures addr[ino] == seq(NADDR, _ => 0) && size == old(size)[ino := 0]
      ensures forall j: nat :: j < |addr| && j != ino ==> addr[j] == old(addr)[j]
      ensures forall j: nat, o: nat :: j < |addr| && j != ino ==> FileByte(State(), j, o) == FileByte(old(State()), j, o)
      ensures old(ZeroTail(State())) ==> ZeroTail(State())
    {
      hide Inv, Cut, Freed, Doomed, NoDup, Whole, ZeroTail;
      ghost var s0 := State();
      freed := [];
      CutStart(s0, ino);
      var i := NADDR;
      while i > 0
        invariant 0 <= i <= NADDR && Cut(s0, State(), ino, i, freed)
      {
        i := i - 1;
        ghost var s := State();
        CutShape(s0, s, ino, i + 1, freed);
        var bn := addr[ino][i];
        if bn == 0 {
          CutSkip(s0, s, ino, i, freed);
        } else {
          ghost var dead := Doomed(addr[ino], disk, i);
          DropAddress(ino, i);
          CutStep(s0, s, ino, i, freed, State());
          freed := freed + dead;
        }
      }
      CutShape(s0, State(), ino, 0, freed);
      CutEnd(s0, State(), ino, freed);
      CutFacts(s0, State(), ino, freed);
      ghost var s := State();
      size := size[ino := 0];
      Resized(s, {}, size);
      if ZeroTail(s0) {
        ZeroSizes(s0);
        TailCleared(s0, State(), ino);
      }
    }

    /** One address of itrunc: cleared, and what was behind it freed. */
    method DropAddress(ino: nat, i: nat)
      requires Inv(State(), {}) && ino < |addr| && i < |addr[ino]| == NADDR && addr[ino][i] != 0
      modifies this`nfree, this`free, this`tfree, this`disk, this`depth, this`addr
      ensures var dead := Doomed(old(addr)[ino], old(disk), i);
              Freed(CutOff(old(State()), ino, i), {} + SetOf(dead), dead, State())
    {
      hide Inv, Freed, Scan, NoDup;
      ghost var s := State();
      var bn := addr[ino][i];
      ghost var dead := Doomed(addr[ino], disk, i);
      ghost var limbo := {} + SetOf(dead);
      CutKeeps(s, {}, ino, i);
      DoomedOnce(s, {}, ino, i);
      addr := addr[ino := SetAddr(addr[ino], i, 0)];
      assert bn in dead;
      LimboFacts(State(), limbo, bn);
      if i < NDIRECT {
        FreedOne(State(), limbo, bn);
        InvValid(State(), limbo);
        Free(bn);
      } else {
        TLoop(bn, i - NDIRECT, limbo);
      }
    }
  }

  lemma {:induction false} CutFacts(s0: Fs, s: Fs, ino: nat, freed: seq<nat>)
    requires Cut(s0, s, ino, 0, freed)
    ensures Stack(s.vol) == Rev(freed) + Stack(s0.vol) && |s.addr| == |s0.addr| && s.size == s0.size
    ensures forall b :: b in freed <==> b != 0 && exists p :: IsPlace(p) && At(s0.addr[ino], s0.vol.disk, p) == b
    ensures forall j: nat :: j < |s.addr| && j != ino ==> s.addr[j] == s0.addr[j]
    ensures forall j: nat, o: nat :: j < |s.addr| && j != ino ==> FileByte(s, j, o) == FileByte(s0, j, o)
  {
    hide Inv, At, FileByte;
  }

  lemma FreedShape(s0: Fs, limbo: set<nat>, done: seq<nat>, s: Fs)
    requires Freed(s0, limbo, done, s)
    ensures |s.vol.disk| == |s0.vol.disk| && Inv(s, limbo - SetOf(done)) && Valid(s.vol)
  {
  }

  /** The entry tloop comes to, and that what it frees for it is still there to be freed. */
  lemma {:induction false} Ahead(s0: Fs, limbo: set<nat>, done: seq<nat>, s: Fs, bn: nat, level: nat, i: nat)
    requires Freed(s0, limbo, done, s) && i < NINDIR && bn < |s0.vol.disk| && bn != 0
    requires done + Scan(s0.vol.disk, bn, level, i + 1) == Scan(s0.vol.disk, bn, level, NINDIR)
    requires NoDup(Whole(s0.vol.disk, bn, level)) && forall b :: b in Whole(s0.vol.disk, bn, level) ==> b in limbo
    ensures |s.vol.disk| == |s0.vol.disk|
    ensures var e := WordAt(s.vol.disk[bn], i);
            var part := Part(s0.vol.disk, e, level);
            && done + part + Scan(s0.vol.disk, bn, level, i) == Scan(s0.vol.disk, bn, level, NINDIR)
            && Inv(s, limbo - SetOf(done)) && Valid(s.vol)
            && (e == 0 ==> done + Scan(s0.vol.disk, bn, level, i) == Scan(s0.vol.disk, bn, level, NINDIR))
            && (e != 0 ==> e in limbo - SetOf(done))
            && (e != 0 && level == 0 ==> part == [e])
            && (e != 0 && level > 0 ==>
                  && e < |s.vol.disk| && part == Whole(s.vol.disk, e, level - 1) && NoDup(part)
                  && forall b :: b in part ==> b in limbo - SetOf(done))
  {
    hide Inv, FilesKept, WordAt;
    var d := s0.vol.disk;
    var e := Entry(d, bn, i);
    var part, rest := Part(d, e, level), Scan(d, bn, level, i);
    assert bn !in done by {
      Unvisited(done, Scan(d, bn, level, i + 1), bn);
    }
    assert done + (part + rest) == done + part + rest;
    assert Whole(d, bn, level) == done + part + (rest + [bn]);
    Middle(done, part, rest + [bn]);
    assert forall b :: b in part ==> b in limbo - SetOf(done);
    if e != 0 {
      assert e in part;
      LimboFacts(s, limbo - SetOf(done), e);
      PartFrame(d, s.vol.disk, e, level);
    }
    assert part == [] ==> done + part == done;
    InvValid(s, limbo - SetOf(done));
  }

  lemma InvValid(s: Fs, limbo: set<nat>)
    requires Inv(s, limbo)
    ensures Valid(s.vol)
  {
  }

  lemma Unvisited(done: seq<nat>, rest: seq<nat>, bn: nat)
    requires NoDup(done + rest + [bn])
    ensures bn !in done
  {
    var l := done + rest + [bn];
    forall i | 0 <= i < |done| ensures done[i] != bn {
      assert l[i] == done[i] && l[|l| - 1] == bn;
    }
  }

  lemma Middle(x: seq<nat>, y: seq<nat>, z: seq<nat>)
    requires NoDup(x + y + z)
    ensures NoDup(y) && forall b :: b in y ==> b !in x
  {
    var l := x + y + z;
    assert forall i :: 0 <= i < |y| ==> l[|x| + i] == y[i];
    assert forall i :: 0 <= i < |x| ==> l[i] == x[i];
  }

  lemma {:induction false} Last(s0: Fs, limbo: set<nat>, done: seq<nat>, s: Fs, bn: nat, level: nat)
    requires Freed(s0, limbo, done, s) && done + Scan(s0.vol.disk, bn, level, 0) == Scan(s0.vol.disk, bn, level, NINDIR)
    requires NoDup(Whole(s0.vol.disk, bn, level)) && bn in limbo
    ensures done == Scan(s0.vol.disk, bn, level, NINDIR) && Inv(s, limbo - SetOf(done)) && bn in limbo - SetOf(done)
  {
    hide Inv;
    var d := s0.vol.disk;
    assert Scan(d, bn, level, 0) == [] && done + [] == done;
    hide Scan;
    assert done + [] + [bn] == Whole(d, bn, level);
    Unvisited(done, [], bn);
  }

  /** The sizes with that of ino raised to off. */
  function Sized(sizes: seq<nat>, ino: nat, off: nat): (r: seq<nat>)
    ensures |r| == |sizes|
  {
    if ino < |sizes| && off > sizes[ino] then sizes[..ino] + [off] + sizes[ino + 1..] else sizes
  }

  lemma SizedNone(sizes: seq<nat>, ino: nat)
    ensures Sized(sizes, ino, 0) == sizes
  {
  }

  lemma SizedTwice(sizes: seq<nat>, ino: nat, a: nat, b: nat)
    requires a <= b
    ensures Sized(Sized(sizes, ino, a), ino, b) == Sized(sizes, ino, b)
  {
  }

  lemma WroteShape(s: Fs, s': Fs, ino: nat, off0: nat, data: seq<Byte>, m: nat)
    requires Wrote(s, s', ino, off0, data, m)
    ensures |s'.addr| == |s.addr|
  {
  }

  lemma SliceNone(s: Fs, ino: nat, off: nat)
    requires ino < |s.addr|
    ensures Slice(s, ino, off, 0) == []
  {
  }

  /** What a write has done when it ends.  Within the limit all bytes are in the file, or as many as
      there was space for; beyond it the bytes of one more block are dropped but counted. */
  ghost predicate Written(s: Fs, s': Fs, ino: nat, off0: nat, data: seq<Byte>, moved: nat, err: Err) {
    && moved <= |data| && s'.size == Sized(s.size, ino, if moved == 0 then 0 else off0 + moved)
    && match err
       case Ok => moved == |data| && Wrote(s, s', ino, off0, data, moved) && (data != [] ==> off0 + |data| <= LIMIT)
       case ENoSpc => moved < |data| && off0 + moved < LIMIT && Wrote(s, s', ino, off0, data, moved) && Stack(s'.vol) == []
       case EFBig =>
         && off0 + |data| > LIMIT
         && var stored := if off0 < LIMIT then LIMIT - off0 else 0;
            stored < moved <= stored + BSIZE && Wrote(s, s', ino, off0, data, stored)
       case EInval => false
  }

  lemma NothingBehind(s: Fs, ino: nat, off0: int)
    requires ZeroTail(s) && ino < |s.addr| && off0 < 0
    ensures |s.addr| == |s.size| && forall o: nat :: s.size[ino] <= o < off0 ==> FileByte(s, ino, o) == 0
  {
  }

  lemma ZeroSizes(s: Fs)
    requires ZeroTail(s)
    ensures |s.size| == |s.addr|
  {
  }

  /** However a write ends, what is beyond the ends of the files is zero, and so is the gap behind the old end. */
  lemma TailWritten(s: Fs, s': Fs, ino: nat, off0: nat, data: seq<Byte>, moved: nat, err: Err)
    requires ZeroTail(s) && ino < |s.addr| && Written(s, s', ino, off0, data, moved, err)
    ensures ZeroTail(s') && |s'.addr| == |s.addr| == |s.size|
    ensures forall o: nat :: s.size[ino] <= o < off0 ==> FileByte(s', ino, o) == 0
  {
    hide FileByte, ZeroTail, Wrote;
    ZeroSizes(s);
    var stored := if err != EFBig then moved else if off0 < LIMIT then LIMIT - off0 else 0;
    assert Wrote(s, s', ino, off0, data, stored) && stored <= moved;
    WroteShape(s, s', ino, off0, data, stored);
    TailKept(s, s', ino, off0, data, stored);
    forall o: nat | s.size[ino] <= o < off0 ensures FileByte(s', ino, o) == 0 {
      GapZero(s, s', ino, off0, data, stored, o);
    }
  }

  /** A write takes the size of a file past the last byte a file can have exactly when it fails for being
      too big; and a write that starts there always does, without storing a byte. */
  lemma SizePastLimit(s: Fs, s': Fs, ino: nat, off0: nat, data: seq<Byte>, moved: nat, err: Err)
    requires ino < |s.size| && Written(s, s', ino, off0, data, moved, err)
    ensures s'.size[ino] > LIMIT <==> s.size[ino] > LIMIT || err == EFBig
    ensures off0 >= LIMIT && data != [] ==> err == EFBig && s'.size[ino] >= off0 + moved > LIMIT && Wrote(s, s', ino, off0, data, 0)
  {
    hide Wrote;
  }

  lemma InvShape(s: Fs, limbo: set<nat>)
    requires Inv(s, limbo)
    ensures |s.size| == |s.addr|
  {
  }

  lemma {:induction false} Unwritten(s: Fs, s1: Fs, s2: Fs, limbo: set<nat>, ino: nat, off0: nat, data: seq<Byte>, m: nat, nb: int)
    requires Wrote(s, s1, ino, off0, data, m) && nb < 0 && Mapped(s1, s2, limbo, ino, PlaceOf((off0 + m) / BSIZE), true, nb)
    ensures Inv(s2, limbo) && Wrote(s, s2, ino, off0, data, m) && Stack(s2.vol) == [] && s2.size == s1.size && |s2.addr| == |s.addr|
  {
    hide Inv, BytesSame, PlacesKept, Wrote;
    WroteSame(s, s1, s2, ino, off0, data, m);
    WroteShape(s, s2, ino, off0, data, m);
  }

  /** A chunk that starts in a block of the file ends in it. */
  lemma ChunkInLimit(off: nat, n: nat)
    requires PlaceOf(off / BSIZE) != [] && off % BSIZE + n <= BSIZE
    ensures off + n <= LIMIT
  {
    assert off == off / BSIZE * BSIZE + off % BSIZE;
  }

  lemma ReadKeeps(s: Fs, s': Fs, limbo: set<nat>, ino: nat, p: seq<nat>, nb: int)
    requires Mapped(s, s', limbo, ino, p, false, nb)
    ensures s' == s
  {
  }

  lemma StillInv(s: Fs, s': Fs, limbo: set<nat>, ino: nat, p: seq<nat>, k: nat, write: bool)
    requires Reached(s, s', limbo, ino, p, k, write)
    ensures Inv(s', limbo)
  {
  }

  lemma SpaceIf(v: Vol)
    requires Valid(v)
    ensures |v.disk| < WORDS
    ensures Stack(v) != [] ==> 0 < v.nfree <= |v.free| && 0 < Top(v) < |v.disk|
  {
    hide ListOk, StackOf;
    if Stack(v) != [] {
      TakenOk(v);
    }
  }

  /** The cache behind a chain block is not empty. */
  lemma Refills(v: Vol)
    requires HasSpace(v) && 0 < v.nfree <= |v.free| && Top(v) < |v.disk|
    ensures Popped(v).nfree > 0
  {
    hide ListOk, StackOf, ChainCount, ChainFree;
    PopStack(v);
  }

  // ----- a new file system ---------------------------------------------------------------------

  ghost function Span(lo: nat, hi: nat): (r: set<nat>)
    ensures forall b: nat :: b in r <==> lo <= b < hi
  {
    if lo >= hi then {} else Span(lo, hi - 1) + {hi - 1}
  }

  function Upto(lo: nat, hi: nat): (r: seq<nat>)
    requires lo <= hi
    ensures |r| == hi - lo && forall i :: 0 <= i < |r| ==> r[i] == lo + i
  {
    seq(hi - lo, i => lo + i)
  }

  /** Inodes without blocks, and an empty free list. */
  ghost predicate Blank(s: Fs) {
    && 0 < s.vol.isize <= s.vol.fsize == |s.vol.disk| < WORDS && s.vol.nfree == 0 && s.vol.tfree == 0 && s.vol.depth == 0
    && |s.vol.free| == NICFREE && (forall i :: 0 <= i < NICFREE ==> s.vol.free[i] == 0)
    && |s.addr| == |s.size| && (forall i :: 0 <= i < |s.addr| ==> |s.addr[i]| == NADDR && s.size[i] == 0)
    && (forall i, k :: 0 <= i < |s.addr| && 0 <= k < NADDR ==> s.addr[i][k] == 0)
  }

  lemma BlankInv(s: Fs)
    requires Blank(s)
    ensures Inv(s, Span(s.vol.isize, s.vol.fsize)) && Stack(s.vol) == [] && ZeroTail(s)
  {
    var limbo := Span(s.vol.isize, s.vol.fsize);
    forall o, b | Holds(s, limbo, o, b) ensures o == InLimbo && InRange(s.vol, b) {
      if o.InFile? {
        BlankAt(s, o.ino, o.p);
      }
    }
    forall b: nat ensures InRange(s.vol, b) <==> exists o :: Holds(s, limbo, o, b) {
      if InRange(s.vol, b) { assert Holds(s, limbo, InLimbo, b); }
    }
    hide FileByte;
    forall i: nat, o: nat | i < |s.addr| ensures FileByte(s, i, o) == 0 {
      NoBlocks(s, i, o);
    }
  }

  lemma BlankAt(s: Fs, ino: nat, p: seq<nat>)
    requires Blank(s) && ino < |s.addr| && IsPlace(p)
    ensures At(s.addr[ino], s.vol.disk, p) == 0
  {
    assert p[..1] == [p[0]];
    AbsentBelow(s.addr[ino], s.vol.disk, p, 1);
  }

  lemma BlankSizes(s: Fs, limbo: set<nat>)
    requires Inv(s, limbo)
    ensures s.vol.isize <= s.vol.fsize == |s.vol.disk|
  {
  }

  lemma FormatDone(s0: Fs, limbo: set<nat>, done: seq<nat>, s: Fs)
    requires s0.vol.isize <= s0.vol.fsize && done == Upto(s0.vol.isize, s0.vol.fsize) && limbo == Span(s0.vol.isize, s0.vol.fsize)
    requires Freed(s0, limbo, done, s) && Stack(s0.vol) == [] && ZeroTail(s0)
    ensures Inv(s, {}) && ZeroTail(s) && s.vol.tfree == |Stack(s.vol)| == |done|
    ensures forall b: nat :: b in Stack(s.vol) <==> s0.vol.isize <= b < s0.vol.fsize
  {
    hide FileByte, At, ListOk, StackOf;
    assert limbo - SetOf(done) == {} by {
      forall b | b in limbo ensures b in done { assert done[b - s0.vol.isize] == b; }
    }
    assert Rev(done) + [] == Rev(done);
    forall b: nat ensures b in Stack(s.vol) <==> s0.vol.isize <= b < s0.vol.fsize {
      RevIn(done, b);
      if s0.vol.isize <= b < s0.vol.fsize { assert done[b - s0.vol.isize] == b; }
    }
  }

  /** A byte written at the limit of a new file is nowhere, but the size says it is there. */
  method PastLimit() returns (d: Device, err: Err)
    ensures Inv(d.State(), {}) && |d.size| == |d.addr| == 1 && err == EFBig && d.size[0] == LIMIT + 1
    ensures forall o: nat :: FileByte(d.State(), 0, o) == 0
  {
    hide Inv, FileByte, Stack, Wrote;
    d := new Device(2, 3, 1);
    d.Format();
    ghost var s := d.State();
    var moved;
    moved, err := d.WriteI(0, LIMIT, [1], {});
    SizePastLimit(s, d.State(), 0, LIMIT, [1], moved, err);
    forall o: nat ensures FileByte(d.State(), 0, o) == 0 {
      assert FileByte(d.State(), 0, o) == FileByte(s, 0, o) by { WroteByte(s, d.State(), LIMIT, [1], o); }
      EmptyFile(s, o);
    }
  }

  lemma WroteByte(s: Fs, s': Fs, off0: nat, data: seq<Byte>, o: nat)
    requires 0 < |s.addr| && Wrote(s, s', 0, off0, data, 0)
    ensures 0 < |s'.addr| && FileByte(s', 0, o) == FileByte(s, 0, o)
  {
    hide FileByte;
  }

  lemma EmptyFile(s: Fs, o: nat)
    requires ZeroTail(s) && 0 < |s.addr| == |s.size| && s.size[0] == 0
    ensures FileByte(s, 0, o) == 0
  {
    hide FileByte;
  }
}
