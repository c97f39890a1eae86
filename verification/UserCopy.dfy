/** Byte-granular copies to and from user memory (kernel/ucopy.c), and useracc() (kernel/utab.c).

    A fat pointer is a byte address: word * 6 + k, where k counts from the first byte of the word. */
module UserCopy {
  import opened WordBytes

  const PGSZ: nat := 1024
  const NPAGE: nat := 32

  /** The words [addr, addr + count) are all on mapped pages; page number 0 is "not mapped". */
  predicate Mapped(pages: seq<nat>, addr: nat, count: nat) {
    && |pages| == NPAGE
    && (count == 0 || (addr + count <= NPAGE * PGSZ && forall w :: addr <= w < addr + count ==> pages[w / PGSZ] != 0))
  }

  /** useracc. */
  method UserAcc(pages: seq<nat>, addr: nat, count: nat) returns (ok: bool)
    requires |pages| == NPAGE
    ensures ok <==> Mapped(pages, addr, count)
  {
    if count == 0 {
      return true;
    }
    if addr + count > NPAGE * PGSZ {
      return false;
    }
    var last := (addr + count - 1) / PGSZ;
    var v := addr / PGSZ;
    while v <= last
      invariant addr / PGSZ <= v <= last + 1
      invariant forall w :: addr <= w < addr + count && w / PGSZ < v ==> pages[w / PGSZ] != 0
    {
      if pages[v] == 0 {
        ghost var w := if v * PGSZ < addr then addr else v * PGSZ;
        assert w / PGSZ == v && addr <= w < addr + count;
        return false;
      }
      v := v + 1;
    }
    forall w | addr <= w < addr + count ensures pages[w / PGSZ] != 0 {
      assert w / PGSZ <= last;
    }
    ok := true;
  }

  /** The words that n bytes from byte address p on touch. */
  function Span(p: nat, n: nat): nat {
    (p % 6 + n + 5) / 6
  }

  /** The span covers exactly the words with a byte of the range in them. */
  lemma SpanExact(p: nat, n: nat, w: nat)
    requires n > 0
    ensures p / 6 <= w < p / 6 + Span(p, n) <==> exists b: nat :: p <= b < p + n && b / 6 == w
  {
    var k, s := p % 6, Span(p, n);
    assert p == 6 * (p / 6) + k;
    assert 6 * s >= k + n && 6 * s <= k + n + 5;
    if p / 6 <= w < p / 6 + s {
      var b := if w == p / 6 then p else 6 * w;
      assert p <= b < p + n && b / 6 == w;
    }
    if b: nat :| p <= b < p + n && b / 6 == w {
      assert b == 6 * w + b % 6;
    }
  }

  /** uspan. */
  method USpan(pages: seq<nat>, up: nat, n: nat) returns (ok: bool)
    requires |pages| == NPAGE
    ensures ok <==> Mapped(pages, up / 6, Span(up, n))
  {
    ok := UserAcc(pages, up / 6, (up % 6 + n + 5) / 6);
  }

  // ----- one access ----------------------------------------------------------------------------

  /** The n bytes from p on lie in the words [lo, hi). */
  predicate Within(p: nat, n: nat, lo: nat, hi: nat) {
    n == 0 || (lo <= p / 6 && (p + n - 1) / 6 < hi)
  }

  lemma WithinByte(p: nat, n: nat, lo: nat, hi: nat, i: nat)
    requires Within(p, n, lo, hi) && i < n
    ensures lo <= (p + i) / 6 < hi && p + i < 6 * hi
  {
  }

  /** From a place inside a word, the word after n whole words has a byte of the range. */
  lemma WithinNext(p: nat, n: nat, lo: nat, hi: nat, i: nat)
    requires Within(p, n, lo, hi) && p % 6 != 0 && n % 6 == 0 && i % 6 == 0 && i < n
    ensures lo <= (p + i + 6) / 6 < hi
  {
    hide Within;
    Sixes(i, n);
    SamePhase(p, i);
    NextWord(p + i);
    WithinByte(p, n, lo, hi, i + 5);
  }

  lemma Sixes(i: nat, n: nat)
    requires i % 6 == 0 && n % 6 == 0 && i < n
    ensures i + 6 <= n
  {
    assert i == 6 * (i / 6) && n == 6 * (n / 6);
  }

  lemma NextWord(x: nat)
    requires x % 6 != 0
    ensures (x + 5) / 6 == (x + 6) / 6
  {
    var q, r := x / 6, x % 6;
    assert x == 6 * q + r;
    assert (x + 5) / 6 == q + 1 && (x + 6) / 6 == q + 1;
  }

  lemma WithinPart(p: nat, n: nat, lo: nat, hi: nat, a: nat, b: nat)
    requires Within(p, n, lo, hi) && a + b <= n
    ensures Within(p + a, b, lo, hi)
  {
  }

  lemma CopiedSize(was: seq<Word>, src: seq<Word>, from: nat, to: nat, n: nat, m: seq<Word>)
    requires Copied(was, src, from, to, n, m)
    ensures |was| == |m|
  {
  }

  /** fuword, or a kernel load: the word of byte address p, which must be in [lo, hi). */
  method Fetch(m: array<Word>, p: nat, ghost lo: nat, ghost hi: nat) returns (w: Word)
    requires lo <= p / 6 < hi <= m.Length
    ensures w == m[p / 6]
  {
    w := m[p / 6];
  }

  /** suword, or a kernel store. */
  method Store(m: array<Word>, p: nat, w: Word, ghost lo: nat, ghost hi: nat)
    requires lo <= p / 6 < hi <= m.Length
    modifies m
    ensures m[..] == old(m[..])[p / 6 := w]
  {
    m[p / 6] := w;
  }

  // ----- the three ways of copying -------------------------------------------------------------

  /** cnt bytes one at a time, m bytes into the transfer: fubyte, and subyte or a store. */
  method Edge(src: array<Word>, dst: array<Word>, from: nat, to: nat, m: nat, cnt: nat, ghost was: seq<Word>,
              ghost slo: nat, ghost shi: nat, ghost dlo: nat, ghost dhi: nat)
    requires src != dst && Copied(was, src[..], from, to, m, dst[..])
    requires Within(from + m, cnt, slo, shi) && shi <= src.Length && Within(to + m, cnt, dlo, dhi) && dhi <= dst.Length
    modifies dst
    ensures Copied(was, src[..], from, to, m + cnt, dst[..])
  {
    hide Copied, ByteOf, SetByte, Within;
    var i := 0;
    while i < cnt
      invariant 0 <= i <= cnt && Copied(was, src[..], from, to, m + i, dst[..])
    {
      ghost var d := dst[..];
      WithinByte(from + m, cnt, slo, shi, i);
      WithinByte(to + m, cnt, dlo, dhi, i);
      CopiedSize(was, src[..], from, to, m + i, d);
      CopiedByte(was, src[..], from, to, m + i, d);
      var w := Fetch(src, from + m + i, slo, shi);
      var x := Fetch(dst, to + m + i, dlo, dhi);
      Store(dst, to + m + i, SetByte(x, (to + m + i) % 6, ByteOf(w, (from + m + i) % 6)), dlo, dhi);
      i := i + 1;
    }
  }

  predicate Sixfold(x: nat) {
    x % 6 == 0
  }

  predicate Phase(p: nat, k: nat) {
    p % 6 == k
  }

  /** The word of byte address p is in [lo, hi). */
  predicate Reaches(p: nat, lo: nat, hi: nat) {
    lo <= p / 6 < hi
  }

  /** What a step of a transfer between word boundaries needs of the addresses. */
  lemma WordReady(from: nat, to: nat, mid: nat, i: nat, slo: nat, shi: nat, dlo: nat, dhi: nat)
    requires Sixfold(from) && Sixfold(to) && Sixfold(mid) && Sixfold(i) && i < mid
    requires Within(from, mid, slo, shi) && Within(to, mid, dlo, dhi)
    ensures Reaches(from + i, slo, shi) && Reaches(to + i, dlo, dhi)
    ensures Sixfold(from + i) && Sixfold(to + i) && Sixfold(i + 6) && i + 6 <= mid
  {
    WithinByte(from, mid, slo, shi, i);
    WithinByte(to, mid, dlo, dhi, i);
    SamePhase(from, i);
    SamePhase(to, i);
    Sixes(i, mid);
  }

  /** One word, n bytes into the transfer. */
  method One(src: array<Word>, dst: array<Word>, from: nat, to: nat, n: nat, ghost was: seq<Word>,
             ghost slo: nat, ghost shi: nat, ghost dlo: nat, ghost dhi: nat)
    requires src != dst && Copied(was, src[..], from, to, n, dst[..]) && Sixfold(from + n) && Sixfold(to + n)
    requires Reaches(from + n, slo, shi) && shi <= src.Length && Reaches(to + n, dlo, dhi) && dhi <= dst.Length
    modifies dst
    ensures Copied(was, src[..], from, to, n + 6, dst[..])
  {
    hide Copied, ByteOf;
    var w := Fetch(src, from + n, slo, shi);
    WordStep(was, src[..], from, to, n, dst[..], w);
    Store(dst, to + n, w, dlo, dhi);
  }

  /** copyin or copyout: whole words, both sides on byte 0. */
  method Words(src: array<Word>, dst: array<Word>, from: nat, to: nat, m: nat, mid: nat, ghost was: seq<Word>,
               ghost slo: nat, ghost shi: nat, ghost dlo: nat, ghost dhi: nat)
    requires src != dst && Copied(was, src[..], from, to, m, dst[..]) && Sixfold(from + m) && Sixfold(to + m) && Sixfold(mid)
    requires Within(from + m, mid, slo, shi) && shi <= src.Length && Within(to + m, mid, dlo, dhi) && dhi <= dst.Length
    modifies dst
    ensures Copied(was, src[..], from, to, m + mid, dst[..])
  {
    assert Sixfold(0);
    hide Copied, ByteOf, Within, Sixfold, Reaches;
    var i := 0;
    while i < mid
      invariant 0 <= i <= mid && Sixfold(i) && Copied(was, src[..], from, to, m + i, dst[..])
    {
      WordReady(from + m, to + m, mid, i, slo, shi, dlo, dhi);
      One(src, dst, from, to, m + i, was, slo, shi, dlo, dhi);
      i := i + 6;
    }
  }

  /** What a step of a shifting transfer needs of the addresses, and what the next one finds. */
  lemma ShiftReady(from: nat, to: nat, mid: nat, i: nat, k: nat, slo: nat, shi: nat, dlo: nat, dhi: nat)
    requires Sixfold(to) && Sixfold(mid) && Sixfold(i) && i < mid && Phase(from, k) && k != 0
    requires Within(from, mid, slo, shi) && Within(to, mid, dlo, dhi)
    ensures Reaches(from + i + 6, slo, shi) && Reaches(to + i, dlo, dhi)
    ensures Sixfold(to + i) && Phase(from + i, k) && Sixfold(i + 6) && i + 6 <= mid
  {
    WithinNext(from, mid, slo, shi, i);
    WithinByte(to, mid, dlo, dhi, i);
    SamePhase(from, i);
    SamePhase(to, i);
    Sixes(i, mid);
  }

  /** One word of a shifting transfer, n bytes into it: cur is the source word it begins in. */
  method Join(src: array<Word>, dst: array<Word>, from: nat, to: nat, n: nat, k: nat, cur: Word, ghost was: seq<Word>,
              ghost slo: nat, ghost shi: nat, ghost dlo: nat, ghost dhi: nat) returns (nxt: Word)
    requires src != dst && Copied(was, src[..], from, to, n, dst[..]) && Sixfold(to + n) && Phase(from + n, k) && k != 0
    requires Reaches(from + n + 6, slo, shi) && shi <= src.Length && Reaches(to + n, dlo, dhi) && dhi <= dst.Length
    requires cur == src[(from + n) / 6]
    modifies dst
    ensures Copied(was, src[..], from, to, n + 6, dst[..]) && nxt == src[(from + n + 6) / 6]
  {
    hide Copied, ByteOf, Funnel;
    nxt := Fetch(src, from + n + 6, slo, shi);
    FunnelStep(was, src[..], from, to, n, dst[..], cur, nxt);
    Store(dst, to + n, Funnel(cur, nxt, k), dlo, dhi);
  }

  /** The words of a transfer whose sides differ in phase: each joins two of the source. */
  method Shift(src: array<Word>, dst: array<Word>, from: nat, to: nat, m: nat, mid: nat, ghost was: seq<Word>,
               ghost slo: nat, ghost shi: nat, ghost dlo: nat, ghost dhi: nat)
    requires src != dst && Copied(was, src[..], from, to, m, dst[..]) && Sixfold(to + m) && Sixfold(mid) && mid > 0
    requires !Phase(from + m, 0)
    requires Within(from + m, mid, slo, shi) && shi <= src.Length && Within(to + m, mid, dlo, dhi) && dhi <= dst.Length
    modifies dst
    ensures Copied(was, src[..], from, to, m + mid, dst[..])
  {
    hide Copied, ByteOf, Funnel, Within, Sixfold, Phase, Reaches;
    var k := PhaseOf(from + m);
    assert k != 0;
    FirstWord(from + m, mid, slo, shi);
    var cur := Fetch(src, from + m, slo, shi);
    var i := 0;
    while i < mid
      invariant 0 <= i <= mid && Sixfold(i) && Copied(was, src[..], from, to, m + i, dst[..])
      invariant (from + m + i) / 6 < src.Length && cur == src[(from + m + i) / 6]
    {
      ShiftReady(from + m, to + m, mid, i, k, slo, shi, dlo, dhi);
      cur := Join(src, dst, from, to, m + i, k, cur, was, slo, shi, dlo, dhi);
      assert (from + m + i + 6) / 6 < src.Length by { ReachIn(from + m + i + 6, slo, shi, src.Length); }
      i := i + 6;
    }
  }

  function PhaseOf(p: nat): (k: nat)
    ensures k < 6 && Phase(p, k)
  {
    p % 6
  }

  lemma ReachIn(p: nat, lo: nat, hi: nat, n: nat)
    requires Reaches(p, lo, hi) && hi <= n
    ensures p / 6 < n
  {
  }

  lemma FirstWord(p: nat, n: nat, lo: nat, hi: nat)
    requires Within(p, n, lo, hi) && n > 0
    ensures lo <= p / 6 < hi && Sixfold(0)
  {
    WithinByte(p, n, lo, hi, 0);
  }

  lemma Alike(from: nat, to: nat, m: nat)
    ensures (from + m) % 6 == (to + m) % 6 <==> from % 6 == to % 6
  {
    var f, t, q := from / 6, to / 6, m / 6;
    PhaseSum(f, from % 6, q, m % 6);
    PhaseSum(t, to % 6, q, m % 6);
  }

  lemma PhaseSum(f: nat, x: nat, q: nat, y: nat)
    requires x < 6 && y < 6
    ensures (6 * f + x + (6 * q + y)) % 6 == if x + y < 6 then x + y else x + y - 6
  {
    var r := if x + y < 6 then x + y else x + y - 6;
    var d := f + q + if x + y < 6 then 0 else 1;
    assert 6 * f + x + (6 * q + y) == 6 * d + r;
  }

  lemma SamePhase(p: nat, i: nat)
    requires i % 6 == 0
    ensures (p + i) % 6 == p % 6
  {
    assert p == 6 * (p / 6) + p % 6 && i == 6 * (i / 6);
  }

  lemma WordStep(was: seq<Word>, src: seq<Word>, from: nat, to: nat, n: nat, d: seq<Word>, w: Word)
    requires Copied(was, src, from, to, n, d) && (from + n) % 6 == 0 && (to + n) % 6 == 0
    requires (from + n) / 6 < |src| && (to + n) / 6 < |d| && w == src[(from + n) / 6]
    ensures Copied(was, src, from, to, n + 6, d[(to + n) / 6 := w])
  {
    hide ByteOf;
    forall j | 0 <= j < 6 ensures ByteOf(w, j) == ByteAt(src, from + n + j) {
      assert (from + n + j) / 6 == (from + n) / 6 && (from + n + j) % 6 == j;
    }
    CopiedWord(was, src, from, to, n, d, w);
  }

  lemma {:induction false} FunnelStep(was: seq<Word>, src: seq<Word>, from: nat, to: nat, n: nat, d: seq<Word>, cur: Word, nxt: Word)
    requires Copied(was, src, from, to, n, d) && (from + n) % 6 != 0 && (to + n) % 6 == 0
    requires (from + n + 6) / 6 < |src| && (to + n) / 6 < |d| && cur == src[(from + n) / 6] && nxt == src[(from + n + 6) / 6]
    ensures Copied(was, src, from, to, n + 6, d[(to + n) / 6 := Funnel(cur, nxt, (from + n) % 6)])
  {
    hide ByteOf, Funnel;
    var k, p := (from + n) % 6, from + n;
    forall j | 0 <= j < 6 ensures ByteOf(Funnel(cur, nxt, k), j) == ByteAt(src, p + j) {
      FunnelBytes(cur, nxt, k, j);
      if k + j < 6 {
        assert (p + j) / 6 == p / 6 && (p + j) % 6 == k + j;
      } else {
        assert (p + j) / 6 == (p + 6) / 6 && (p + j) % 6 == k + j - 6;
      }
    }
    CopiedWord(was, src, from, to, n, d, Funnel(cur, nxt, k));
  }

  /** How many bytes square the destination up to a word boundary. */
  method Lead(to: nat, n: nat) returns (lead: nat)
    ensures lead <= 5 && lead <= n && (lead == n || (to + lead) % 6 == 0)
  {
    lead := 6 - to % 6;
    if lead == 6 {
      lead := 0;
    }
    if lead > n {
      lead := n;
    }
  }

  /** The bytes that make whole words, and the rest. */
  method WholeWords(n: nat) returns (mid: nat, rest: nat)
    ensures mid + rest == n && mid % 6 == 0 && rest <= 5
  {
    mid, rest := n - n % 6, n % 6;
  }

  // ----- copyinb and copyoutb ------------------------------------------------------------------

  class Traffic {
    var niobulk: nat
    var nioedge: nat
    var nioshift: nat

    /** The common shape of copyinb and copyoutb after the range has been checked. */
    method Copy(src: array<Word>, dst: array<Word>, from: nat, to: nat, n: nat,
                ghost slo: nat, ghost shi: nat, ghost dlo: nat, ghost dhi: nat)
      requires src != dst && n > 0
      requires Within(from, n, slo, shi) && shi <= src.Length && Within(to, n, dlo, dhi) && dhi <= dst.Length
      modifies this, dst
      ensures Copied(old(dst[..]), src[..], from, to, n, dst[..])
      ensures niobulk + nioedge + nioshift == old(niobulk + nioedge + nioshift) + n
      ensures old(nioedge) <= nioedge <= old(nioedge) + 10
      ensures niobulk >= old(niobulk) && nioshift >= old(nioshift)
      ensures if from % 6 == to % 6 then nioshift == old(nioshift) else niobulk == old(niobulk)
    {
      hide Copied, ByteOf, SetByte, Funnel, Within;
      ghost var was := dst[..];
      InReach(from, n, slo, shi);
      InReach(to, n, dlo, dhi);
      CopiedNone(was, src[..], from, to);
      var lead := Lead(to, n);
      nioedge := nioedge + lead;
      WithinPart(from, n, slo, shi, 0, lead);
      WithinPart(to, n, dlo, dhi, 0, lead);
      Edge(src, dst, from, to, 0, lead, was, slo, shi, dlo, dhi);
      var mid, left := WholeWords(n - lead);
      if mid != 0 {
        WithinPart(from, n, slo, shi, lead, mid);
        WithinPart(to, n, dlo, dhi, lead, mid);
        Middle(src, dst, from, to, lead, mid, was, slo, shi, dlo, dhi);
      }
      nioedge := nioedge + left;
      WithinPart(from, n, slo, shi, lead + mid, left);
      WithinPart(to, n, dlo, dhi, lead + mid, left);
      Edge(src, dst, from, to, lead + mid, left, was, slo, shi, dlo, dhi);
    }

    /** The whole destination words, by the way the phases call for. */
    method Middle(src: array<Word>, dst: array<Word>, from: nat, to: nat, m: nat, mid: nat, ghost was: seq<Word>,
                  ghost slo: nat, ghost shi: nat, ghost dlo: nat, ghost dhi: nat)
      requires src != dst && Copied(was, src[..], from, to, m, dst[..]) && (to + m) % 6 == 0 && mid % 6 == 0 && mid > 0
      requires Within(from + m, mid, slo, shi) && shi <= src.Length && Within(to + m, mid, dlo, dhi) && dhi <= dst.Length
      modifies this, dst
      ensures Copied(was, src[..], from, to, m + mid, dst[..]) && nioedge == old(nioedge)
      ensures if from % 6 == to % 6 then niobulk == old(niobulk) + mid && nioshift == old(nioshift)
              else niobulk == old(niobulk) && nioshift == old(nioshift) + mid
    {
      hide Copied, ByteOf, Within;
      Alike(from, to, m);
      if (from + m) % 6 == (to + m) % 6 {
        Words(src, dst, from, to, m, mid, was, slo, shi, dlo, dhi);
        niobulk := niobulk + mid;
      } else {
        Shift(src, dst, from, to, m, mid, was, slo, shi, dlo, dhi);
        nioshift := nioshift + mid;
      }
    }

    /** copyinb: user to kernel.  False, and nothing moved, unless every user word touched is mapped. */
    method CopyInB(user: array<Word>, pages: seq<nat>, kern: array<Word>, from: nat, to: nat, n: int) returns (ok: bool)
      requires user != kern && user.Length == NPAGE * PGSZ && |pages| == NPAGE && to + n <= 6 * kern.Length
      modifies this, kern
      ensures n <= 0 ==> ok
      ensures n > 0 ==> (ok <==> Mapped(pages, from / 6, Span(from, n)))
      ensures n <= 0 || !ok ==> kern[..] == old(kern[..]) && niobulk == old(niobulk) && nioedge == old(nioedge) && nioshift == old(nioshift)
      ensures n > 0 && ok ==> Copied(old(kern[..]), user[..], from, to, n, kern[..]) && Accounted(old(niobulk), old(nioedge), old(nioshift), from, to, n)
    {
      if n <= 0 {
        return true;
      }
      ok := USpan(pages, from, n);
      if ok {
        SpanWithin(from, n);
        Copy(user, kern, from, to, n, from / 6, from / 6 + Span(from, n), 0, kern.Length);
      }
    }

    /** copyoutb: kernel to user. */
    method CopyOutB(kern: array<Word>, user: array<Word>, pages: seq<nat>, from: nat, to: nat, n: int) returns (ok: bool)
      requires user != kern && user.Length == NPAGE * PGSZ && |pages| == NPAGE && from + n <= 6 * kern.Length
      modifies this, user
      ensures n <= 0 ==> ok
      ensures n > 0 ==> (ok <==> Mapped(pages, to / 6, Span(to, n)))
      ensures n <= 0 || !ok ==> user[..] == old(user[..]) && niobulk == old(niobulk) && nioedge == old(nioedge) && nioshift == old(nioshift)
      ensures n > 0 && ok ==> Copied(old(user[..]), kern[..], from, to, n, user[..]) && Accounted(old(niobulk), old(nioedge), old(nioshift), from, to, n)
    {
      if n <= 0 {
        return true;
      }
      ok := USpan(pages, to, n);
      if ok {
        SpanWithin(to, n);
        Copy(kern, user, from, to, n, 0, kern.Length, to / 6, to / 6 + Span(to, n));
      }
    }

    /** The counters have grown by n in all, by at most ten on the byte-at-a-time one, and only that and
        the one for the phases have grown. */
    ghost predicate Accounted(bulk: nat, edge: nat, shift: nat, from: nat, to: nat, n: nat)
      reads this
    {
      && niobulk + nioedge + nioshift == bulk + edge + shift + n && edge <= nioedge <= edge + 10
      && if from % 6 == to % 6 then nioshift == shift && niobulk >= bulk else niobulk == bulk && nioshift >= shift
    }
  }

  lemma InReach(p: nat, n: nat, lo: nat, hi: nat)
    requires Within(p, n, lo, hi) && n > 0
    ensures p + n <= 6 * hi
  {
  }

  lemma SpanWithin(p: nat, n: nat)
    requires n > 0
    ensures Within(p, n, p / 6, p / 6 + Span(p, n)) && Span(p, n) > 0
  {
    assert p == 6 * (p / 6) + p % 6;
  }
}
