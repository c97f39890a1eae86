/** The six bytes of a 48-bit word, the most significant first, and the funnel shift. */
module WordBytes {
  type Word = bv48

  function B0(w: Word): Word { (w >> 40) & 0xFF }

  function B1(w: Word): Word { (w >> 32) & 0xFF }

  function B2(w: Word): Word { (w >> 24) & 0xFF }

  function B3(w: Word): Word { (w >> 16) & 0xFF }

  function B4(w: Word): Word { (w >> 8) & 0xFF }

  function B5(w: Word): Word { w & 0xFF }

  /** Byte k of a word. */
  function ByteOf(w: Word, k: nat): Word
    requires k < 6
  {
    match k
    case 0 => B0(w)
    case 1 => B1(w)
    case 2 => B2(w)
    case 3 => B3(w)
    case 4 => B4(w)
    case _ => B5(w)
  }

  lemma ByteSmall(w: Word, k: nat)
    requires k < 6
    ensures ByteOf(w, k) <= 0xFF
  {
    AndSmall(w >> 40);
    AndSmall(w >> 32);
    AndSmall(w >> 24);
    AndSmall(w >> 16);
    AndSmall(w >> 8);
    AndSmall(w);
  }

  lemma AndSmall(w: Word)
    ensures w & 0xFF <= 0xFF
  {
  }

  // ----- storing a byte ------------------------------------------------------------------------

  function S0(w: Word, c: Word): Word { (w & 0x00FF_FFFF_FFFF) | (c << 40) }

  function S1(w: Word, c: Word): Word { (w & 0xFF00_FFFF_FFFF) | (c << 32) }

  function S2(w: Word, c: Word): Word { (w & 0xFFFF_00FF_FFFF) | (c << 24) }

  function S3(w: Word, c: Word): Word { (w & 0xFFFF_FF00_FFFF) | (c << 16) }

  function S4(w: Word, c: Word): Word { (w & 0xFFFF_FFFF_00FF) | (c << 8) }

  function S5(w: Word, c: Word): Word { (w & 0xFFFF_FFFF_FF00) | c }

  /** The word with byte k set to c. */
  function SetByte(w: Word, k: nat, c: Word): Word
    requires k < 6
  {
    match k
    case 0 => S0(w, c)
    case 1 => S1(w, c)
    case 2 => S2(w, c)
    case 3 => S3(w, c)
    case 4 => S4(w, c)
    case _ => S5(w, c)
  }

  lemma Set0(w: Word, c: Word)
    requires c <= 0xFF
    ensures B0(S0(w, c)) == c && B1(S0(w, c)) == B1(w) && B2(S0(w, c)) == B2(w)
    ensures B3(S0(w, c)) == B3(w) && B4(S0(w, c)) == B4(w) && B5(S0(w, c)) == B5(w)
  {
  }

  lemma Set1(w: Word, c: Word)
    requires c <= 0xFF
    ensures B0(S1(w, c)) == B0(w) && B1(S1(w, c)) == c && B2(S1(w, c)) == B2(w)
    ensures B3(S1(w, c)) == B3(w) && B4(S1(w, c)) == B4(w) && B5(S1(w, c)) == B5(w)
  {
  }

  lemma Set2(w: Word, c: Word)
    requires c <= 0xFF
    ensures B0(S2(w, c)) == B0(w) && B1(S2(w, c)) == B1(w) && B2(S2(w, c)) == c
    ensures B3(S2(w, c)) == B3(w) && B4(S2(w, c)) == B4(w) && B5(S2(w, c)) == B5(w)
  {
  }

  lemma Set3(w: Word, c: Word)
    requires c <= 0xFF
    ensures B0(S3(w, c)) == B0(w) && B1(S3(w, c)) == B1(w) && B2(S3(w, c)) == B2(w)
    ensures B3(S3(w, c)) == c && B4(S3(w, c)) == B4(w) && B5(S3(w, c)) == B5(w)
  {
  }

  lemma Set4(w: Word, c: Word)
    requires c <= 0xFF
    ensures B0(S4(w, c)) == B0(w) && B1(S4(w, c)) == B1(w) && B2(S4(w, c)) == B2(w)
    ensures B3(S4(w, c)) == B3(w) && B4(S4(w, c)) == c && B5(S4(w, c)) == B5(w)
  {
  }

  lemma Set5(w: Word, c: Word)
    requires c <= 0xFF
    ensures B0(S5(w, c)) == B0(w) && B1(S5(w, c)) == B1(w) && B2(S5(w, c)) == B2(w)
    ensures B3(S5(w, c)) == B3(w) && B4(S5(w, c)) == B4(w) && B5(S5(w, c)) == c
  {
  }

  /** Setting a byte sets that byte and no other. */
  lemma SetBytes(w: Word, k: nat, c: Word, j: nat)
    requires k < 6 && c <= 0xFF && j < 6
    ensures ByteOf(SetByte(w, k, c), j) == if j == k then c else ByteOf(w, j)
  {
    hide B0, B1, B2, B3, B4, B5, S0, S1, S2, S3, S4, S5;
    match k
    case 0 => Set0(w, c);
    case 1 => Set1(w, c);
    case 2 => Set2(w, c);
    case 3 => Set3(w, c);
    case 4 => Set4(w, c);
    case _ => Set5(w, c);
  }

  // ----- the funnel ----------------------------------------------------------------------------

  function F1(cur: Word, nxt: Word): Word { (cur << 8) | (nxt >> 40) }

  function F2(cur: Word, nxt: Word): Word { (cur << 16) | (nxt >> 32) }

  function F3(cur: Word, nxt: Word): Word { (cur << 24) | (nxt >> 24) }

  function F4(cur: Word, nxt: Word): Word { (cur << 32) | (nxt >> 16) }

  function F5(cur: Word, nxt: Word): Word { (cur << 40) | (nxt >> 8) }

  /** The tail of cur from byte k on, joined to the head of nxt: (cur << 8k) | (nxt >> 8(6-k)). */
  function Funnel(cur: Word, nxt: Word, k: nat): Word
    requires 0 < k < 6
  {
    match k
    case 1 => F1(cur, nxt)
    case 2 => F2(cur, nxt)
    case 3 => F3(cur, nxt)
    case 4 => F4(cur, nxt)
    case _ => F5(cur, nxt)
  }

  lemma Funnel1(cur: Word, nxt: Word)
    ensures B0(F1(cur, nxt)) == B1(cur) && B1(F1(cur, nxt)) == B2(cur) && B2(F1(cur, nxt)) == B3(cur)
    ensures B3(F1(cur, nxt)) == B4(cur) && B4(F1(cur, nxt)) == B5(cur) && B5(F1(cur, nxt)) == B0(nxt)
  {
  }

  lemma Funnel2(cur: Word, nxt: Word)
    ensures B0(F2(cur, nxt)) == B2(cur) && B1(F2(cur, nxt)) == B3(cur) && B2(F2(cur, nxt)) == B4(cur)
    ensures B3(F2(cur, nxt)) == B5(cur) && B4(F2(cur, nxt)) == B0(nxt) && B5(F2(cur, nxt)) == B1(nxt)
  {
  }

  lemma Funnel3(cur: Word, nxt: Word)
    ensures B0(F3(cur, nxt)) == B3(cur) && B1(F3(cur, nxt)) == B4(cur) && B2(F3(cur, nxt)) == B5(cur)
    ensures B3(F3(cur, nxt)) == B0(nxt) && B4(F3(cur, nxt)) == B1(nxt) && B5(F3(cur, nxt)) == B2(nxt)
  {
  }

  lemma Funnel4(cur: Word, nxt: Word)
    ensures B0(F4(cur, nxt)) == B4(cur) && B1(F4(cur, nxt)) == B5(cur) && B2(F4(cur, nxt)) == B0(nxt)
    ensures B3(F4(cur, nxt)) == B1(nxt) && B4(F4(cur, nxt)) == B2(nxt) && B5(F4(cur, nxt)) == B3(nxt)
  {
  }

  lemma Funnel5(cur: Word, nxt: Word)
    ensures B0(F5(cur, nxt)) == B5(cur) && B1(F5(cur, nxt)) == B0(nxt) && B2(F5(cur, nxt)) == B1(nxt)
    ensures B3(F5(cur, nxt)) == B2(nxt) && B4(F5(cur, nxt)) == B3(nxt) && B5(F5(cur, nxt)) == B4(nxt)
  {
  }

  lemma Row1(cur: Word, nxt: Word, j: nat)
    requires j < 6
    ensures ByteOf(F1(cur, nxt), j) == if 1 + j < 6 then ByteOf(cur, 1 + j) else ByteOf(nxt, 1 + j - 6)
  {
    hide B0, B1, B2, B3, B4, B5, F1;
    Funnel1(cur, nxt);
  }

  lemma Row2(cur: Word, nxt: Word, j: nat)
    requires j < 6
    ensures ByteOf(F2(cur, nxt), j) == if 2 + j < 6 then ByteOf(cur, 2 + j) else ByteOf(nxt, 2 + j - 6)
  {
    hide B0, B1, B2, B3, B4, B5, F2;
    Funnel2(cur, nxt);
  }

  lemma Row3(cur: Word, nxt: Word, j: nat)
    requires j < 6
    ensures ByteOf(F3(cur, nxt), j) == if 3 + j < 6 then ByteOf(cur, 3 + j) else ByteOf(nxt, 3 + j - 6)
  {
    hide B0, B1, B2, B3, B4, B5, F3;
    Funnel3(cur, nxt);
  }

  lemma Row4(cur: Word, nxt: Word, j: nat)
    requires j < 6
    ensures ByteOf(F4(cur, nxt), j) == if 4 + j < 6 then ByteOf(cur, 4 + j) else ByteOf(nxt, 4 + j - 6)
  {
    hide B0, B1, B2, B3, B4, B5, F4;
    Funnel4(cur, nxt);
  }

  lemma Row5(cur: Word, nxt: Word, j: nat)
    requires j < 6
    ensures ByteOf(F5(cur, nxt), j) == if 5 + j < 6 then ByteOf(cur, 5 + j) else ByteOf(nxt, 5 + j - 6)
  {
    hide B0, B1, B2, B3, B4, B5, F5;
    Funnel5(cur, nxt);
  }

  /** Byte j of the funnel is byte k + j of the two words. */
  lemma FunnelBytes(cur: Word, nxt: Word, k: nat, j: nat)
    requires 0 < k < 6 && j < 6
    ensures ByteOf(Funnel(cur, nxt, k), j) == if k + j < 6 then ByteOf(cur, k + j) else ByteOf(nxt, k + j - 6)
  {
    hide ByteOf, F1, F2, F3, F4, F5;
    match k
    case 1 => Row1(cur, nxt, j);
    case 2 => Row2(cur, nxt, j);
    case 3 => Row3(cur, nxt, j);
    case 4 => Row4(cur, nxt, j);
    case _ => Row5(cur, nxt, j);
  }

  // ----- memory as bytes -----------------------------------------------------------------------

  /** Byte b of a memory of words. */
  function ByteAt(m: seq<Word>, b: nat): Word
    requires b < 6 * |m|
  {
    ByteOf(m[b / 6], b % 6)
  }

  /** The memory with byte b set. */
  function Poke(m: seq<Word>, b: nat, c: Word): seq<Word>
    requires b < 6 * |m|
  {
    m[b / 6 := SetByte(m[b / 6], b % 6, c)]
  }

  lemma PokeByte(m: seq<Word>, b: nat, c: Word, x: nat)
    requires b < 6 * |m| && c <= 0xFF && x < 6 * |m|
    ensures ByteAt(Poke(m, b, c), x) == if x == b then c else ByteAt(m, x)
  {
    hide ByteOf, SetByte;
    if x / 6 == b / 6 {
      SetBytes(m[b / 6], b % 6, c, x % 6);
    }
  }

  /** m is m0 with the n bytes from `to` on taken from src at `from`. */
  ghost predicate Copied(m0: seq<Word>, src: seq<Word>, from: nat, to: nat, n: nat, m: seq<Word>) {
    && |m| == |m0| && to + n <= 6 * |m0| && from + n <= 6 * |src|
    && forall x :: 0 <= x < 6 * |m0| ==> ByteAt(m, x) == if to <= x < to + n then ByteAt(src, from + (x - to)) else ByteAt(m0, x)
  }

  lemma CopiedNone(m0: seq<Word>, src: seq<Word>, from: nat, to: nat)
    requires to <= 6 * |m0| && from <= 6 * |src|
    ensures Copied(m0, src, from, to, 0, m0)
  {
  }

  /** One byte more. */
  lemma {:induction false} CopiedByte(m0: seq<Word>, src: seq<Word>, from: nat, to: nat, n: nat, m: seq<Word>)
    requires Copied(m0, src, from, to, n, m) && to + n < 6 * |m0| && from + n < 6 * |src|
    ensures Copied(m0, src, from, to, n + 1, Poke(m, to + n, ByteAt(src, from + n)))
  {
    hide ByteOf, SetByte;
    ByteSmall(src[(from + n) / 6], (from + n) % 6);
    var m' := Poke(m, to + n, ByteAt(src, from + n));
    forall x | 0 <= x < 6 * |m0|
      ensures ByteAt(m', x) == if to <= x < to + n + 1 then ByteAt(src, from + (x - to)) else ByteAt(m0, x)
    {
      PokeByte(m, to + n, ByteAt(src, from + n), x);
    }
  }

  lemma StoreWord(m: seq<Word>, t: nat, w: Word, x: nat)
    requires t % 6 == 0 && t + 6 <= 6 * |m| && x < 6 * |m|
    ensures ByteAt(m[t / 6 := w], x) == if t <= x < t + 6 then ByteOf(w, x - t) else ByteAt(m, x)
  {
    hide ByteOf;
    assert x / 6 == t / 6 <==> t <= x < t + 6;
    assert x / 6 == t / 6 ==> x % 6 == x - t;
  }

  /** Six bytes more, as one word. */
  lemma {:induction false} CopiedWord(m0: seq<Word>, src: seq<Word>, from: nat, to: nat, n: nat, m: seq<Word>, w: Word)
    requires Copied(m0, src, from, to, n, m) && to + n + 6 <= 6 * |m0| && from + n + 6 <= 6 * |src| && (to + n) % 6 == 0
    requires forall j :: 0 <= j < 6 ==> ByteOf(w, j) == ByteAt(src, from + n + j)
    ensures Copied(m0, src, from, to, n + 6, m[(to + n) / 6 := w])
  {
    hide ByteOf, ByteAt;
    var m' := m[(to + n) / 6 := w];
    forall x | 0 <= x < 6 * |m0|
      ensures ByteAt(m', x) == if to <= x < to + n + 6 then ByteAt(src, from + (x - to)) else ByteAt(m0, x)
    {
      StoreWord(m, to + n, w, x);
      if to + n <= x < to + n + 6 {
        assert ByteOf(w, x - (to + n)) == ByteAt(src, from + n + (x - (to + n)));
      }
    }
  }
}
