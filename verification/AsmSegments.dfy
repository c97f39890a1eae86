/** The segment images pass 1 builds out of half-words, and what it means for a word of the const
    segment to serve as a given value (cmd/as/pass1.c, cross/besm6/b.out.h). */
module AsmSegments {
  import opened Common
  import opened AsmPool

  const SCONST: nat := 0
  const STEXT: nat := 1
  const SDATA: nat := 2
  const SSTRNG: nat := 3
  const SBSS: nat := 4

  const RABS: nat := 0x00
  const RSHORT: nat := 0x01
  const RMERGE: nat := 0x02
  const RCONST: nat := 0x08
  const RTEXT: nat := 0x10
  const RDATA: nat := 0x18
  const RBSS: nat := 0x20
  const RSTRNG: nat := 0x30
  const REXT: nat := 0x38

  /** The empty instruction that pads the text segment. */
  const EMPTY: nat := 0x9_0000

  /** What a relocation record says the half-word is relative to. */
  function RelType(r: nat): nat {
    r / 8 % 8 * 8
  }

  predicate Marked(r: nat) {
    r / 2 % 2 == 1
  }

  /** A segment: its image and relocation stream, its size in half-words, and the first half of a word
      whose partner has not come yet. */
  datatype Segment = Segment(code: seq<nat>, rel: seq<nat>, count: nat, pendh: nat, pendr: nat)

  ghost predicate Whole(g: Segment) {
    && |g.code| == |g.rel| == g.count - g.count % 2
    && (forall k :: 0 <= k < |g.code| ==> g.code[k] < HALF && g.rel[k] < HALF)
  }

  /** Appends a half-word; words reach the image two halves at a time. */
  function Put(g: Segment, h: nat, r: nat): Segment {
    if g.count % 2 == 1 then
      g.(code := g.code + [g.pendh % HALF, h % HALF], rel := g.rel + [g.pendr % HALF, r % HALF], count := g.count + 1)
    else
      g.(pendh := h, pendr := r, count := g.count + 1)
  }

  /** Appends whole words that need no relocation. */
  function Fill(g: Segment, halves: seq<nat>): Segment {
    g.(code := g.code + halves, rel := g.rel + seq(|halves|, _ => RABS), count := g.count + |halves|)
  }

  /** The half-word at a position, with its relocation record. */
  function HalfAt(g: Segment, p: nat): (nat, nat)
    requires |g.code| == |g.rel|
  {
    if p < |g.code| then (g.code[p], g.rel[p]) else (g.pendh % HALF, g.pendr % HALF)
  }

  ghost predicate Extends(g: Segment, g': Segment)
    requires Whole(g) && Whole(g')
  {
    && g.code <= g'.code && g.rel <= g'.rel && g.count <= g'.count
    && (forall p: nat :: p < g.count ==> HalfAt(g', p) == HalfAt(g, p))
  }

  lemma PutExtends(g: Segment, h: nat, r: nat)
    requires Whole(g)
    ensures Whole(Put(g, h, r)) && Extends(g, Put(g, h, r))
    ensures HalfAt(Put(g, h, r), g.count) == (h % HALF, r % HALF)
  {
  }

  lemma FillExtends(g: Segment, halves: seq<nat>)
    requires Whole(g) && g.count % 2 == 0 && |halves| % 2 == 0
    requires forall k :: 0 <= k < |halves| ==> halves[k] < HALF
    ensures Whole(Fill(g, halves)) && Extends(g, Fill(g, halves))
  {
  }

  /** The word at offset `a` holds `val`, and pass 2 treats it as `rel` says. */
  ghost predicate Serves(g: Segment, a: nat, val: nat, rel: nat) {
    && 2 * a + 1 < |g.code| == |g.rel|
    && g.code[2 * a] * HALF + g.code[2 * a + 1] == val % WORDS
    && RelType(g.rel[2 * a]) == RABS
    && (g.rel[2 * a + 1] == rel || (rel == RABS && RelType(g.rel[2 * a + 1]) == RABS))
  }

  lemma ServesStays(g: Segment, g': Segment, a: nat, val: nat, rel: nat)
    requires Serves(g, a, val, rel) && g.code <= g'.code && g.rel <= g'.rel && |g'.code| == |g'.rel|
    ensures Serves(g', a, val, rel)
  {
  }

  /** The key under which a finished word is recorded: its high half is not cut to 24 bits first. */
  function Joined(h: nat, l: nat): nat {
    (h * HALF + l % HALF) % WIDE
  }

  lemma ModWide(q: nat, y: nat)
    requires y < WIDE
    ensures (q * WIDE + y) % WIDE == y
  {
  }

  lemma ModWord(q: nat, y: nat)
    requires y < WORDS
    ensures (q * WORDS + y) % WORDS == y
  {
  }

  lemma Regroup(h: nat, l: nat, q: nat, r: nat, t: nat)
    requires h == (q * 0x1_0000 + r) * HALF + t
    ensures h * HALF + l == q * WIDE + (r * WORDS + (t * HALF + l))
  {
  }

  /** The recorded value is the word modulo 2^48, and equals it exactly when the bits of the high half
      above the 24th that the build machine keeps are clear. */
  lemma JoinedIs(h: nat, l: nat)
    ensures Joined(h, l) % WORDS == h % HALF * HALF + l % HALF
    ensures Joined(h, l) == h % HALF * HALF + l % HALF <==> h / HALF % 0x1_0000 == 0
  {
    var q, r, t := h / HALF / 0x1_0000, h / HALF % 0x1_0000, h % HALF;
    var w := t * HALF + l % HALF;
    Regroup(h, l % HALF, q, r, t);
    ModWide(q, r * WORDS + w);
    ModWord(r, w);
  }

  /** A register number above 15 spills out of a half-word: the key recorded for that word is not the
      word in the image, so no 48-bit literal ever finds it. */
  lemma SpilledKey()
    ensures Joined(0x10 * 0x10_0000, 5) != 0x10 * 0x10_0000 % HALF * HALF + 5
    ensures Joined(0x10 * 0x10_0000, 5) >= WORDS
  {
  }

  /** Splitting a word and joining the halves again. */
  lemma Split(val: nat)
    requires val < WORDS
    ensures val / HALF < HALF && val / HALF * HALF + val % HALF == val
  {
  }
}
