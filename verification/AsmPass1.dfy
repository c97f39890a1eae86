/** Pass 1's emission of half-words and the pool of literals it keeps in the const segment
    (cmd/as/pass1.c). */
module AsmPass1 {
  import opened Common
  import opened AsmPool
  import opened AsmSegments
  import opened AsmShort

  /** An instruction: where it is, and the literal it was given and the word it was pointed at for it, or
      the address it was given. */
  datatype Ref =
    | Pooled(seg: nat, pos: nat, long: bool, addr: nat, val: nat, rel: nat)
    | ZeroWord(seg: nat, pos: nat, long: bool)
    | Plain(seg: nat, pos: nat, long: bool, val: nat, rel: nat)

  ghost predicate Built(g: seq<Segment>) {
    |g| == 5 && forall s :: 0 <= s < SBSS ==> Whole(g[s])
  }

  ghost predicate Grown(g: seq<Segment>, g': seq<Segment>)
    requires Built(g) && Built(g')
  {
    forall s :: 0 <= s < SBSS ==> Extends(g[s], g'[s])
  }

  /** The size of an instruction's address field. */
  function Field(long: bool): nat {
    if long then LONG else SHORTOFF
  }

  function Width(long: bool): nat {
    if long then RABS else RSHORT
  }

  /** The half-word of a literal's instruction carries the offset of a word that serves as the literal, and
      that of any other its address. */
  ghost predicate Refers(g: seq<Segment>, ref: Ref)
    requires Built(g)
  {
    && ref.seg < SBSS && ref.pos < g[ref.seg].count
    && var half := HalfAt(g[ref.seg], ref.pos);
    && (!ref.long && !ref.Plain? ==> half.0 < SEGBIT)
    && match ref
       case Pooled(_, _, long, addr, val, rel) =>
         && half.1 == RCONST + Width(long)
         && half.0 % Field(long) == addr % Field(long)
         && val < WORDS && Serves(g[SCONST], addr, val, rel)
       case ZeroWord(_, _, long) =>
         half.1 == RABS + Width(long) && half.0 % Field(long) == 0
       case Plain(_, _, long, val, rel) =>
         half.1 == rel + Width(long) && rel % 8 == 0 && Address(half.0, long) == val % LONG
  }

  ghost predicate Agree(g: seq<Segment>, tab: seq<Constant>)
    requires Built(g)
  {
    forall i :: 0 <= i < |tab| ==> Serves(g[SCONST], tab[i].addr, tab[i].val, tab[i].rel)
  }

  ghost predicate AllRefer(g: seq<Segment>, refs: seq<Ref>)
    requires Built(g)
  {
    forall i :: 0 <= i < |refs| ==> Refers(g, refs[i])
  }

  /** Segments only grow, so what the table and the instructions say of them stays true. */
  lemma GrownKeeps(g: seq<Segment>, g': seq<Segment>, tab: seq<Constant>, refs: seq<Ref>)
    requires Built(g) && Built(g') && Grown(g, g') && Agree(g, tab) && AllRefer(g, refs)
    ensures Agree(g', tab) && AllRefer(g', refs)
  {
    hide Serves, HalfAt;
    assert Extends(g[SCONST], g'[SCONST]) && Whole(g'[SCONST]);
    forall i | 0 <= i < |tab| ensures Serves(g'[SCONST], tab[i].addr, tab[i].val, tab[i].rel) {
      ServesStays(g[SCONST], g'[SCONST], tab[i].addr, tab[i].val, tab[i].rel);
    }
    forall i | 0 <= i < |refs| ensures Refers(g', refs[i]) {
      var ref := refs[i];
      assert Refers(g, ref);
      assert Extends(g[ref.seg], g'[ref.seg]);
      assert HalfAt(g'[ref.seg], ref.pos) == HalfAt(g[ref.seg], ref.pos);
      if ref.Pooled? {
        ServesStays(g[SCONST], g'[SCONST], ref.addr, ref.val, ref.rel);
      }
    }
  }

  lemma OneGrown(g: seq<Segment>, s: nat, x: Segment)
    requires Built(g) && s < |g|
    requires s < SBSS ==> Whole(x) && Extends(g[s], x)
    ensures Built(g[s := x]) && Grown(g, g[s := x])
  {
  }

  lemma GrownSelf(g: seq<Segment>)
    requires Built(g)
    ensures Grown(g, g)
  {
  }

  lemma GrownTrans(a: seq<Segment>, b: seq<Segment>, c: seq<Segment>)
    requires Built(a) && Built(b) && Built(c) && Grown(a, b) && Grown(b, c)
    ensures Grown(a, c)
  {
    hide HalfAt;
    forall s | 0 <= s < SBSS ensures Extends(a[s], c[s]) {
      assert Extends(a[s], b[s]) && Extends(b[s], c[s]);
      forall p: nat | p < a[s].count ensures HalfAt(c[s], p) == HalfAt(a[s], p) {
        assert HalfAt(b[s], p) == HalfAt(a[s], p);
      }
    }
  }

  /** Two halves put on an even segment make a word. */
  lemma PairServes(g: Segment, h: nat, hr: nat, l: nat, lr: nat)
    requires Whole(g) && g.count % 2 == 0 && hr < HALF && lr < HALF && RelType(hr) == RABS
    ensures Serves(Put(Put(g, h, hr), l, lr), g.count / 2, h % HALF * HALF + l % HALF, lr)
  {
    ModWord(0, h % HALF * HALF + l % HALF);
  }

  /** The second half of an absolute word completes one that serves under the key recorded for it. */
  lemma JoinServes(g: Segment, h: nat, r: nat)
    requires Whole(g) && g.count % 2 == 1 && g.pendr < HALF && r < HALF
    requires RelType(g.pendr) == RABS && RelType(r) == RABS
    ensures Serves(Put(g, h, r), (g.count + 1) / 2 - 1, Joined(g.pendh, h), RABS)
  {
    JoinedIs(g.pendh, h);
  }

  lemma FieldOf(op: nat, addr: nat, long: bool)
    ensures (op * Field(long) + addr % Field(long)) % Field(long) == addr % Field(long)
    ensures op < 0x40 && !long ==> op * Field(long) + addr % Field(long) < SEGBIT
    ensures op < 0x20 && long ==> op * Field(long) + addr % Field(long) < HALF
  {
  }

  /** An instruction put with a served offset in its address field refers to it. */
  lemma PutRefers(g: seq<Segment>, op: nat, h: nat, r: nat, ref: Ref)
    requires Built(g) && SCONST < ref.seg < SBSS && ref.pos == g[ref.seg].count && !ref.Plain?
    requires op < (if ref.long then 0x20 else 0x40)
    requires ref.Pooled? ==> ref.val < WORDS && Serves(g[SCONST], ref.addr, ref.val, ref.rel)
    requires ref.Pooled? ==> h == op * Field(ref.long) + ref.addr % Field(ref.long) && r == RCONST + Width(ref.long)
    requires ref.ZeroWord? ==> h == op * Field(ref.long) + 0 % Field(ref.long) && r == RABS + Width(ref.long)
    ensures var g' := g[ref.seg := Put(g[ref.seg], h, r)]; Built(g') && Refers(g', ref)
  {
    hide Serves;
    PutExtends(g[ref.seg], h, r);
    FieldOf(op, if ref.Pooled? then ref.addr else 0, ref.long);
  }

  /** The instruction with its index register, operation and address field; None if a short field cannot
      hold the address. */
  function Coded(op: nat, long: bool, index: nat, val: nat, rel: nat): Option<nat> {
    var h := index * 0x10_0000 + op * Field(long);
    if long then Some(h + val % LONG)
    else if rel == RABS then if ShortFits(val % LONG) then Some(ShortPut(h, val % LONG)) else None
    else if val < SHORTOFF then Some(h + val) else None
  }

  lemma CodedFields(index: nat, op: nat, low: nat, long: bool)
    requires op < (if long then 0x20 else 0x40) && low < Field(long)
    ensures var h := (index * 0x10_0000 + op * Field(long) + low) % HALF; Address(h, long) == low
  {
    var q, h := index / 16, index % 16 * 0x10_0000 + op * Field(long) + low;
    assert index * 0x10_0000 + op * Field(long) + low == q * HALF + h;
    assert (q * HALF + h) % HALF == h;
    if !long {
      Fields(index % 16 * 2, 0, op, low);
    }
  }

  lemma CutLow(q: nat, r: nat)
    ensures (q * HALF + r) % SHORTOFF == r % SHORTOFF
  {
    var x, y := r / SHORTOFF, r % SHORTOFF;
    assert q * HALF + r == (q * 0x1000 + x) * SHORTOFF + y;
    LowOf(q * 0x1000 + x, y);
  }

  lemma LowOf(q: nat, y: nat)
    requires y < SHORTOFF
    ensures (q * SHORTOFF + y) % SHORTOFF == y
  {
  }

  lemma CutBit(q: nat, r: nat)
    ensures (q * HALF + r) / SEGBIT % 2 == r / SEGBIT % 2
  {
    var x, y := r / SEGBIT, r % SEGBIT;
    assert q * HALF + r == (q * 0x40 + x) * SEGBIT + y;
    DivSeg(q * 0x40 + x, y);
  }

  lemma CutShort(h: nat)
    ensures ShortGet(h % HALF) == ShortGet(h)
  {
    CutLow(h / HALF, h % HALF);
    CutBit(h / HALF, h % HALF);
  }

  /** Whatever the register number spills into, the field holds the address. */
  lemma CodedAddress(op: nat, long: bool, index: nat, val: nat, rel: nat)
    requires op < (if long then 0x20 else 0x40) && Coded(op, long, index, val, rel).Some?
    ensures Address(Coded(op, long, index, val, rel).value % HALF, long) == val % LONG
  {
    hide ShortPut, ShortGet;
    if long {
      CodedFields(index, op, val % LONG, true);
    } else if rel == RABS {
      var h := index * 0x10_0000 + op * SHORTOFF;
      ShortRoundTrip(h, val % LONG);
      CutShort(ShortPut(h, val % LONG));
    } else {
      CodedFields(index, op, val, false);
    }
  }

  lemma PutPlain(g: seq<Segment>, h: nat, ref: Ref)
    requires Built(g) && ref.Plain? && ref.seg < SBSS && ref.pos == g[ref.seg].count && ref.rel < HALF && ref.rel % 8 == 0
    requires Address(h % HALF, ref.long) == ref.val % LONG
    ensures var g' := g[ref.seg := Put(g[ref.seg], h, ref.rel + Width(ref.long))]; Built(g') && Refers(g', ref)
  {
    PutExtends(g[ref.seg], h, ref.rel + Width(ref.long));
  }

  /** The assembler during pass 1. */
  class Pass1 {
    var seg: seq<Segment>
    var segm: nat
    var hashconst: seq<int>
    var constab: seq<Constant>

    /** The slot each table entry is filed in, and the instructions given a literal so far. */
    ghost var slot: seq<nat>
    ghost var refs: seq<Ref>

    /** Every table entry agrees with the const image, no two entries share a key, every entry can be
        found, and every literal's instruction points at a word that serves as the literal. */
    ghost predicate Valid()
      reads this
    {
      && Built(seg) && segm < |seg|
      && (forall s :: 0 <= s < |seg| ==> seg[s].pendr < HALF)
      && Filed(hashconst, constab, slot) && |constab| <= Limit()
      && Agree(seg, constab) && AllRefer(seg, refs)
    }

    /** The most entries the table takes; it is kept below the number of slots. */
    function Limit(): nat
      reads this
    {
      |hashconst| * 9 / 10
    }

    constructor (slots: nat)
      requires 0 < slots
      ensures Valid() && constab == [] && refs == [] && segm == STEXT && |hashconst| == slots
      ensures forall s :: 0 <= s < |seg| ==> seg[s].count == 0
    {
      seg := seq(5, _ => Segment([], [], 0, 0, 0));
      segm := STEXT;
      hashconst := seq(slots, _ => -1);
      constab := [];
      slot := [];
      refs := [];
    }

    /** Offers a finished const word to the table. A full table changes nothing. */
    method Register(val: nat, rel: nat, addr: nat)
      requires Valid() && Serves(seg[SCONST], addr, val, rel)
      modifies `hashconst, `constab, `slot
      ensures Valid() && |hashconst| == old(|hashconst|)
      ensures old(Known(constab, val, rel)) || old(|constab| >= Limit()) ==> constab == old(constab)
      ensures !old(Known(constab, val, rel)) && old(|constab| < Limit()) ==>
                constab == old(constab) + [Constant(val, rel, addr)]
    {
      hide Filed, Known, Reached, Serves, Refers, Built;
      if |constab| >= Limit() {
        return;
      }
      var i, k := Probe(hashconst, constab, slot, val, rel);
      if i != -1 {
        return;
      }
      SameReach(hashconst, val, rel, addr, k);
      FiledGrows(hashconst, constab, slot, Constant(val, rel, addr), k);
      hashconst := hashconst[k := |constab|];
      constab := constab + [Constant(val, rel, addr)];
      slot := slot + [k];
    }

    lemma SameReach(hash: seq<int>, val: nat, rel: nat, addr: nat, k: nat)
      requires k < |hash| && Reached(hash, Constant(val, rel, 0), k)
      ensures Reached(hash, Constant(val, rel, addr), k)
    {
    }

    /** Appends a half-word to the current segment; a finished absolute word of the const segment that
        is not an anonymous literal is offered to the table. */
    method EmitHalfword(h: nat, r: nat)
      requires Valid() && r < HALF
      modifies `seg, `hashconst, `constab, `slot
      ensures Valid() && |hashconst| == old(|hashconst|)
      ensures seg == old(seg)[segm := Put(old(seg[segm]), h, r)]
      ensures Grown(old(seg), seg)
      ensures old(constab) <= constab
      ensures segm != SCONST || Marked(old(seg[segm].pendr)) || old(seg[segm].count) % 2 == 0 ==> constab == old(constab)
      ensures && segm == SCONST && old(seg[segm].count) % 2 == 1 && !Marked(old(seg[segm].pendr))
              && RelType(old(seg[segm].pendr)) == RABS && RelType(r) == RABS && old(|constab| < Limit()) ==>
                Known(constab, Joined(old(seg[segm].pendh), h), RABS)
    {
      hide Filed, Known, Serves, Refers, HalfAt, RelType, Joined;
      var g := seg[segm];
      if segm < SBSS { PutExtends(g, h, r); }
      OneGrown(seg, segm, Put(g, h, r));
      GrownKeeps(seg, seg[segm := Put(g, h, r)], constab, refs);
      seg := seg[segm := Put(g, h, r)];
      if g.count % 2 == 1 && segm == SCONST && !Marked(g.pendr) && RelType(g.pendr) == RABS && RelType(r) == RABS {
        JoinServes(g, h, r);
        var val, addr := Joined(g.pendh, h), seg[SCONST].count / 2 - 1;
        ghost var tab := constab;
        Register(val, RABS, addr);
        KnownStays(tab, Constant(val, RABS, addr), val, RABS);
      }
    }

    /** Pads a segment to a whole word. */
    method AlignSegment(s: nat)
      requires Valid() && s < |seg|
      modifies `seg, `segm, `hashconst, `constab, `slot
      ensures Valid() && segm == old(segm) && |hashconst| == old(|hashconst|)
      ensures seg == old(seg)[s := seg[s]] && seg[s].count == old(seg[s].count) + old(seg[s].count) % 2
      ensures old(seg[s].count) % 2 == 0 ==> seg == old(seg)
      ensures old(seg[s].count) % 2 == 0 || s != SCONST ==> constab == old(constab)
      ensures Grown(old(seg), seg)
      ensures old(constab) <= constab
    {
      hide Filed, Known, Serves, Refers, HalfAt, Extends;
      GrownSelf(seg);
      var save := segm;
      segm := s;
      if seg[s].count % 2 == 1 {
        EmitHalfword(if s == STEXT then EMPTY else 0, RABS);
      }
      segm := save;
    }

    /** Flushes the current segment's half-finished word and goes to segment `s`. */
    method SwitchTo(s: nat)
      requires Valid() && s < |seg|
      modifies `seg, `segm, `hashconst, `constab, `slot
      ensures Valid() && segm == s && |hashconst| == old(|hashconst|)
      ensures seg == old(seg)[old(segm) := seg[old(segm)]] && seg[old(segm)].count % 2 == 0
      ensures Grown(old(seg), seg)
      ensures old(constab) <= constab
    {
      AlignSegment(segm);
      segm := s;
    }

    /** Appends whole absolute words to the current segment without offering them to the table: what
        a string constant and a gap are made of. */
    method Append(halves: seq<nat>)
      requires Valid() && seg[segm].count % 2 == 0 && |halves| % 2 == 0
      requires forall k :: 0 <= k < |halves| ==> halves[k] < HALF
      modifies `seg
      ensures Valid()
      ensures seg == old(seg)[segm := Fill(old(seg[segm]), halves)]
      ensures Grown(old(seg), seg)
    {
      hide Filed, Known, Serves, Refers, HalfAt, Extends;
      if segm < SBSS { FillExtends(seg[segm], halves); }
      OneGrown(seg, segm, Fill(seg[segm], halves));
      GrownKeeps(seg, seg[segm := Fill(seg[segm], halves)], constab, refs);
      seg := seg[segm := Fill(seg[segm], halves)];
    }

    /** Moves the location counter forward to `words`, filling the gap; it is an error to move back. */
    method SetLocation(words: nat) returns (ok: bool)
      requires Valid() && seg[segm].count % 2 == 0
      modifies `seg
      ensures Valid()
      ensures ok <==> old(seg[segm].count) <= 2 * words
      ensures ok ==> seg == old(seg)[segm := seg[segm]] && seg[segm].count == 2 * words
      ensures !ok ==> seg == old(seg)
      ensures Grown(old(seg), seg)
    {
      hide Filed, Known, Serves, Refers, HalfAt, Extends;
      GrownSelf(seg);
      ok := seg[segm].count <= 2 * words;
      if !ok {
        return;
      }
      if segm == SBSS {
        OneGrown(seg, segm, seg[segm].(count := 2 * words));
        GrownKeeps(seg, seg[segm := seg[segm].(count := 2 * words)], constab, refs);
        seg := seg[segm := seg[segm].(count := 2 * words)];
      } else {
        var gap := 2 * words - seg[segm].count;
        var fill := if segm == STEXT then EMPTY else 0;
        Append(seq(gap, _ => fill));
      }
    }

    /** Lays down the word a `.word` directive asks for. */
    method Word(val: nat, rel: nat)
      requires Valid() && val < WORDS && rel < HALF && segm < SBSS
      modifies `seg, `segm, `hashconst, `constab, `slot
      ensures Valid() && segm == old(segm) && |hashconst| == old(|hashconst|)
      ensures seg == old(seg)[segm := seg[segm]] && seg[segm].count == old(seg[segm].count) + old(seg[segm].count) % 2 + 2
      ensures Grown(old(seg), seg)
      ensures Serves(seg[segm], seg[segm].count / 2 - 1, val, rel)
      ensures old(constab) <= constab
    {
      hide Filed, Known, Serves, Refers, HalfAt, Extends, RelType;
      MergeIsAbsolute();
      AlignSegment(segm);
      ghost var mid := seg;
      WordServes(seg[segm], val, RABS, rel);
      EmitHalfword(val / HALF, RABS);
      GrownTrans(old(seg), mid, seg);
      ghost var late := seg;
      EmitHalfword(val % HALF, rel);
      GrownTrans(old(seg), late, seg);
    }

    /** Finds a const word that serves as `val` under `rel`, appending one if none is known; its offset
        is returned. A known constant costs nothing and always gets the same answer. */
    method Intern(val: nat, rel: nat) returns (addr: nat)
      requires Valid() && val < WORDS && rel < HALF && segm != SCONST
      modifies `seg, `segm, `hashconst, `constab, `slot
      ensures Valid() && segm == old(segm) && |hashconst| == old(|hashconst|)
      ensures Serves(seg[SCONST], addr, val, rel)
      ensures seg == old(seg)[SCONST := seg[SCONST]]
      ensures Grown(old(seg), seg)
      ensures old(constab) <= constab
      ensures old(Known(constab, val, rel)) ==>
                seg == old(seg) && constab == old(constab) && exists i :: 0 <= i < |constab| && constab[i] == Constant(val, rel, addr)
      ensures !old(Known(constab, val, rel)) ==> addr == seg[SCONST].count / 2 - 1
      ensures !old(Known(constab, val, rel)) && old(seg[SCONST].count) % 2 == 0 && old(|constab| < Limit()) ==>
                constab == old(constab) + [Constant(val, rel, addr)]
    {
      hide Filed, Serves, Refers, HalfAt, Extends, RelType;
      GrownSelf(seg);
      var i, _ := Probe(hashconst, constab, slot, val, rel);
      if i != -1 {
        addr := constab[i].addr;
        assert constab[i] == Constant(val, rel, addr);
        return;
      }
      addr := AppendLiteral(val, rel);
      Register(val, rel, addr);
    }

    /** Appends a literal, marked for the linker as one it may merge. */
    method AppendLiteral(val: nat, rel: nat) returns (addr: nat)
      requires Valid() && val < WORDS && rel < HALF && segm != SCONST
      modifies `seg, `segm, `hashconst, `constab, `slot
      ensures Valid() && segm == old(segm) && |hashconst| == old(|hashconst|)
      ensures Serves(seg[SCONST], addr, val, rel) && addr == seg[SCONST].count / 2 - 1
      ensures seg == old(seg)[SCONST := seg[SCONST]]
      ensures Grown(old(seg), seg)
      ensures old(constab) <= constab
      ensures old(seg[SCONST].count) % 2 == 0 ==> constab == old(constab)
    {
      hide Filed, Known, Serves, Refers, HalfAt, Extends, RelType;
      AlignSegment(SCONST);
      ghost var mid := seg;
      var save := segm;
      segm := SCONST;
      MergeIsAbsolute();
      WordServes(seg[segm], val, RMERGE, rel);
      EmitHalfword(val / HALF, RMERGE);
      GrownTrans(old(seg), mid, seg);
      ghost var late := seg;
      EmitHalfword(val % HALF, rel);
      GrownTrans(old(seg), late, seg);
      segm := save;
      addr := seg[SCONST].count / 2 - 1;
    }

    /** Assembles an instruction with the literal operand `val`: an absolute zero is read from memory
        word 0 unless the address is to be modified, anything else from the const segment. */
    method Literal(op: nat, long: bool, align: bool, index: nat, val: nat, rel: nat, modified: bool) returns (ok: bool)
      requires Valid() && val < WORDS && rel < HALF && segm < SBSS && op < (if long then 0x20 else 0x40)
      modifies this
      ensures Valid() && segm == old(segm) && |hashconst| == old(|hashconst|)
      ensures Grown(old(seg), seg)
      ensures old(constab) <= constab
      ensures index != 0 || segm == SCONST ==> !ok
      ensures !ok ==> refs == old(refs)
      ensures !ok && index == 0 && segm != SCONST ==>
        !long && exists a: nat :: a >= Field(false) && Serves(seg[SCONST], a, val, rel)
      ensures ok ==> |refs| == |old(refs)| + 1 && old(refs) <= refs
      ensures ok ==> var ref := refs[|old(refs)|];
                && ref.seg == segm && ref.pos == old(seg[segm].count) && ref.long == long
                && (ref.ZeroWord? <==> val == 0 && rel == RABS && !modified)
                && (ref.Pooled? ==> ref.val == val && ref.rel == rel && (long || ref.addr < Field(false)))
    {
      hide Filed, Known, Serves, Refers, HalfAt, Extends, RelType;
      GrownSelf(seg);
      ok := index == 0 && segm != SCONST;
      if !ok {
        return;
      }
      if rel == RABS && val == 0 && !modified {
        EmitRef(op, 0, align, ZeroWord(segm, seg[segm].count, long));
        return;
      }
      var addr := Intern(val, rel);
      if !long && addr >= Field(false) {
        ok := false;
        return;
      }
      ghost var mid := seg;
      EmitRef(op, addr, align, Pooled(segm, seg[segm].count, long, addr, val, rel));
      GrownTrans(old(seg), mid, seg);
    }

    method EmitRef(op: nat, addr: nat, align: bool, ref: Ref)
      requires Valid() && SCONST < segm < SBSS && op < (if ref.long then 0x20 else 0x40)
      requires ref.seg == segm && ref.pos == seg[segm].count && !ref.Plain?
      requires ref.Pooled? ==> addr == ref.addr && ref.val < WORDS && Serves(seg[SCONST], addr, ref.val, ref.rel)
      requires ref.ZeroWord? ==> addr == 0
      modifies this
      ensures Valid() && segm == old(segm) && |hashconst| == old(|hashconst|)
      ensures Grown(old(seg), seg)
      ensures constab == old(constab) && refs == old(refs) + [ref]
    {
      hide Filed, Known, Serves, Refers, HalfAt, Extends, RelType;
      var h, r := op * Field(ref.long) + addr % Field(ref.long), (if ref.Pooled? then RCONST else RABS) + Width(ref.long);
      EmitHalfword(h, r);
      PutRefers(old(seg), op, h, r, ref);
      refs := refs + [ref];
      if align {
        ghost var late := seg;
        AlignSegment(segm);
        GrownTrans(old(seg), late, seg);
      }
    }

    /** Assembles an instruction with an ordinary address. */
    method Direct(op: nat, long: bool, align: bool, index: nat, val: nat, rel: nat) returns (ok: bool)
      requires Valid() && val < HALF && rel < HALF && rel % 8 == 0 && segm < SBSS && op < (if long then 0x20 else 0x40)
      modifies this
      ensures Valid() && segm == old(segm) && |hashconst| == old(|hashconst|)
      ensures Grown(old(seg), seg)
      ensures old(constab) <= constab
      ensures ok <==> long || (if rel == RABS then ShortFits(val % LONG) else val < SHORTOFF)
      ensures refs == old(refs) + if ok then [Plain(segm, old(seg[segm].count), long, val, rel)] else []
    {
      hide Filed, Known, Serves, Refers, HalfAt, Extends, RelType, Address, ShortPut, ShortGet;
      GrownSelf(seg);
      var h := Coded(op, long, index, val, rel);
      ok := h.Some?;
      if !ok {
        return;
      }
      CodedAddress(op, long, index, val, rel);
      ghost var ref := Plain(segm, seg[segm].count, long, val, rel);
      PutPlain(seg, h.value, ref);
      EmitHalfword(h.value, rel + Width(long));
      refs := refs + [ref];
      if align {
        ghost var late := seg;
        AlignSegment(segm);
        GrownTrans(old(seg), late, seg);
      }
    }

    /** Pads the four segments that have an image to whole words. */
    method Finish()
      requires Valid()
      modifies `seg, `segm, `hashconst, `constab, `slot
      ensures Valid() && segm == old(segm)
      ensures forall s :: 0 <= s < SBSS ==> seg[s].count % 2 == 0
      ensures Grown(old(seg), seg)
    {
      hide Filed, Known, Serves, Refers, HalfAt, Extends;
      GrownSelf(seg);
      var s := 0;
      while s < SBSS
        invariant s <= SBSS && Valid() && segm == old(segm) && Grown(old(seg), seg)
        invariant forall t :: 0 <= t < s ==> seg[t].count % 2 == 0
      {
        ghost var mid := seg;
        AlignSegment(s);
        GrownTrans(old(seg), mid, seg);
        s := s + 1;
      }
    }
  }

  lemma MergeIsAbsolute()
    ensures RelType(RMERGE) == RABS && RelType(RABS) == RABS
  {
  }

  lemma WordServes(g: Segment, val: nat, hr: nat, rel: nat)
    requires Whole(g) && g.count % 2 == 0 && val < WORDS && hr < HALF && rel < HALF && RelType(hr) == RABS
    ensures Serves(Put(Put(g, val / HALF, hr), val % HALF, rel), g.count / 2, val, rel)
  {
    Split(val);
    PairServes(g, val / HALF, hr, val % HALF, rel);
  }
}
