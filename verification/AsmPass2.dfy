/** Pass 2: relocating every half-word of the segment images, and what becomes of the instructions that
    were given a literal operand (cmd/as/pass2.c, cmd/libaout/shortaddr.c). */
module AsmPass2 {
  import opened Common
  import opened AsmPool
  import opened AsmSegments
  import opened AsmPass1
  import opened AsmShort

  const CBASE: nat := 8
  const CONSTTOP: nat := 0xfff

  /** The addresses the segments start at, and the values of the symbols defined in this file. */
  datatype Map = Map(cbase: nat, tbase: nat, dbase: nat, abase: nat, bbase: nat, syms: map<nat, nat>)

  /** Adds an address into a half-word's address field; `None` where the assembler gives up. */
  function RelocateField(h: nat, a: nat, hr: nat): Option<nat> {
    if hr % 2 == RSHORT then
      var sum := a + ShortGet(h);
      if RelType(hr) != RCONST && !ShortFits(sum) then None else Some(ShortPut(h, sum))
    else
      Some(h / LONG * LONG + (a + h % LONG) % LONG)
  }

  function RelocateHalf(m: Map, h: nat, hr: nat): Option<nat> {
    var t := RelType(hr);
    if t == RCONST then RelocateField(h, m.cbase, hr)
    else if t == RTEXT then RelocateField(h, m.tbase, hr)
    else if t == RDATA then RelocateField(h, m.dbase, hr)
    else if t == RSTRNG then RelocateField(h, m.abase, hr)
    else if t == RBSS then RelocateField(h, m.bbase, hr)
    else if t == REXT && hr / 64 in m.syms then RelocateField(h, m.syms[hr / 64], hr)
    else Some(h)
  }

  /** The address that is added for a record; nothing is added for a symbol that is still undefined. */
  function BaseOf(m: Map, hr: nat): nat {
    var t := RelType(hr);
    if t == RCONST then m.cbase
    else if t == RTEXT then m.tbase
    else if t == RDATA then m.dbase
    else if t == RSTRNG then m.abase
    else if t == RBSS then m.bbase
    else if t == REXT && hr / 64 in m.syms then m.syms[hr / 64]
    else 0
  }

  function RelocatePair(m: Map, h: nat, hr: nat, l: nat, lr: nat): Option<nat> {
    match (RelocateHalf(m, h, hr), RelocateHalf(m, l, lr))
    case (Some(x), Some(y)) => Some(x * HALF + y % HALF)
    case _ => None
  }

  /** The word a `.word` directive with this value and relocation ends up as. */
  function DotWord(m: Map, val: nat, rel: nat): Option<nat> {
    RelocatePair(m, val / HALF, RABS, val % HALF, rel)
  }

  function RelocateWord(m: Map, g: Segment, k: nat): Option<nat>
    requires 2 * k + 1 < |g.code| == |g.rel|
  {
    RelocatePair(m, g.code[2 * k], g.rel[2 * k], g.code[2 * k + 1], g.rel[2 * k + 1])
  }

  /** A word that serves as a value relocates to what a `.word` of that value relocates to. */
  lemma ServingIsDotWord(m: Map, g: Segment, a: nat, val: nat, rel: nat)
    requires Whole(g) && Serves(g, a, val, rel) && val < WORDS
    ensures RelocateWord(m, g, a) == DotWord(m, val, rel)
  {
    hide RelocateField;
    var h, l := g.code[2 * a], g.code[2 * a + 1];
    assert h < HALF && l < HALF;
    ModWord(0, val);
    Halves(h, l, val);
    AbsoluteStays(m, h, g.rel[2 * a]);
    AbsoluteStays(m, h, RABS);
    if g.rel[2 * a + 1] != rel {
      AbsoluteStays(m, l, g.rel[2 * a + 1]);
      AbsoluteStays(m, l, RABS);
    }
  }

  lemma Halves(h: nat, l: nat, val: nat)
    requires h * HALF + l == val && l < HALF
    ensures val / HALF == h && val % HALF == l
  {
  }

  lemma AbsoluteStays(m: Map, h: nat, hr: nat)
    requires RelType(hr) == RABS
    ensures RelocateHalf(m, h, hr) == Some(h)
  {
  }

  ghost predicate Aligned(g: seq<Segment>) {
    Built(g) && forall s :: 0 <= s < SBSS ==> g[s].count % 2 == 0
  }

  ghost predicate Relocates(m: Map, g: Segment)
    requires Whole(g) && g.count % 2 == 0
  {
    forall k :: 0 <= k < g.count / 2 ==> RelocateWord(m, g, k).Some?
  }

  ghost predicate Relocated(m: Map, g: Segment, out: seq<nat>)
    requires Whole(g) && g.count % 2 == 0
  {
    |out| == g.count / 2 && forall k :: 0 <= k < |out| ==> RelocateWord(m, g, k) == Some(out[k])
  }

  method EmitSegment(m: Map, g: Segment) returns (out: Option<seq<nat>>)
    requires Whole(g) && g.count % 2 == 0
    ensures out.Some? <==> Relocates(m, g)
    ensures out.Some? ==> Relocated(m, g, out.value)
  {
    hide RelocateWord;
    var words := [];
    for k := 0 to g.count / 2
      invariant |words| == k
      invariant forall j :: 0 <= j < k ==> RelocateWord(m, g, j) == Some(words[j])
    {
      var w := RelocateWord(m, g, k);
      if w.None? {
        return None;
      }
      words := words + [w.value];
    }
    out := Some(words);
  }

  /** The segments one after another from the end of the header. */
  function Layout(g: seq<Segment>, syms: map<nat, nat>): Map
    requires |g| == 5
  {
    var t := CBASE + g[0].count / 2;
    var d := t + g[1].count / 2;
    var a := d + g[2].count / 2;
    Map(CBASE, t, d, a, a + g[3].count / 2, syms)
  }

  predicate ConstFits(g: seq<Segment>)
    requires |g| == 5
  {
    g[SCONST].count == 0 || CBASE + g[SCONST].count / 2 - 1 <= CONSTTOP
  }

  ghost predicate Emitted(m: Map, g: seq<Segment>, out: seq<seq<nat>>)
    requires Aligned(g)
  {
    |out| == SBSS && forall s :: 0 <= s < SBSS ==> Relocated(m, g[s], out[s])
  }

  /** Pass 2, after the check that the const segment can be reached. */
  method EmitSegments(g: seq<Segment>, syms: map<nat, nat>) returns (out: Option<seq<seq<nat>>>)
    requires Aligned(g)
    ensures out.Some? <==> ConstFits(g) && forall s :: 0 <= s < SBSS ==> Relocates(Layout(g, syms), g[s])
    ensures out.Some? ==> Emitted(Layout(g, syms), g, out.value)
  {
    hide Relocates, Relocated, Whole;
    var m := Layout(g, syms);
    if !ConstFits(g) {
      return None;
    }
    var images := [];
    for s := 0 to SBSS
      invariant |images| == s
      invariant forall t :: 0 <= t < s ==> Relocates(m, g[t]) && Relocated(m, g[t], images[t])
    {
      var o := EmitSegment(m, g[s]);
      if o.None? {
        return None;
      }
      images := images + [o.value];
    }
    out := Some(images);
  }

  /** The half-word at a position of an emitted image. */
  function HalfOut(out: seq<nat>, p: nat): nat
    requires p / 2 < |out|
  {
    if p % 2 == 0 then out[p / 2] / HALF else out[p / 2] % HALF
  }

  lemma ShortBelow(h: nat, a: nat)
    requires h < SEGBIT && a < SHORTOFF
    ensures ShortPut(h, a) < SEGBIT
  {
  }

  lemma ShortMoves(m: Map, h: nat)
    ensures RelocateHalf(m, h, RCONST + RSHORT) == Some(ShortPut(h, m.cbase + ShortGet(h)))
  {
    hide ShortPut, ShortGet;
  }

  lemma ShortIs(h: nat)
    requires h < SEGBIT
    ensures ShortGet(h) == h % SHORTOFF
  {
  }

  lemma ShortPooled(m: Map, h: nat, addr: nat)
    requires m.cbase == CBASE && CBASE + addr <= CONSTTOP && h < SEGBIT && h % SHORTOFF == addr
    ensures var y := RelocateHalf(m, h, RCONST + RSHORT);
      y.Some? && y.value < HALF && ShortGet(y.value) == CBASE + addr
  {
    hide ShortPut, ShortGet, RelocateHalf;
    ShortMoves(m, h);
    ShortIs(h);
    ShortRoundTrip(h, CBASE + addr);
    ShortBelow(h, CBASE + addr);
  }

  lemma LongPooled(m: Map, h: nat, addr: nat)
    requires m.cbase == CBASE && CBASE + addr <= CONSTTOP && h < HALF && h % LONG == addr
    ensures var y := RelocateHalf(m, h, RCONST);
      y.Some? && y.value < HALF && y.value % LONG == CBASE + addr
  {
    hide ShortPut, ShortGet;
  }

  /** A pooled reference's half-word relocates to one that addresses its word. */
  lemma PooledHalf(m: Map, h: nat, addr: nat, long: bool)
    requires m.cbase == CBASE && CBASE + addr <= CONSTTOP
    requires h < HALF && h % Field(long) == addr && (!long ==> h < SEGBIT)
    ensures var y := RelocateHalf(m, h, RCONST + Width(long));
      y.Some? && y.value < HALF && Address(y.value, long) == CBASE + addr
  {
    hide RelocateHalf, ShortGet;
    if long { LongPooled(m, h, addr); } else { ShortPooled(m, h, addr); }
  }

  lemma ZeroHalf(m: Map, h: nat, long: bool)
    requires h < HALF && h % Field(long) == 0 && (!long ==> h < SEGBIT)
    ensures RelocateHalf(m, h, RABS + Width(long)) == Some(h) && Address(h, long) == 0
  {
  }

  lemma RecordWidth(m: Map, rel: nat, long: bool)
    requires rel % 8 == 0
    ensures var hr := rel + Width(long);
      RelType(hr) == RelType(rel) && BaseOf(m, hr) == BaseOf(m, rel) && (hr % 2 == RSHORT <==> !long)
  {
    assert (rel + Width(long)) / 8 == rel / 8 && (rel + Width(long)) / 64 == rel / 64;
  }

  /** Either the base is added to the field, or there is none to add. */
  lemma HalfIs(m: Map, h: nat, hr: nat)
    ensures var y := RelocateHalf(m, h, hr); y == RelocateField(h, BaseOf(m, hr), hr) || (BaseOf(m, hr) == 0 && y == Some(h))
  {
    hide RelocateField;
  }

  lemma PutBelow(h: nat, a: nat)
    requires h < HALF
    ensures ShortPut(h, a) < HALF
  {
  }

  lemma PutMisses(h: nat, a: nat)
    requires !ShortFits(a % LONG)
    ensures ShortGet(ShortPut(h, a)) != a % LONG
  {
    var b := a % LONG;
    Fields(h / (2 * SEGBIT), 0, h % SEGBIT / SHORTOFF, b % SHORTOFF);
  }

  lemma PutHits(h: nat, a: nat)
    ensures ShortGet(ShortPut(h, a)) == a % LONG <==> ShortFits(a % LONG)
  {
    hide ShortGet, ShortPut;
    assert ShortPut(h, a) == ShortPut(h, a % LONG) by { PutCut(h, a); }
    if ShortFits(a % LONG) { ShortRoundTrip(h, a % LONG); } else { PutMisses(h, a); }
  }

  lemma PutCut(h: nat, a: nat)
    ensures ShortPut(h, a) == ShortPut(h, a % LONG)
  {
  }

  lemma GetFits(h: nat)
    ensures ShortFits(ShortGet(h))
  {
  }

  lemma SumCut(val: nat, b: nat)
    ensures (b + val % LONG) % LONG == (val + b) % LONG
  {
  }

  lemma LongField(h: nat, b: nat)
    requires h < HALF
    ensures var y := h / LONG * LONG + (b + h % LONG) % LONG; y < HALF && y % LONG == (b + h % LONG) % LONG
  {
  }

  /** The field of an address comes out as the address plus its base, exactly when a field of its width can
      hold that; only a reference to the const segment is not checked for it. */
  lemma PlainHalf(m: Map, h: nat, rel: nat, long: bool, val: nat)
    requires h < HALF && rel % 8 == 0 && Address(h, long) == val % LONG && RelocateHalf(m, h, rel + Width(long)).Some?
    ensures var y, a := RelocateHalf(m, h, rel + Width(long)).value, (val + BaseOf(m, rel)) % LONG;
      && y < HALF && (Address(y, long) == a <==> long || ShortFits(a))
      && (!long && !ShortFits(a) ==> RelType(rel) == RCONST)
  {
    hide RelocateHalf, BaseOf, RelType, ShortPut, ShortGet;
    var hr := rel + Width(long);
    var b := BaseOf(m, rel);
    RecordWidth(m, rel, long);
    HalfIs(m, h, hr);
    SumCut(val, b);
    if long {
      LongField(h, b);
    } else {
      GetFits(h);
      PutBelow(h, b + ShortGet(h));
      PutHits(h, b + ShortGet(h));
    }
  }

  /** Half-words come out of pass 2 where pass 1 put them. */
  lemma HalfComesOut(m: Map, g: Segment, out: seq<nat>, p: nat)
    requires Whole(g) && g.count % 2 == 0 && p < g.count && Relocated(m, g, out)
    requires var y := RelocateHalf(m, g.code[p], g.rel[p]); y.Some? && y.value < HALF
    ensures RelocateHalf(m, g.code[p], g.rel[p]) == Some(HalfOut(out, p))
  {
    hide RelocateHalf;
    assert RelocateWord(m, g, p / 2) == Some(out[p / 2]);
    var x := RelocateHalf(m, g.code[p / 2 * 2], g.rel[p / 2 * 2]).value;
    var y := RelocateHalf(m, g.code[p / 2 * 2 + 1], g.rel[p / 2 * 2 + 1]).value;
    Halves(x, y % HALF, out[p / 2]);
  }

  /** Where an instruction points in the finished images. */
  ghost predicate Arrived(m: Map, out: seq<seq<nat>>, ref: Ref) {
    && ref.seg < |out| && ref.pos / 2 < |out[ref.seg]|
    && var a := Address(HalfOut(out[ref.seg], ref.pos), ref.long);
    match ref
    case Pooled(_, _, _, addr, val, rel) =>
      a == CBASE + addr && SCONST < |out| && addr < |out[SCONST]| && DotWord(m, val, rel) == Some(out[SCONST][addr])
    case ZeroWord(_, _, _) => a == 0
    case Plain(_, _, long, val, rel) =>
      var b := (val + BaseOf(m, rel)) % LONG;
      (a == b <==> long || ShortFits(b)) && (!long && !ShortFits(b) ==> RelType(rel) == RCONST)
  }

  /** After pass 2 every instruction that was given a literal addresses a word equal to what a `.word`
      of the literal would have been, or memory word 0 for a plain zero; and one that was given an address
      has it, unless it is short and points above the const segment. */
  lemma RefArrives(g: seq<Segment>, refs: seq<Ref>, syms: map<nat, nat>, out: seq<seq<nat>>, i: nat)
    requires Aligned(g) && AllRefer(g, refs) && i < |refs|
    requires ConstFits(g) && Emitted(Layout(g, syms), g, out)
    ensures Arrived(Layout(g, syms), out, refs[i])
  {
    hide RelocateHalf, RelocatePair, Address, HalfOut, Serves, DotWord, RelocateWord, ShortFits, BaseOf, RelType;
    var m := Layout(g, syms);
    var ref := refs[i];
    assert Refers(g, ref);
    assert Whole(g[ref.seg]) && Relocated(m, g[ref.seg], out[ref.seg]);
    var h := g[ref.seg].code[ref.pos];
    match ref
    case Pooled(_, _, long, addr, val, rel) =>
      assert addr < g[SCONST].count / 2 by { ServesWithin(g[SCONST], addr, val, rel); }
      PooledHalf(m, h, addr, long);
      HalfComesOut(m, g[ref.seg], out[ref.seg], ref.pos);
      ServingIsDotWord(m, g[SCONST], addr, val, rel);
      assert Relocated(m, g[SCONST], out[SCONST]);
    case ZeroWord(_, _, long) =>
      ZeroHalf(m, h, long);
      HalfComesOut(m, g[ref.seg], out[ref.seg], ref.pos);
    case Plain(_, _, long, val, rel) =>
      HalfRelocates(m, g[ref.seg], out[ref.seg], ref.pos);
      PlainHalf(m, h, rel, long, val);
      HalfComesOut(m, g[ref.seg], out[ref.seg], ref.pos);
  }

  lemma HalfRelocates(m: Map, g: Segment, out: seq<nat>, p: nat)
    requires Whole(g) && g.count % 2 == 0 && p < g.count && Relocated(m, g, out)
    ensures RelocateHalf(m, g.code[p], g.rel[p]).Some?
  {
    hide RelocateHalf;
    assert RelocateWord(m, g, p / 2) == Some(out[p / 2]);
  }

  lemma ServesWithin(g: Segment, a: nat, val: nat, rel: nat)
    requires Whole(g) && g.count % 2 == 0 && Serves(g, a, val, rel)
    ensures a < g.count / 2
  {
  }

  /** The end of pass 1 and the whole of pass 2. Whatever the run did, and whether or not its table of
      constants filled up, an assembly that succeeds has every literal in its place. */
  method Complete(p: Pass1, syms: map<nat, nat>) returns (out: Option<seq<seq<nat>>>)
    requires p.Valid()
    modifies p
    ensures p.Valid() && p.refs == old(p.refs) && Grown(old(p.seg), p.seg)
    ensures Aligned(p.seg)
    ensures out.Some? <==> ConstFits(p.seg) && forall s :: 0 <= s < SBSS ==> Relocates(Layout(p.seg, syms), p.seg[s])
    ensures out.Some? ==> Emitted(Layout(p.seg, syms), p.seg, out.value)
    ensures out.Some? ==> forall i :: 0 <= i < |p.refs| ==> Arrived(Layout(p.seg, syms), out.value, p.refs[i])
  {
    hide Filed, Serves, Refers, HalfAt, Extends, Relocates, Emitted, Layout, ConstFits;
    p.Finish();
    out := EmitSegments(p.seg, syms);
    if out.Some? {
      forall i | 0 <= i < |p.refs| ensures Arrived(Layout(p.seg, syms), out.value, p.refs[i]) {
        RefArrives(p.seg, p.refs, syms, out.value, i);
      }
    }
  }
}
