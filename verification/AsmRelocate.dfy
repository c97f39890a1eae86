/** What becomes of an expression: the words, half-words, symbols and address fields that pass 2 makes of
    its value and segment, against what the expression means at the final addresses
    (cmd/as/expr.c, cmd/as/pass1.c, cmd/as/pass2.c). */
module AsmRelocate {
  import opened Common
  import opened AsmExpr
  import opened AsmParse
  import opened AsmMeaning
  import opened AsmSegments
  import opened AsmShort
  import opened AsmPass1
  import opened AsmPass2

  /** The relocation record for a segment. */
  function RelOf(s: Seg): nat {
    match s
    case Abs => RABS
    case In(k) =>
      if k == SCONST then RCONST
      else if k == STEXT then RTEXT
      else if k == SDATA then RDATA
      else if k == SSTRNG then RSTRNG
      else if k == SBSS then RBSS
      else RABS
    case Ext(id) => REXT + 64 * id
  }

  /** Where pass 2 puts the segments, and the symbols defined by then. */
  function Placement(m: Map): Bases {
    s => if BaseOf(m, RelOf(s)) < WORDS then BaseOf(m, RelOf(s)) else 0
  }

  /** Segments and symbols have addresses of at most 24 bits. */
  ghost predicate Small(m: Map) {
    m.cbase < HALF && m.tbase < HALF && m.dbase < HALF && m.abase < HALF && m.bbase < HALF && forall id :: id in m.syms ==> m.syms[id] < HALF
  }

  lemma PlacementIs(m: Map, s: Seg)
    requires Small(m)
    ensures Placement(m)(s) == BaseOf(m, RelOf(s)) < HALF && Placement(m)(Abs) == 0 && RelOf(s) % 8 == 0
  {
  }

  // ----- arithmetic ----------------------------------------------------------------------------

  /** The word v with b added into its low 15 bits. */
  function Patched(v: Word, b: nat): nat {
    v / LONG * LONG + (b + v % LONG) % LONG
  }

  lemma PlusCut(v: Word, b: Word)
    ensures Plus(v, b) % LONG == (v % HALF + b) % LONG && Plus(v, b) % HALF == (v % HALF + b) % HALF
  {
    assert WORDS == HALF * HALF && HALF == 0x200 * LONG;
  }

  lemma PatchedExact(v: Word, b: nat)
    requires v % LONG + b < LONG
    ensures b < WORDS && Patched(v, b) == Plus(v, b)
  {
    assert WORDS == 0x2_0000_0000 * LONG;
  }

  lemma PatchedOff(v: Word, b: nat)
    requires b < HALF && v % LONG + b >= LONG
    ensures Patched(v, b) < WORDS && Mantissa(Patched(v, b)) != Mantissa(Plus(v, b))
  {
    var w := Patched(v, b);
    var d := v % LONG + b - (b + v % LONG) % LONG;
    assert 0 < d < MANTISSA && w + d == v + b;
  }

  lemma DivLong(x: nat, y: nat)
    requires y < LONG
    ensures (x * LONG + y) / LONG == x && (x * LONG + y) % LONG == y
  {
  }

  lemma ModHalf(x: nat, y: nat)
    requires y < LONG
    ensures (x * LONG + y) % HALF == x % 0x200 * LONG + y
  {
    assert HALF == 0x200 * LONG;
    assert x * LONG + y == x / 0x200 * HALF + (x % 0x200 * LONG + y);
  }

  lemma PatchedHalf(v: Word, b: nat)
    requires b < HALF
    ensures Patched(v % HALF, b) == Plus(v, b) % HALF <==> (v % LONG + b) % HALF < LONG
  {
    var x, y := v % HALF / LONG, v % HALF % LONG;
    var k, z := (y + b) / LONG, (y + b) % LONG;
    PlusCut(v, b);
    ModHalf(x + k, z);
    ModHalf(k, z);
    assert x < 0x200 && k <= 0x200;
    assert v % LONG == y by { LowLong(v); }
  }

  lemma LowLong(v: nat)
    ensures v % HALF % LONG == v % LONG
  {
    var x, y := v % HALF / LONG, v % HALF % LONG;
    assert HALF == 0x200 * LONG;
    assert v == (v / HALF * 0x200 + x) * LONG + y;
    DivLong(v / HALF * 0x200 + x, y);
  }

  lemma PatchedLow(v: Word, b: nat)
    ensures Patched(v % HALF, b) < HALF && v / HALF * HALF + Patched(v % HALF, b) == Patched(v, b)
  {
    var x, y := v % HALF / LONG, v % HALF % LONG;
    assert v == (v / HALF * 0x200 + x) * LONG + y;
    DivLong(v / HALF * 0x200 + x, y);
    assert x < 0x200;
  }

  // ----- what pass 2 emits ---------------------------------------------------------------------

  lemma HalfPatched(m: Map, h: Word, rel: nat)
    requires rel % 8 == 0
    ensures RelocateHalf(m, h, rel) == Some(Patched(h, BaseOf(m, rel)))
  {
    hide RelType, BaseOf, RelocateHalf;
    RecordWidth(m, rel, true);
    HalfIs(m, h, rel);
  }

  lemma WordPatched(m: Map, v: Word, rel: nat)
    requires rel % 8 == 0
    ensures DotWord(m, v, rel) == Some(Patched(v, BaseOf(m, rel)))
  {
    hide BaseOf, RelocateHalf;
    var b := BaseOf(m, rel);
    HalfPatched(m, v % HALF, rel);
    AbsoluteStays(m, v / HALF, RABS);
    PatchedLow(v, b);
  }

  // ----- what that means -----------------------------------------------------------------------

  /** A symbol, whose 24 bits pass 2 adds the base to, is what its expression means in 24 bits. */
  lemma SymbolMeans(env: Env, e: Tree, m: Map)
    requires Small(m) && Eval(env, e).Ok?
    ensures var v, x := Eval(env, e).val, Meaning(env, e, Placement(m));
      x.Ok? && (v.0 % HALF + BaseOf(m, RelOf(v.1))) % HALF == x.val % HALF
  {
    hide Plus, BaseOf, RelOf, Placement, Meaning, Eval;
    var v := Eval(env, e).val;
    PlacementIs(m, v.1);
    AddressMeans(env, e, Placement(m));
    PlusCut(v.0, Placement(m)(v.1));
  }

  /** The address of an expression, in 15 bits, is what it means. */
  lemma FieldMeans(env: Env, e: Tree, m: Map)
    requires Small(m) && Eval(env, e).Ok?
    ensures var v, x := Eval(env, e).val, Meaning(env, e, Placement(m));
      x.Ok? && (v.0 % HALF + BaseOf(m, RelOf(v.1))) % LONG == x.val % LONG
  {
    hide Plus, BaseOf, RelOf, Placement, Meaning, Eval;
    var v := Eval(env, e).val;
    PlacementIs(m, v.1);
    AddressMeans(env, e, Placement(m));
    PlusCut(v.0, Placement(m)(v.1));
  }

  /** A `.half` is what its expression means in 24 bits, exactly if no carry leaves the 15-bit field. */
  lemma HalfMeans(env: Env, e: Tree, m: Map)
    requires Small(m) && Eval(env, e).Ok?
    ensures var v, x := Eval(env, e).val, Meaning(env, e, Placement(m));
      x.Ok? && (RelocateHalf(m, v.0 % HALF, RelOf(v.1)) == Some(x.val % HALF) <==> (v.0 % LONG + BaseOf(m, RelOf(v.1))) % HALF < LONG)
  {
    hide Plus, BaseOf, RelOf, Placement, Meaning, Eval, RelocateHalf, Patched;
    var v := Eval(env, e).val;
    PlacementIs(m, v.1);
    AddressMeans(env, e, Placement(m));
    HalfPatched(m, v.0 % HALF, RelOf(v.1));
    PatchedHalf(v.0, BaseOf(m, RelOf(v.1)));
  }

  /** A `.word`, and so a literal, is what its expression means exactly if no carry leaves the 15-bit field
      and the outermost braces cut nothing that matters. */
  lemma WordIff(env: Env, e: Tree, m: Map)
    requires Small(m) && Eval(env, e).Ok?
    ensures var v, x := Eval(env, e).val, Meaning(env, e, Placement(m));
      && x.Ok?
      && (DotWord(m, v.0, RelOf(v.1)) == Some(x.val) <==> v.0 % LONG + BaseOf(m, RelOf(v.1)) < LONG && Uncut(env, e, Placement(m)))
  {
    hide Plus, Mantissa, BaseOf, RelOf, Placement, Meaning, Eval, Uncut, DotWord, Patched;
    var v := Eval(env, e).val;
    var b := BaseOf(m, RelOf(v.1));
    PlacementIs(m, v.1);
    MeaningStands(env, e, Placement(m));
    WordPatched(m, v.0, RelOf(v.1));
    if v.0 % LONG + b < LONG { PatchedExact(v.0, b); } else { PatchedOff(v.0, b); }
  }

  /** From the tokens of an expression to what is emitted for it. */
  lemma ParsedMeans(env: Env, e: Tree, rest: seq<Token>, m: Map)
    requires Nest(e, 1) + 1 <= env.maxDepth && (rest == [] || TokenPrec(rest[0]) == 0)
    requires Small(m) && Eval(env, e).Ok?
    ensures var o, x := AsmExpr.Whole(env, Print(e, 1) + rest, 0), Meaning(env, e, Placement(m));
      && o.Go? && o.rest == rest && x.Ok?
      && (o.val.0 % HALF + BaseOf(m, RelOf(o.val.1))) % LONG == x.val % LONG
      && (DotWord(m, o.val.0, RelOf(o.val.1)) == Some(x.val) <==>
            o.val.0 % LONG + BaseOf(m, RelOf(o.val.1)) < LONG && Uncut(env, e, Placement(m)))
  {
    hide BaseOf, RelOf, Placement, Meaning, Eval, Uncut, DotWord, AsmExpr.Whole, Print;
    ParsePrint(env, e, rest);
    FieldMeans(env, e, m);
    WordIff(env, e, m);
  }

  /** An instruction given an expression as its address has what the expression means in its field, or is
      short and reaches above the const segment. */
  lemma InstructionMeans(env: Env, e: Tree, m: Map, out: seq<seq<nat>>, ref: Ref)
    requires Small(m) && Eval(env, e).Ok? && ref.Plain? && Arrived(m, out, ref)
    requires ref.val == Eval(env, e).val.0 % HALF && ref.rel == RelOf(Eval(env, e).val.1)
    ensures var x := Meaning(env, e, Placement(m));
      && x.Ok?
      && (Address(HalfOut(out[ref.seg], ref.pos), ref.long) == x.val % LONG <==> ref.long || ShortFits(x.val % LONG))
      && (!ref.long && !ShortFits(x.val % LONG) ==> RelType(ref.rel) == RCONST)
  {
    hide BaseOf, RelOf, Placement, Meaning, Eval, RelType, ShortFits, AsmShort.Address, HalfOut;
    FieldMeans(env, e, m);
  }

  /** An instruction given an expression as a literal addresses a word that is what the expression means,
      exactly under the condition for a `.word`. */
  lemma LiteralMeans(env: Env, e: Tree, m: Map, out: seq<seq<nat>>, ref: Ref)
    requires Small(m) && Eval(env, e).Ok? && ref.Pooled? && Arrived(m, out, ref)
    requires ref.val == Eval(env, e).val.0 && ref.rel == RelOf(Eval(env, e).val.1)
    ensures var v, x := Eval(env, e).val, Meaning(env, e, Placement(m));
      && x.Ok? && SCONST < |out| && Address(HalfOut(out[ref.seg], ref.pos), ref.long) == CBASE + ref.addr && ref.addr < |out[SCONST]|
      && (out[SCONST][ref.addr] == x.val <==> v.0 % LONG + BaseOf(m, RelOf(v.1)) < LONG && Uncut(env, e, Placement(m)))
  {
    hide BaseOf, RelOf, Placement, Meaning, Eval, Uncut, AsmShort.Address, HalfOut, DotWord;
    WordIff(env, e, m);
  }

  // ----- where it fails ------------------------------------------------------------------------

  /** A label 0 at the start of the text, and the text at word 8. */
  const START: Env := Env(map[0 := (0, In(STEXT))], (0, STEXT), 8)
  const AT8: Map := Map(8, 8, 8, 8, 8, map[])

  /** `.word l - 1`: the borrow stays in the upper bits. */
  lemma BelowStart()
    ensures var e := Bin(Sub, Id(0), Lit(1));
      && Eval(START, e) == Ok((WORDS - 1, In(STEXT))) && Meaning(START, e, Placement(AT8)) == Ok(7)
      && DotWord(AT8, WORDS - 1, RTEXT) == Some(WORDS - LONG + 7)
  {
    var e := Bin(Sub, Id(0), Lit(1));
    assert Eval(START, e) == Ok((WORDS - 1, In(STEXT)));
    assert Placement(AT8)(In(STEXT)) == 8;
    WordPatched(AT8, WORDS - 1, RTEXT);
    assert BaseOf(AT8, RTEXT) == 8;
  }

  /** `.word {l - 5} + 5`: no carry, but the braces cut the borrow before the base came. */
  lemma CutBorrow()
    ensures var e := Bin(Add, Brace(Bin(Sub, Id(0), Lit(5))), Lit(5));
      && Eval(START, e) == Ok((MANTISSA, In(STEXT))) && Meaning(START, e, Placement(AT8)) == Ok(8)
      && DotWord(AT8, MANTISSA, RTEXT) == Some(MANTISSA + 8)
  {
    var x := Brace(Bin(Sub, Id(0), Lit(5)));
    assert Eval(START, Bin(Sub, Id(0), Lit(5))) == Ok((WORDS - 5, In(STEXT)));
    assert Eval(START, x) == Ok((MANTISSA - 5, In(STEXT)));
    assert Placement(AT8)(In(STEXT)) == 8;
    assert Meaning(START, Bin(Sub, Id(0), Lit(5)), Placement(AT8)) == Ok(3);
    assert Meaning(START, x, Placement(AT8)) == Ok(3);
    WordPatched(AT8, MANTISSA, RTEXT);
    assert BaseOf(AT8, RTEXT) == 8;
  }

  /** A short instruction given the const segment's start plus 4088, which is word 4096: it addresses word 0. */
  lemma ShortPast()
    ensures RelocateHalf(AT8, 4088, RCONST + RSHORT) == Some(0)
  {
  }
}
