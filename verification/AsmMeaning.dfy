/** What the value and the segment of an expression say about it: once the segments have their bases,
    the expression is the value plus its segment's base. */
module AsmMeaning {
  import opened Common
  import opened AsmExpr
  import opened AsmShort

  /** Where each segment and undefined symbol ends up; nothing is at 0. */
  type Bases = Seg -> Word

  /** The number a tree stands for when segments and symbols are at the given bases. */
  function Meaning(env: Env, e: Tree, base: Bases): Res<Word> {
    match e
    case Lit(v) => Ok(v)
    case Id(id) => Ok(Plus(NameValue(env, id).0, base(NameValue(env, id).1)))
    case Here => Ok(Plus(env.dot.0, base(In(env.dot.1))))
    case Brace(x) => (match Meaning(env, x, base) case Fail(f) => Fail(f) case Ok(v) => Ok(Mantissa(v)))
    case Neg(x) => (match Meaning(env, x, base) case Fail(f) => Fail(f) case Ok(v) => Ok(Negate(v)))
    case Compl(x) => (match Meaning(env, x, base) case Fail(f) => Fail(f) case Ok(v) => Ok(Flip(v)))
    case Pos(x) => Meaning(env, x, base)
    case Bin(op, l, r) =>
      (match Meaning(env, l, base)
       case Fail(f) => Fail(f)
       case Ok(a) => (match Meaning(env, r, base) case Fail(f) => Fail(f) case Ok(b) => Pure(op, a, b)))
  }

  /** No braces around something relocatable. */
  predicate BracesAbsolute(env: Env, e: Tree) {
    match e
    case Lit(_) | Id(_) | Here => true
    case Brace(x) => BracesAbsolute(env, x) && Eval(env, x).Ok? && Eval(env, x).val.1 == Abs
    case Neg(x) => BracesAbsolute(env, x)
    case Compl(x) => BracesAbsolute(env, x)
    case Pos(x) => BracesAbsolute(env, x)
    case Bin(_, l, r) => BracesAbsolute(env, l) && BracesAbsolute(env, r)
  }

  /** The outermost braces cut no bit that adding the base would have changed. */
  predicate Uncut(env: Env, e: Tree, base: Bases) {
    match e
    case Lit(_) | Id(_) | Here | Neg(_) | Compl(_) => true
    case Brace(_) => Eval(env, e).Ok? ==> Plus(Eval(env, e).val.0, base(Eval(env, e).val.1)) < MANTISSA
    case Pos(x) => Uncut(env, x, base)
    case Bin(_, l, r) => Uncut(env, l, base) && Uncut(env, r, base)
  }

  // ----- sums ----------------------------------------------------------------------------------

  lemma SumLeft(a: Word, b: Word, x: Word)
    ensures Plus(Plus(a, x), b) == Plus(Plus(a, b), x) && Plus(a, Plus(b, x)) == Plus(Plus(a, b), x)
    ensures Minus(Plus(a, x), b) == Plus(Minus(a, b), x) && Plus(a, 0) == a
  {
  }

  /** What is added or taken away on both sides does not matter. */
  lemma SumCancels(a: Word, b: Word, x: Word)
    ensures Plus(a, x) == Plus(b, x) <==> a == b
    ensures Plus(x, a) == Plus(x, b) <==> a == b
    ensures Minus(a, x) == Minus(b, x) <==> a == b
  {
  }

  /** Cutting first and adding then is cutting a sum, up to what is cut. */
  lemma CutAdds(a: Word, x: Word)
    ensures Mantissa(Plus(Mantissa(a), x)) == Mantissa(Plus(a, x)) && Mantissa(Mantissa(a)) == Mantissa(a)
    ensures Mantissa(a) == a <==> a < MANTISSA
  {
  }

  lemma CutSums(a: Word, b: Word, x: Word)
    requires Mantissa(a) == Mantissa(b)
    ensures Mantissa(Plus(a, x)) == Mantissa(Plus(b, x)) && Mantissa(Plus(x, a)) == Mantissa(Plus(x, b))
    ensures Mantissa(Minus(a, x)) == Mantissa(Minus(b, x))
  {
    hide Mantissa;
    CutAdds(a, x);
    CutAdds(b, x);
    CutAdds(a, Negate(x));
    CutAdds(b, Negate(x));
    assert Plus(x, a) == Plus(a, x) && Plus(x, b) == Plus(b, x);
    assert Minus(a, x) == Plus(a, Negate(x)) && Minus(b, x) == Plus(b, Negate(x));
  }

  // ----- absolute expressions ------------------------------------------------------------------

  lemma OneRelocatable(op: Op, a: Value, b: Value)
    requires Apply(op, a, b).Ok?
    ensures a.1 == Abs || b.1 == Abs
    ensures a.1 == Abs && b.1 == Abs ==> Apply(op, a, b).val.1 == Abs && Pure(op, a.0, b.0) == Ok(Apply(op, a, b).val.0)
    ensures a.1 != Abs ==> (op == Add || op == Sub) && Apply(op, a, b).val.1 == a.1
    ensures b.1 != Abs ==> op == Add && Apply(op, a, b).val.1 == b.1
    ensures op == Add ==> Apply(op, a, b).val.0 == Plus(a.0, b.0)
    ensures op == Sub ==> Apply(op, a, b).val.0 == Minus(a.0, b.0)
  {
    hide Plus, Minus, Bits;
  }

  /** What is relative to nothing does not depend on the bases. */
  lemma {:induction false} AbsoluteMeans(env: Env, e: Tree, base: Bases)
    requires base(Abs) == 0 && Eval(env, e).Ok? && Eval(env, e).val.1 == Abs
    ensures Meaning(env, e, base) == Ok(Eval(env, e).val.0) && Uncut(env, e, base)
  {
    hide Plus, Minus, Negate, Flip, Mantissa, Bits, Apply, Pure;
    match e {
      case Lit(_) =>
      case Id(_) => SumLeft(NameValue(env, e.id).0, 0, 0);
      case Here =>
      case Brace(x) => {
        AbsoluteMeans(env, x, base);
        var v := Eval(env, x).val.0;
        SumLeft(Mantissa(v), 0, 0);
        CutAdds(v, 0);
        CutAdds(Mantissa(v), 0);
      }
      case Neg(x) => AbsoluteMeans(env, x, base);
      case Compl(x) => AbsoluteMeans(env, x, base);
      case Pos(x) => AbsoluteMeans(env, x, base);
      case Bin(op, l, r) => {
        OneRelocatable(op, Eval(env, l).val, Eval(env, r).val);
        AbsoluteMeans(env, l, base);
        AbsoluteMeans(env, r, base);
      }
    }
  }

  // ----- all expressions -----------------------------------------------------------------------

  /** m is v plus base b below the exponent field, and altogether exactly if ok. */
  predicate Stands(m: Res<Word>, v: Word, b: Word, ok: bool) {
    m.Ok? && Mantissa(m.val) == Mantissa(Plus(v, b)) && (m.val == Plus(v, b) <==> ok)
  }

  lemma BraceStands(m: Word, v: Word, b: Word, ok: bool)
    requires Stands(Ok(m), v, b, ok)
    ensures Stands(Ok(Mantissa(m)), Mantissa(v), b, Plus(Mantissa(v), b) < MANTISSA)
  {
    hide Plus, Mantissa;
    CutAdds(v, b);
    CutAdds(m, b);
    CutAdds(Plus(Mantissa(v), b), 0);
  }

  lemma SumStands(m: Word, v: Word, b: Word, ok: bool, c: Word)
    requires Stands(Ok(m), v, b, ok)
    ensures Stands(Ok(Plus(m, c)), Plus(v, c), b, ok) && Stands(Ok(Plus(c, m)), Plus(c, v), b, ok)
    ensures Stands(Ok(Minus(m, c)), Minus(v, c), b, ok)
  {
    hide Plus, Minus, Mantissa;
    SumLeft(v, c, b);
    SumLeft(c, v, b);
    SumCancels(m, Plus(v, b), c);
    CutSums(m, Plus(v, b), c);
  }

  lemma SelfStands(v: Word, b: Word)
    ensures Stands(Ok(Plus(v, b)), v, b, true)
  {
  }

  /** For every expression, and wherever the segments go: value plus base is the expression below the
      exponent field, and altogether exactly if the outermost braces cut nothing that matters. */
  lemma {:induction false} MeaningStands(env: Env, e: Tree, base: Bases)
    requires base(Abs) == 0 && Eval(env, e).Ok?
    ensures Stands(Meaning(env, e, base), Eval(env, e).val.0, base(Eval(env, e).val.1), Uncut(env, e, base))
    decreases e, 1
  {
    hide Plus, Minus, Negate, Flip, Mantissa, Bits, Apply, Pure, Stands;
    var v := Eval(env, e).val;
    if v.1 == Abs {
      AbsoluteMeans(env, e, base);
      SelfStands(v.0, 0);
      SumLeft(v.0, 0, 0);
    } else {
      match e {
        case Id(_) | Here => SelfStands(v.0, base(v.1));
        case Brace(x) => {
          var u := Eval(env, x).val;
          MeaningStands(env, x, base);
          StandsOk(Meaning(env, x, base), u.0, base(u.1), Uncut(env, x, base));
          BraceStands(Meaning(env, x, base).val, u.0, base(u.1), Uncut(env, x, base));
        }
        case Pos(x) => MeaningStands(env, x, base);
        case Bin(op, l, r) => BinStands(env, e, base);
        case _ =>
      }
    }
  }

  lemma StandsOk(m: Res<Word>, v: Word, b: Word, ok: bool)
    requires Stands(m, v, b, ok)
    ensures m == Ok(m.val)
  {
  }

  lemma {:induction false} BinStands(env: Env, e: Tree, base: Bases)
    requires base(Abs) == 0 && e.Bin? && Eval(env, e).Ok? && Eval(env, e).val.1 != Abs
    ensures Stands(Meaning(env, e, base), Eval(env, e).val.0, base(Eval(env, e).val.1), Uncut(env, e, base))
    decreases e, 0
  {
    hide Plus, Minus, Negate, Flip, Mantissa, Bits, Apply, Stands;
    var a, b := Eval(env, e.l).val, Eval(env, e.r).val;
    OneRelocatable(e.op, a, b);
    if a.1 != Abs {
      MeaningStands(env, e.l, base);
      AbsoluteMeans(env, e.r, base);
      StandsOk(Meaning(env, e.l, base), a.0, base(a.1), Uncut(env, e.l, base));
      SumStands(Meaning(env, e.l, base).val, a.0, base(a.1), Uncut(env, e.l, base), b.0);
    } else {
      AbsoluteMeans(env, e.l, base);
      MeaningStands(env, e.r, base);
      StandsOk(Meaning(env, e.r, base), b.0, base(b.1), Uncut(env, e.r, base));
      SumStands(Meaning(env, e.r, base).val, b.0, base(b.1), Uncut(env, e.r, base), a.0);
    }
  }

  // ----- what follows --------------------------------------------------------------------------

  /** Cutting to any number of bits that the mantissa has. */
  lemma CutFurther(a: Word, b: Word)
    requires Mantissa(a) == Mantissa(b)
    ensures a % HALF == b % HALF && a % LONG == b % LONG
  {
    assert MANTISSA == 0x2_0000 * HALF && MANTISSA == 0x400_0000 * LONG;
  }

  /** Braces or not, the 24 bits a symbol or half-word has, and the 15 an address has, are those of value plus base. */
  lemma AddressMeans(env: Env, e: Tree, base: Bases)
    requires base(Abs) == 0 && Eval(env, e).Ok?
    ensures var m, p := Meaning(env, e, base), Plus(Eval(env, e).val.0, base(Eval(env, e).val.1));
            m.Ok? && m.val % HALF == p % HALF && m.val % LONG == p % LONG
  {
    hide Plus, Mantissa, Meaning, Eval, Uncut;
    MeaningStands(env, e, base);
    CutFurther(Meaning(env, e, base).val, Plus(Eval(env, e).val.0, base(Eval(env, e).val.1)));
  }

  /** The whole word is that exactly if the outermost braces cut nothing that matters. */
  lemma WordMeans(env: Env, e: Tree, base: Bases)
    requires base(Abs) == 0 && Eval(env, e).Ok?
    ensures Meaning(env, e, base) == Ok(Plus(Eval(env, e).val.0, base(Eval(env, e).val.1))) <==> Uncut(env, e, base)
  {
    hide Plus, Mantissa, Meaning, Eval, Uncut;
    MeaningStands(env, e, base);
  }

  lemma {:induction false} BracesUncut(env: Env, e: Tree, base: Bases)
    requires base(Abs) == 0 && Eval(env, e).Ok? && BracesAbsolute(env, e)
    ensures Uncut(env, e, base)
  {
    hide Plus, Minus, Negate, Flip, Mantissa, Bits, Apply, Pure, Meaning;
    match e {
      case Brace(x) => AbsoluteMeans(env, e, base);
      case Pos(x) => BracesUncut(env, x, base);
      case Bin(op, l, r) => {
        BracesUncut(env, l, base);
        BracesUncut(env, r, base);
      }
      case _ =>
    }
  }

  /** So an expression without braces around anything relocatable always is value plus base. */
  lemma MeaningIs(env: Env, e: Tree, base: Bases)
    requires base(Abs) == 0 && Eval(env, e).Ok? && BracesAbsolute(env, e)
    ensures Meaning(env, e, base) == Ok(Plus(Eval(env, e).val.0, base(Eval(env, e).val.1)))
  {
    hide Plus, Mantissa, Meaning, Eval, Uncut, BracesAbsolute;
    BracesUncut(env, e, base);
    WordMeans(env, e, base);
  }
}
