/** Parsing a printed tree gives the tree's value and leaves the tokens after it. */
module AsmParse {
  import opened AsmExpr

  /** A term and the operators that follow it, down to level k. */
  function Level(env: Env, t: seq<Token>, k: nat, depth: nat): Out
    requires k > 0
  {
    match Term(env, t, depth)
    case Stop(f) => Stop(f)
    case Go(v, r) => Binary(env, r, v, k, depth)
  }

  /** Going on at level k with the value of a tree as left operand. */
  function Onward(env: Env, v: Res<Value>, rest: seq<Token>, k: nat, depth: nat): Out
    requires k > 0
  {
    match v
    case Fail(f) => Stop(f)
    case Ok(x) => Binary(env, rest, x, k, depth)
  }

  /** The next token does not bind more tightly than p. */
  predicate Loose(rest: seq<Token>, p: nat) {
    rest == [] || TokenPrec(rest[0]) <= p
  }

  lemma PrecBound(t: Token)
    ensures TokenPrec(t) <= 6
  {
  }

  /** No operator reaches level 7. */
  lemma NoSeven(env: Env, rest: seq<Token>, v: Value, depth: nat)
    ensures Binary(env, rest, v, 7, depth) == Go(v, rest)
  {
    if rest != [] {
      PrecBound(rest[0]);
    }
  }

  /** What a tree's first token can be. */
  lemma {:induction false} PrintStarts(e: Tree, p: nat)
    ensures Print(e, p) != [] && Starts(Print(e, p)[0])
    decreases e
  {
    match e
    case Bin(op, l, r) => PrintStarts(l, Prec(op));
    case Lit(_) | Id(_) | Here | Brace(_) | Neg(_) | Compl(_) | Pos(_) =>
  }

  /** A tree printed for level 7 is one term. */
  lemma {:induction false} TermOf(env: Env, x: Tree, rest: seq<Token>, depth: nat)
    requires Level(env, Print(x, 7) + rest, 7, depth) == Onward(env, Eval(env, x), rest, 7, depth)
    ensures Term(env, Print(x, 7) + rest, depth) == match Eval(env, x) { case Fail(f) => Stop(f) case Ok(v) => Go(v, rest) }
  {
    hide Print, Eval, Term;
    var t := Term(env, Print(x, 7) + rest, depth);
    if t.Go? {
      NoSeven(env, t.rest, t.val, depth);
    }
    if Eval(env, x).Ok? {
      NoSeven(env, rest, Eval(env, x).val, depth);
    }
  }

  /** An expression in parentheses or braces. */
  lemma {:induction false} Inside(env: Env, inner: seq<Token>, close: Token, rest: seq<Token>, v: Res<Value>, depth: nat)
    requires inner != [] && Starts(inner[0]) && (close == RPar || close == RBrace) && depth + 1 <= env.maxDepth
    requires Level(env, inner + ([close] + rest), 1, depth + 1) == Onward(env, v, [close] + rest, 1, depth + 1)
    ensures Whole(env, inner + ([close] + rest), depth) == match v { case Fail(f) => Stop(f) case Ok(x) => Go(x, [close] + rest) }
  {
    hide Term;
    var t := inner + ([close] + rest);
    assert t[0] == inner[0];
    assert ([close] + rest)[0] == close;
  }

  /** One operator between two printed trees. */
  lemma {:induction false} Between(env: Env, op: Op, a: Value, tail: seq<Token>, rest: seq<Token>, b: Res<Value>, k: nat, depth: nat)
    requires 1 <= k <= Prec(op) && Loose(rest, Prec(op))
    requires Level(env, tail, Prec(op) + 1, depth) == Onward(env, b, rest, Prec(op) + 1, depth)
    ensures Binary(env, [Oper(op)] + tail, a, k, depth) ==
            match b
            case Fail(f) => Stop(f)
            case Ok(y) => (match Apply(op, a, y) case Fail(f) => Stop(f) case Ok(z) => Binary(env, rest, z, k, depth))
  {
    hide Term, Apply;
    var t := [Oper(op)] + tail;
    assert t[0] == Oper(op) && t[1..] == tail;
    assert TokenPrec(t[0]) == Prec(op);
    if b.Ok? {
      assert Binary(env, rest, b.val, Prec(op) + 1, depth) == Go(b.val, rest);
    }
  }

  /** Precedence climbing: whatever stands before and after, the tokens of a tree count for the tree. */
  lemma {:induction false} Climb(env: Env, e: Tree, p: nat, rest: seq<Token>, k: nat, depth: nat)
    requires 1 <= k <= p <= 7 && Loose(rest, p) && depth + Nest(e, p) <= env.maxDepth
    ensures Level(env, Print(e, p) + rest, k, depth) == Onward(env, Eval(env, e), rest, k, depth)
    decreases e, if e.Bin? && Prec(e.op) < p then 1 else 0
  {
    hide Level, Onward, Print, Eval, Term, Binary;
    match e {
      case Lit(_) | Id(_) | Here => ClimbAtom(env, e, p, rest, k, depth);
      case Brace(x) => {
        Climb(env, x, 1, [RBrace] + rest, 1, depth + 1);
        ClimbBrace(env, x, p, rest, k, depth);
      }
      case Neg(x) => {
        Climb(env, x, 7, rest, 7, depth);
        ClimbPrefix(env, e, p, rest, k, depth);
      }
      case Compl(x) => {
        Climb(env, x, 7, rest, 7, depth);
        ClimbPrefix(env, e, p, rest, k, depth);
      }
      case Pos(x) => {
        Climb(env, x, 7, rest, 7, depth);
        ClimbPrefix(env, e, p, rest, k, depth);
      }
      case Bin(op, l, r) => {
        var q := Prec(op);
        if q < p {
          Climb(env, e, 1, [RPar] + rest, 1, depth + 1);
          ClimbPar(env, e, p, rest, k, depth);
        } else {
          var tail := Print(r, q + 1) + rest;
          Climb(env, l, q, [Oper(op)] + tail, k, depth);
          if Eval(env, l).Ok? {
            Climb(env, r, q + 1, rest, q + 1, depth);
          }
          ClimbBin(env, e, p, rest, k, depth);
        }
      }
    }
  }

  lemma ClimbAtom(env: Env, e: Tree, p: nat, rest: seq<Token>, k: nat, depth: nat)
    requires (e.Lit? || e.Id? || e.Here?) && k > 0
    ensures Level(env, Print(e, p) + rest, k, depth) == Onward(env, Eval(env, e), rest, k, depth)
  {
    hide Binary;
    var t := Print(e, p) + rest;
    assert t[1..] == rest;
    assert Term(env, t, depth) == Operand(env, t, depth);
  }

  lemma BraceText(x: Tree, p: nat, rest: seq<Token>)
    ensures Print(Brace(x), p) + rest == [LBrace] + (Print(x, 1) + ([RBrace] + rest))
  {
    assert Print(Brace(x), p) == [LBrace] + Print(x, 1) + [RBrace];
  }

  lemma BraceValue(env: Env, x: Tree)
    ensures Eval(env, Brace(x)) == match Eval(env, x) { case Fail(f) => Fail(f) case Ok(v) => Ok(Truncate(v)) }
  {
    hide Truncate;
  }

  /** What a brace does with what it encloses. */
  lemma BraceOperand(env: Env, inner: seq<Token>, rest: seq<Token>, v: Res<Value>, depth: nat)
    requires Whole(env, inner, depth) == match v { case Fail(f) => Stop(f) case Ok(x) => Go(x, [RBrace] + rest) }
    ensures Term(env, [LBrace] + inner, depth) == match v { case Fail(f) => Stop(f) case Ok(x) => Go(Truncate(x), rest) }
  {
    hide Truncate, Prefix, Apply, Binary, Whole;
    var t := [LBrace] + inner;
    assert t[0] == LBrace && t[1..] == inner;
    assert ([RBrace] + rest)[0] == RBrace && ([RBrace] + rest)[1..] == rest;
    assert Term(env, t, depth) == Operand(env, t, depth);
  }

  lemma {:induction false} ClimbBrace(env: Env, x: Tree, p: nat, rest: seq<Token>, k: nat, depth: nat)
    requires k > 0 && depth + 1 <= env.maxDepth
    requires Level(env, Print(x, 1) + ([RBrace] + rest), 1, depth + 1) == Onward(env, Eval(env, x), [RBrace] + rest, 1, depth + 1)
    ensures Level(env, Print(Brace(x), p) + rest, k, depth) == Onward(env, Eval(env, Brace(x)), rest, k, depth)
  {
    hide Truncate, Binary, Whole, Term, Operand, Print, Eval;
    PrintStarts(x, 1);
    Inside(env, Print(x, 1), RBrace, rest, Eval(env, x), depth);
    BraceText(x, p, rest);
    BraceValue(env, x);
    BraceOperand(env, Print(x, 1) + ([RBrace] + rest), rest, Eval(env, x), depth);
  }

  lemma {:induction false} ClimbPar(env: Env, e: Tree, p: nat, rest: seq<Token>, k: nat, depth: nat)
    requires e.Bin? && Prec(e.op) < p && k > 0 && depth + 1 <= env.maxDepth
    requires Level(env, Print(e, 1) + ([RPar] + rest), 1, depth + 1) == Onward(env, Eval(env, e), [RPar] + rest, 1, depth + 1)
    ensures Level(env, Print(e, p) + rest, k, depth) == Onward(env, Eval(env, e), rest, k, depth)
  {
    hide Truncate, Prefix, Apply, Eval, Binary, Whole;
    PrintStarts(e, 1);
    Inside(env, Print(e, 1), RPar, rest, Eval(env, e), depth);
    var t, inner := Print(e, p) + rest, Print(e, 1) + ([RPar] + rest);
    assert Print(e, p) == [LPar] + Print(e, 1) + [RPar];
    hide Print;
    assert t[0] == LPar && t[1..] == inner;
    assert Term(env, t, depth) == Operand(env, t, depth);
    assert ([RPar] + rest)[0] == RPar && ([RPar] + rest)[1..] == rest;
  }

  lemma {:induction false} ClimbPrefix(env: Env, e: Tree, p: nat, rest: seq<Token>, k: nat, depth: nat)
    requires (e.Neg? || e.Compl? || e.Pos?) && k > 0
    requires Level(env, Print(e.e, 7) + rest, 7, depth) == Onward(env, Eval(env, e.e), rest, 7, depth)
    ensures Level(env, Print(e, p) + rest, k, depth) == Onward(env, Eval(env, e), rest, k, depth)
  {
    hide Prefix, Truncate, Apply, Binary, Operand;
    TermOf(env, e.e, rest, depth);
    var t, inner := Print(e, p) + rest, Print(e.e, 7) + rest;
    var op := if e.Neg? then Sub else if e.Compl? then XorNot else Add;
    assert t[1..] == inner && t[0] == Oper(op);
    hide Print;
    assert Term(env, t, depth) ==
      match Term(env, inner, depth)
      case Stop(f) => Stop(f)
      case Go(v, r) => (match Prefix(op, v) case Fail(f) => Stop(f) case Ok(x) => Go(x, r));
  }

  lemma {:induction false} ClimbBin(env: Env, e: Tree, p: nat, rest: seq<Token>, k: nat, depth: nat)
    requires e.Bin? && p <= Prec(e.op) && 1 <= k <= p && Loose(rest, p)
    requires var q := Prec(e.op);
             var tail := Print(e.r, q + 1) + rest;
             && Level(env, Print(e.l, q) + ([Oper(e.op)] + tail), k, depth) == Onward(env, Eval(env, e.l), [Oper(e.op)] + tail, k, depth)
             && (Eval(env, e.l).Ok? ==> Level(env, tail, q + 1, depth) == Onward(env, Eval(env, e.r), rest, q + 1, depth))
    ensures Level(env, Print(e, p) + rest, k, depth) == Onward(env, Eval(env, e), rest, k, depth)
  {
    var q := Prec(e.op);
    var tail := Print(e.r, q + 1) + rest;
    assert Print(e, p) + rest == Print(e.l, q) + ([Oper(e.op)] + tail);
    hide Binary, Term, Print, Apply;
    if Eval(env, e.l).Ok? {
      Between(env, e.op, Eval(env, e.l).val, tail, rest, Eval(env, e.r), k, depth);
    }
  }

  /** parse_expr() on a printed tree, within the nesting limit and before a token that is no operator:
      the tree's value or error, and exactly those tokens consumed. */
  lemma {:induction false} ParsePrint(env: Env, e: Tree, rest: seq<Token>)
    requires Nest(e, 1) + 1 <= env.maxDepth && (rest == [] || TokenPrec(rest[0]) == 0)
    ensures Whole(env, Print(e, 1) + rest, 0) == match Eval(env, e) { case Fail(f) => Stop(f) case Ok(v) => Go(v, rest) }
  {
    Climb(env, e, 1, rest, 1, 1);
    PrintStarts(e, 1);
    hide Term, Print, Eval;
    assert (Print(e, 1) + rest)[0] == Print(e, 1)[0];
  }
}
