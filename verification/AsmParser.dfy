/** The assembler's expression parser as it runs: a cursor over the tokens, with the value in intval. */
module AsmParser {
  import opened AsmExpr
  import opened AsmParse
  import opened AsmMeaning

  class Parser {
    const env: Env
    const toks: seq<Token>
    var pos: nat
    var intval: Word
    var extref: nat
    var exprdepth: nat

    /** At the first of the tokens. */
    constructor (env: Env, toks: seq<Token>)
      ensures this.env == env && this.toks == toks && pos == 0 && exprdepth == 0 && Left() == toks
    {
      this.env, this.toks := env, toks;
      pos, intval, extref, exprdepth := 0, 0, 0, 0;
    }

    /** The tokens still to come. */
    ghost function Left(): seq<Token>
      requires pos <= |toks|
      reads this
    {
      toks[pos..]
    }

    /** Where the parser is after o: the value is in intval, the segment in r, and an undefined symbol
        it is relative to in extref. */
    ghost predicate Did(o: Out, r: Res<Seg>, depth: nat, ext: nat)
      reads this
    {
      match o
      case Stop(f) => r == Fail(f)
      case Go(v, rest) =>
        && r == Ok(v.1) && intval == v.0 && pos <= |toks| && toks[pos..] == rest && exprdepth == depth
        && extref == if v.1.Ext? then v.1.id else ext
    }

    /** next_token: a number's value goes to intval; at the end the token is none. */
    method NextToken() returns (t: Token)
      requires pos <= |toks|
      modifies this`pos, this`intval
      ensures if old(pos) < |toks| then t == toks[old(pos)] && pos == old(pos) + 1 else t == Other(0) && pos == old(pos)
      ensures intval == if old(pos) < |toks| && t.Num? then t.v else old(intval)
    {
      if pos == |toks| {
        return Other(0);
      }
      t := toks[pos];
      pos := pos + 1;
      if t.Num? {
        intval := t.v;
      }
    }

    method ParseOperand() returns (r: Res<Seg>)
      requires pos <= |toks|
      modifies this
      ensures Did(Operand(env, old(Left()), old(exprdepth)), r, old(exprdepth), old(extref))
      decreases |toks| - pos, 1
    {
      hide Plus, Minus, Negate, Flip, Mantissa, Bits, Term, Binary;
      ghost var t := Left();
      var tok := NextToken();
      assert t != [] ==> toks[pos..] == t[1..];
      match tok {
        case Num(_) => r := Ok(Abs);
        case Name(id) => {
          intval := 0;
          if id !in env.names || env.names[id].1.Ext? {
            extref := id;
            r := Ok(Ext(id));
          } else {
            intval := env.names[id].0;
            r := Ok(env.names[id].1);
          }
        }
        case Dot => {
          intval := env.dot.0;
          r := Ok(In(env.dot.1));
        }
        case LPar => r := ParseClosed(RPar);
        case LBrace => {
          r := ParseClosed(RBrace);
          if r.Ok? {
            intval := Mantissa(intval);
          }
        }
        case _ => r := Fail(OperandMissed);
      }
    }

    /** An expression and the token that closes it. */
    method ParseClosed(close: Token) returns (r: Res<Seg>)
      requires pos <= |toks| && (close == RPar || close == RBrace)
      modifies this
      ensures Did(Closed(Whole(env, old(Left()), old(exprdepth)), close), r, old(exprdepth), old(extref))
      decreases |toks| - pos, 6
    {
      hide Whole;
      r := ParseExpr();
      if r.Ok? {
        ghost var t := Left();
        var v := intval;
        var tok := NextToken();
        assert t != [] ==> toks[pos..] == t[1..];
        if tok != close {
          r := Fail(BadParens);
        }
        intval := v;
      }
    }

    method ParseTerm() returns (r: Res<Seg>)
      requires pos <= |toks|
      modifies this
      ensures Did(Term(env, old(Left()), old(exprdepth)), r, old(exprdepth), old(extref))
      decreases |toks| - pos, 2
    {
      hide Plus, Minus, Negate, Flip, Mantissa, Bits, Operand, Binary;
      ghost var t := Left();
      var start := pos;
      var tok := NextToken();
      assert t != [] ==> toks[pos..] == t[1..];
      match tok {
        case Oper(Sub) => {
          r := ParseTerm();
          if r.Ok? && r.val != Abs {
            r := Fail(TooComplex);
          }
          intval := Negate(intval);
        }
        case Oper(XorNot) => {
          r := ParseTerm();
          if r.Ok? && r.val != Abs {
            r := Fail(TooComplex);
          }
          intval := Flip(intval);
        }
        case Oper(Add) => r := ParseTerm();
        case _ => {
          pos := start;
          r := ParseOperand();
        }
      }
    }

    /** parse_binary: operators folded onto the value lhs of segment lseg. */
    method ParseBinary(lhs0: Word, lseg0: Seg, minprec: nat) returns (lhs: Word, r: Res<Seg>)
      requires pos <= |toks| && minprec > 0
      modifies this
      ensures match Binary(env, old(Left()), (lhs0, lseg0), minprec, old(exprdepth))
              case Stop(f) => r == Fail(f)
              case Go(v, rest) =>
                && r == Ok(v.1) && lhs == v.0 && pos <= |toks| && toks[pos..] == rest && exprdepth == old(exprdepth)
                && extref == if v.1.Ext? && v.1 != lseg0 then v.1.id else old(extref)
      decreases |toks| - pos, 0
    {
      hide Plus, Minus, Negate, Flip, Mantissa, Bits, Term, Prec;
      lhs := lhs0;
      var lseg := lseg0;
      ghost var spec := Binary(env, Left(), (lhs0, lseg0), minprec, exprdepth);
      while true
        invariant pos <= |toks| && exprdepth == old(exprdepth) && pos >= old(pos)
        invariant Binary(env, Left(), (lhs, lseg), minprec, exprdepth) == spec
        invariant extref == if lseg.Ext? && lseg != lseg0 then lseg.id else old(extref)
        invariant lseg0 != Abs ==> lseg == lseg0
        decreases |toks| - pos
      {
        ghost var t := Left();
        var start := pos;
        var tok := NextToken();
        var prec := TokenPrec(tok);
        if prec < minprec {
          pos := start;
          assert t == [] || t[0] == tok;
          return lhs, Ok(lseg);
        }
        assert t != [] && t[0] == tok && toks[pos..] == t[1..];
        var rhs, rseg := ParseRight(prec);
        if rseg.Fail? {
          return lhs, rseg;
        }
        var res := Apply(tok.op, (lhs, lseg), (rhs, rseg.val));
        if res.Fail? {
          return lhs, Fail(res.err);
        }
        OneSegment(tok.op, (lhs, lseg), (rhs, rseg.val));
        lhs, lseg := res.val.0, res.val.1;
      }
    }

    /** The right operand of an operator of precedence prec. */
    method ParseRight(prec: nat) returns (rhs: Word, r: Res<Seg>)
      requires pos <= |toks|
      modifies this
      ensures match Level(env, old(Left()), prec + 1, old(exprdepth))
              case Stop(f) => r == Fail(f)
              case Go(v, rest) =>
                && r == Ok(v.1) && rhs == v.0 && pos <= |toks| && toks[pos..] == rest && exprdepth == old(exprdepth)
                && extref == (if v.1.Ext? then v.1.id else old(extref)) && pos > old(pos)
      decreases |toks| - pos, 3
    {
      hide Binary, Term;
      var seg := ParseTerm();
      rhs := intval;
      if seg.Fail? {
        return rhs, seg;
      }
      ghost var v := Term(env, old(Left()), old(exprdepth)).val;
      rhs, r := ParseBinary(rhs, seg.val, prec + 1);
      if r.Ok? {
        BinaryKeeps(env, Term(env, old(Left()), old(exprdepth)).rest, v, prec + 1, old(exprdepth));
      }
    }

    /** parse_expr: the value is left in intval, its low 24 bits returned. */
    method ParseExpr() returns (r: Res<Seg>)
      requires pos <= |toks|
      modifies this
      ensures Did(Whole(env, old(Left()), old(exprdepth)), r, old(exprdepth), old(extref))
      decreases |toks| - pos, 5
    {
      hide Binary, Term;
      ghost var t := Left();
      exprdepth := exprdepth + 1;
      if exprdepth > env.maxDepth {
        return Fail(TooDeep);
      }
      var start := pos;
      var tok := NextToken();
      pos := start;
      assert t == [] || t[0] == tok;
      if !Starts(tok) {
        intval := 0;
        exprdepth := exprdepth - 1;
        return Ok(Abs);
      }
      var rez;
      rez, r := ParseRight(0);
      if r.Fail? {
        return;
      }
      intval := rez;
      exprdepth := exprdepth - 1;
    }
  }

  /** A result that is relative to something is so by one of its operands. */
  lemma OneSegment(op: Op, a: Value, b: Value)
    requires Apply(op, a, b).Ok?
    ensures Apply(op, a, b).val.1 == (if a.1 != Abs then a.1 else b.1) || Apply(op, a, b).val.1 == Abs
    ensures a.1 == Abs || b.1 == Abs
    ensures a.1 != Abs ==> Apply(op, a, b).val.1 == a.1
    ensures b.1 != Abs ==> Apply(op, a, b).val.1 == b.1
  {
    hide Plus, Minus, Bits;
  }

  /** What the left operand is relative to, the whole is. */
  lemma {:induction false} BinaryKeeps(env: Env, t: seq<Token>, lhs: Value, k: nat, depth: nat)
    requires k > 0 && Binary(env, t, lhs, k, depth).Go?
    ensures lhs.1 != Abs ==> Binary(env, t, lhs, k, depth).val.1 == lhs.1
    decreases |t|
  {
    hide Plus, Minus, Bits, Term, Apply, Prec;
    if t != [] && TokenPrec(t[0]) >= k {
      var v := Term(env, t[1..], depth);
      var o := Binary(env, v.rest, v.val, TokenPrec(t[0]) + 1, depth);
      OneSegment(t[0].op, lhs, o.val);
      BinaryKeeps(env, o.rest, Apply(t[0].op, lhs, o.val).val, k, depth);
    }
  }

  /** What parsing a printed tree tells about it, wherever the segments go: the value plus the base of the
      segment is the tree below the exponent field, and altogether exactly if the outermost braces cut
      nothing that matters. */
  lemma {:induction false} ParseMeans(env: Env, e: Tree, rest: seq<Token>, base: Bases)
    requires Nest(e, 1) + 1 <= env.maxDepth && (rest == [] || TokenPrec(rest[0]) == 0) && Eval(env, e).Ok? && base(Abs) == 0
    ensures var o := Whole(env, Print(e, 1) + rest, 0);
            o.Go? && o.rest == rest && Stands(Meaning(env, e, base), o.val.0, base(o.val.1), Uncut(env, e, base))
  {
    hide Whole, Print, Eval, Stands, Meaning, Uncut;
    ParsePrint(env, e, rest);
    MeaningStands(env, e, base);
  }
}
