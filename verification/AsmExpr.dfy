/** The assembler's expressions: trees, their printing and their meaning, and precedence climbing over
    tokens (cmd/as/expr.c). */
module AsmExpr {
  import opened Common

  /** A 48-bit value. */
  type Word = w: nat | w < WORDS

  datatype Op = Or | Xor | XorNot | And | Shl | Shr | Add | Sub | Mul | Div | Mod

  /** What an expression is relative to: nothing, a segment, or an undefined symbol. */
  datatype Seg = Abs | In(seg: nat) | Ext(id: nat)

  datatype Token = Num(v: Word) | Name(id: nat) | Dot | LPar | RPar | LBrace | RBrace | Oper(op: Op) | Other(kind: nat)

  datatype Err = OperandMissed | BadParens | TooComplex | DivByZero | ModByZero | TooDeep

  /** What the names and the location counter stand for. */
  datatype Env = Env(names: map<nat, (Word, Seg)>, dot: (Word, nat), maxDepth: nat)

  datatype Tree = Lit(v: Word) | Id(id: nat) | Here | Brace(e: Tree) | Neg(e: Tree) | Compl(e: Tree) | Pos(e: Tree) | Bin(op: Op, l: Tree, r: Tree)

  datatype Res<T> = Fail(err: Err) | Ok(val: T)

  type Value = (Word, Seg)

  function Prec(op: Op): (p: nat)
    ensures 1 <= p <= 6
  {
    match op
    case Or => 1
    case Xor | XorNot => 2
    case And => 3
    case Shl | Shr => 4
    case Add | Sub => 5
    case Mul | Div | Mod => 6
  }

  /** precedence(): 0 for a token that is no operator. */
  function TokenPrec(t: Token): nat {
    if t.Oper? then Prec(t.op) else 0
  }

  // ----- applying operators --------------------------------------------------------------------

  /** What the bits below the exponent field, the top seven, can hold. */
  const MANTISSA: nat := 0x200_0000_0000

  /** Addition and subtraction wrap. */
  function Plus(a: Word, b: Word): Word {
    if a as int + b as int < WORDS then a as int + b as int else a as int + b as int - WORDS
  }

  function Minus(a: Word, b: Word): Word {
    if a >= b then a as int - b as int else a as int - b as int + WORDS
  }

  function Negate(a: Word): Word {
    Minus(0, a)
  }

  function Flip(a: Word): Word {
    WORDS - 1 - a as int
  }

  function Mantissa(a: Word): Word {
    a as int % MANTISSA
  }

  function ToBits(a: Word): bv48 {
    a as bv48
  }

  function FromBits(b: bv48): Word {
    b as int
  }

  /** A shift takes the low six bits of its right operand as count. */
  function ShiftCount(w: Word): nat {
    w as int % 64
  }

  function ShiftLeft(a: Word, n: nat): Word {
    if n >= 48 then 0 else FromBits(ToBits(a) << n)
  }

  function ShiftRight(a: Word, n: nat): Word {
    if n >= 48 then 0 else FromBits(ToBits(a) >> n)
  }

  /** The low 24 bits. */
  function Low(a: Word): (r: nat)
    ensures r < HALF
  {
    a as int % HALF
  }

  function Product(x: nat, y: nat): Word {
    x * y % WORDS
  }

  lemma MulGe(y: nat, q: nat)
    requires y >= 1
    ensures y * q >= q
  {
    assert y * q == (y - 1) * q + q;
  }

  function Quotient(x: nat, y: nat): (q: nat)
    requires y > 0
    ensures q <= x
  {
    MulGe(y, x / y);
    x / y
  }

  function Remainder(x: nat, y: nat): (r: nat)
    requires y > 0
    ensures r < y
  {
    x % y
  }

  function AndBits(a: Word, b: Word): Word {
    FromBits(ToBits(a) & ToBits(b))
  }

  function OrBits(a: Word, b: Word): Word {
    FromBits(ToBits(a) | ToBits(b))
  }

  function XorBits(a: Word, b: Word): Word {
    FromBits(ToBits(a) ^ ToBits(b))
  }

  /** Every operator but + and -; * / % take 24 bits of each side. */
  function Bits(op: Op, a: Word, b: Word): Res<Word> {
    match op
    case And => Ok(AndBits(a, b))
    case Or => Ok(OrBits(a, b))
    case Xor => Ok(XorBits(a, b))
    case XorNot => Ok(XorBits(a, Flip(b)))
    case Shl => Ok(ShiftLeft(a, ShiftCount(b)))
    case Shr => Ok(ShiftRight(a, ShiftCount(b)))
    case Mul => Ok(Product(Low(a), Low(b)))
    case Div => if Low(b) == 0 then Fail(DivByZero) else Ok(Quotient(Low(a), Low(b)))
    case Mod => if Low(b) == 0 then Fail(ModByZero) else Ok(Remainder(Low(a), Low(b)))
    case Add | Sub => Fail(TooComplex)
  }

  /** An operator on plain numbers. */
  function Pure(op: Op, a: Word, b: Word): Res<Word> {
    if op == Add then Ok(Plus(a, b)) else if op == Sub then Ok(Minus(a, b)) else Bits(op, a, b)
  }

  /** apply_op(). */
  function Apply(op: Op, l: Value, r: Value): Res<Value> {
    match op
    case Add =>
      if l.1 == Abs then Ok((Plus(l.0, r.0), r.1)) else if r.1 != Abs then Fail(TooComplex) else Ok((Plus(l.0, r.0), l.1))
    case Sub =>
      if r.1 != Abs then Fail(TooComplex) else Ok((Minus(l.0, r.0), l.1))
    case _ =>
      if l.1 != Abs || r.1 != Abs then Fail(TooComplex)
      else
        match Bits(op, l.0, r.0)
        case Fail(e) => Fail(e)
        case Ok(v) => Ok((v, Abs))
  }

  /** A unary - or ~ demands an absolute operand; + does nothing. */
  function Prefix(op: Op, v: Value): Res<Value> {
    match op
    case Sub => if v.1 != Abs then Fail(TooComplex) else Ok((Negate(v.0), Abs))
    case XorNot => if v.1 != Abs then Fail(TooComplex) else Ok((Flip(v.0), Abs))
    case _ => Ok(v)
  }

  /** Braces clear the exponent field. */
  function Truncate(v: Value): Value {
    (Mantissa(v.0), v.1)
  }

  predicate IsPrefix(t: Token) {
    t == Oper(Sub) || t == Oper(XorNot) || t == Oper(Add)
  }

  function NameValue(env: Env, id: nat): Value {
    if id in env.names && !env.names[id].1.Ext? then env.names[id] else (0, Ext(id))
  }

  // ----- trees ---------------------------------------------------------------------------------

  /** The value and segment of a tree, or the first error from left to right. */
  function Eval(env: Env, e: Tree): Res<Value> {
    match e
    case Lit(v) => Ok((v, Abs))
    case Id(id) => Ok(NameValue(env, id))
    case Here => Ok((env.dot.0, In(env.dot.1)))
    case Brace(x) => (match Eval(env, x) case Fail(f) => Fail(f) case Ok(v) => Ok(Truncate(v)))
    case Neg(x) => (match Eval(env, x) case Fail(f) => Fail(f) case Ok(v) => Prefix(Sub, v))
    case Compl(x) => (match Eval(env, x) case Fail(f) => Fail(f) case Ok(v) => Prefix(XorNot, v))
    case Pos(x) => (match Eval(env, x) case Fail(f) => Fail(f) case Ok(v) => Prefix(Add, v))
    case Bin(op, l, r) =>
      (match Eval(env, l)
       case Fail(f) => Fail(f)
       case Ok(a) => (match Eval(env, r) case Fail(f) => Fail(f) case Ok(b) => Apply(op, a, b)))
  }

  /** The tokens of e where operators that bind at least as tightly as p may stand open, with no
      parentheses but those that needs. */
  function Print(e: Tree, p: nat): seq<Token>
    decreases e, if e.Bin? && Prec(e.op) < p then 1 else 0
  {
    match e
    case Lit(v) => [Num(v)]
    case Id(id) => [Name(id)]
    case Here => [Dot]
    case Brace(x) => [LBrace] + Print(x, 1) + [RBrace]
    case Neg(x) => [Oper(Sub)] + Print(x, 7)
    case Compl(x) => [Oper(XorNot)] + Print(x, 7)
    case Pos(x) => [Oper(Add)] + Print(x, 7)
    case Bin(op, l, r) =>
      if Prec(op) < p then [LPar] + (Print(l, Prec(op)) + [Oper(op)] + Print(r, Prec(op) + 1)) + [RPar]
      else Print(l, Prec(op)) + [Oper(op)] + Print(r, Prec(op) + 1)
  }

  function Max(a: nat, b: nat): nat {
    if a > b then a else b
  }

  /** How deep the parentheses and braces of that printing nest. */
  function Nest(e: Tree, p: nat): nat {
    match e
    case Lit(_) | Id(_) | Here => 0
    case Brace(x) => 1 + Nest(x, 1)
    case Neg(x) => Nest(x, 7)
    case Compl(x) => Nest(x, 7)
    case Pos(x) => Nest(x, 7)
    case Bin(op, l, r) => Max(Nest(l, Prec(op)), Nest(r, Prec(op) + 1)) + if Prec(op) < p then 1 else 0
  }

  // ----- the parser ----------------------------------------------------------------------------

  /** A value and the tokens left. */
  datatype Out = Stop(err: Err) | Go(val: Value, rest: seq<Token>)

  /** A token that can start an expression. */
  predicate Starts(t: Token) {
    t.Num? || t.Name? || t.Dot? || t.LPar? || t.LBrace? || t == Oper(Sub) || t == Oper(XorNot) || t == Oper(Add)
  }

  /** What follows an opening parenthesis or brace. */
  function Closed(o: Out, close: Token): (c: Out)
    ensures c.Go? ==> o.Go? && |c.rest| < |o.rest|
  {
    match o
    case Stop(f) => Stop(f)
    case Go(v, r) => if r == [] || r[0] != close then Stop(BadParens) else Go(v, r[1..])
  }

  /** parse_operand(), with depth expressions open. */
  function Operand(env: Env, t: seq<Token>, depth: nat): (o: Out)
    ensures o.Go? ==> |o.rest| < |t|
    decreases |t|, 1
  {
    if t == [] then Stop(OperandMissed)
    else
      match t[0]
      case Num(v) => Go((v, Abs), t[1..])
      case Name(id) => Go(NameValue(env, id), t[1..])
      case Dot => Go((env.dot.0, In(env.dot.1)), t[1..])
      case LPar => Closed(Whole(env, t[1..], depth), RPar)
      case LBrace => (match Closed(Whole(env, t[1..], depth), RBrace) case Stop(f) => Stop(f) case Go(v, r) => Go(Truncate(v), r))
      case _ => Stop(OperandMissed)
  }

  /** parse_term(). */
  function Term(env: Env, t: seq<Token>, depth: nat): (o: Out)
    ensures o.Go? ==> |o.rest| < |t|
    decreases |t|, 2
  {
    if t != [] && IsPrefix(t[0]) then
      match Term(env, t[1..], depth)
      case Stop(f) => Stop(f)
      case Go(v, r) => (match Prefix(t[0].op, v) case Fail(f) => Stop(f) case Ok(x) => Go(x, r))
    else Operand(env, t, depth)
  }

  /** parse_binary(): operators that bind at least as tightly as minprec folded onto lhs. */
  function Binary(env: Env, t: seq<Token>, lhs: Value, minprec: nat, depth: nat): (o: Out)
    requires minprec > 0
    ensures o.Go? ==> |o.rest| <= |t|
    decreases |t|, 0
  {
    if t == [] || TokenPrec(t[0]) < minprec then Go(lhs, t)
    else
      match Term(env, t[1..], depth)
      case Stop(f) => Stop(f)
      case Go(v, r) =>
        (match Binary(env, r, v, TokenPrec(t[0]) + 1, depth)
         case Stop(f) => Stop(f)
         case Go(rhs, r') =>
           (match Apply(t[0].op, lhs, rhs)
            case Fail(f) => Stop(f)
            case Ok(lhs') => Binary(env, r', lhs', minprec, depth)))
  }

  /** parse_expr(), inside depth others: nothing at all is 0. */
  function Whole(env: Env, t: seq<Token>, depth: nat): (o: Out)
    ensures o.Go? ==> |o.rest| <= |t|
    decreases |t|, 3
  {
    if depth + 1 > env.maxDepth then Stop(TooDeep)
    else if t == [] || !Starts(t[0]) then Go((0, Abs), t)
    else
      match Term(env, t, depth + 1)
      case Stop(f) => Stop(f)
      case Go(v, r) => Binary(env, r, v, 1, depth + 1)
  }
}
