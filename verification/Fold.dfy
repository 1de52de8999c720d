/** The constant folder, and when an expression counts as constant. */
module Fold {
  import opened Syntax
  import opened Builtins

  // ------------------------------------------------------------- arithmetic

  /** Two's complement wrap-around of the 64-bit integer type. */
  function Wrap(n: int): Int64 {
    var m := n % TWO_64;
    if m < TWO_63 then m else m - TWO_64
  }

  /** Division that truncates toward zero. */
  function TruncDiv(a: int, b: int): int
    requires b != 0
  {
    if a >= 0 then a / b else -((-a) / b)
  }

  function TruncMod(a: int, b: int): int
    requires b != 0
  {
    a - TruncDiv(a, b) * b
  }

  /** The remainder in C's sense, by the magnitude of the dividend. */
  lemma RemainderOf(a: int, b: int)
    requires b != 0
    ensures TruncMod(a, b) == if a >= 0 then a % b else -((-a) % b)
  {
    if a < 0 {
      var n := -a;
      var q := n / b;
      NegatedProduct(q, b);
      assert n == q * b + n % b;
    }
  }

  lemma NegatedProduct(q: int, b: int)
    ensures (-q) * b == -(q * b)
  {
  }

  /** What `TruncDiv` and `TruncMod` have to be: quotient and remainder recompose the
      dividend, the remainder is smaller than the divisor and has the dividend's sign. */
  lemma TruncatingDivision(a: int, b: int)
    requires b != 0
    ensures a == TruncDiv(a, b) * b + TruncMod(a, b)
    ensures b > 0 ==> -b < TruncMod(a, b) < b
    ensures b < 0 ==> b < TruncMod(a, b) < -b
    ensures a >= 0 ==> TruncMod(a, b) >= 0
    ensures a <= 0 ==> TruncMod(a, b) <= 0
  {
    assert a == TruncDiv(a, b) * b + TruncMod(a, b);
    hide TruncDiv, TruncMod;
    RemainderOf(a, b);
  }

  function Pow2(k: nat): (p: int)
    ensures p > 0
  {
    if k == 0 then 1 else 2 * Pow2(k - 1)
  }

  /** What `&`, `|` and `^` do to one bit. */
  predicate OnBits(op: Op, x: bool, y: bool) {
    match op
    case OpAnd => x && y
    case OpOr => x || y
    case _ => x != y
  }

  /** Bit after bit from the lowest one on, and after `n` of them the sign. */
  function BitAfterBit(op: Op, a: int, b: int, n: nat): (r: int)
    ensures -Pow2(n) <= r < Pow2(n)
    decreases n
  {
    if n == 0 then if OnBits(op, a < 0, b < 0) then -1 else 0
    else 2 * BitAfterBit(op, a / 2, b / 2, n - 1) + if OnBits(op, a % 2 == 1, b % 2 == 1) then 1 else 0
  }

  function Bitwise(op: Op, a: Int64, b: Int64): Int64 {
    Pow2Is63();
    BitAfterBit(op, a, b, 63)
  }

  lemma Pow2More(k: nat)
    ensures Pow2(k + 7) == 128 * Pow2(k)
  {
    assert Pow2(k + 2) == 2 * Pow2(k + 1) && Pow2(k + 4) == 2 * Pow2(k + 3) && Pow2(k + 6) == 2 * Pow2(k + 5);
  }

  lemma Pow2Is63()
    ensures Pow2(63) == TWO_63
  {
    assert Pow2(0) == 1;
    hide Pow2;
    Pow2More(0);
    Pow2More(7);
    Pow2More(14);
    assert Pow2(21) == 0x20_0000;
    Pow2More(21);
    Pow2More(28);
    Pow2More(35);
    assert Pow2(42) == 0x400_0000_0000;
    Pow2More(42);
    Pow2More(49);
    Pow2More(56);
  }

  function OfBool(b: bool): Int64 {
    if b then 1 else 0
  }

  /** Floating point and the C library's text conversions.  A float is its bit pattern;
      only the pattern 0 is known, as the number zero that the folder compares with. */
  datatype FloatOps = FloatOps(
    add: (Bits64, Bits64) -> Bits64,
    sub: (Bits64, Bits64) -> Bits64,
    mul: (Bits64, Bits64) -> Bits64,
    div: (Bits64, Bits64) -> Bits64,
    neg: Bits64 -> Bits64,
    eq: (Bits64, Bits64) -> bool,
    lt: (Bits64, Bits64) -> bool,
    le: (Bits64, Bits64) -> bool,
    ofInt: Int64 -> Bits64,
    toInt: Bits64 -> Int64,
    showInt: Int64 -> string,
    showFloat: Bits64 -> string,
    readInt: string -> Int64,
    readFloat: string -> Bits64)
  {
    predicate IsZero(f: Bits64) {
      eq(f, 0)
    }
  }

  // ---------------------------------------------------------------- literals

  function MakeInt(i: Int64): Expr {
    Node(TInteger, false, IntLit(i))
  }

  function MakeFloat(f: Bits64): Expr {
    Node(TFloat, false, FloatLit(f))
  }

  function MakeString(s: string, ty: Type): Expr {
    Node(ty, false, StringLit(s))
  }

  predicate IsLiteral(e: Expr) {
    e.kind.IntLit? || e.kind.FloatLit? || e.kind.StringLit?
  }

  function AsInt(ops: FloatOps, bi: Tables, e: Expr): Option<Int64> {
    match e.kind
    case IntLit(i) => Some(i)
    case FloatLit(f) => Some(ops.toInt(f))
    case Ident(name) =>
      var c := ConstNamed(bi.consts, name);
      if c.Some? && c.value.ConstInt? then Some(c.value.i) else None
    case _ => None
  }

  function AsFloat(ops: FloatOps, bi: Tables, e: Expr): Option<Bits64> {
    match e.kind
    case IntLit(i) => Some(ops.ofInt(i))
    case FloatLit(f) => Some(f)
    case Ident(name) =>
      var c := ConstNamed(bi.consts, name);
      if c.Some? && c.value.ConstFloat? then Some(c.value.f)
      else if c.Some? && c.value.ConstInt? then Some(ops.ofInt(c.value.i))
      else None
    case _ => None
  }

  function AsString(bi: Tables, e: Expr): Option<string> {
    match e.kind
    case StringLit(s) => Some(s)
    case Ident(name) =>
      var c := ConstNamed(bi.consts, name);
      if c.Some? && c.value.ConstString? then Some(c.value.s)
      else if c.Some? && c.value.ConstKey? then Some(c.value.s)
      else None
    case _ => None
  }

  /** Is `e` an integer operand, as opposed to one that has to be read as a float? */
  predicate IsIntOperand(ops: FloatOps, bi: Tables, e: Expr) {
    AsInt(ops, bi, e).Some? && e.ty != TFloat && !e.kind.FloatLit?
  }

  // ----------------------------------------------------------------- folding

  function IntBinary(op: Op, a: Int64, b: Int64): Option<Int64> {
    match op
    case OpPlus => Some(Wrap(a + b))
    case OpMinus => Some(Wrap(a - b))
    case OpStar => Some(Wrap(a * b))
    case OpSlash => if b == 0 then None else Some(Wrap(TruncDiv(a, b)))
    case OpPercent => if b == 0 then None else Some(Wrap(TruncMod(a, b)))
    case OpAnd | OpOr | OpXor => Some(Bitwise(op, a, b))
    case OpShl => Some(Wrap(a * Pow2(b % 32)))
    case OpShr => Some(Wrap(a / Pow2(b % 32)))
    case OpEq => Some(OfBool(a == b))
    case OpNeq => Some(OfBool(a != b))
    case OpLt => Some(OfBool(a < b))
    case OpGt => Some(OfBool(a > b))
    case OpLe => Some(OfBool(a <= b))
    case OpGe => Some(OfBool(a >= b))
    case OpLAnd => Some(OfBool(a != 0 && b != 0))
    case OpLOr => Some(OfBool(a != 0 || b != 0))
    case _ => None
  }

  function FloatBinary(ops: FloatOps, op: Op, a: Bits64, b: Bits64): Option<Expr> {
    match op
    case OpPlus => Some(MakeFloat(ops.add(a, b)))
    case OpMinus => Some(MakeFloat(ops.sub(a, b)))
    case OpStar => Some(MakeFloat(ops.mul(a, b)))
    case OpSlash => if ops.IsZero(b) then None else Some(MakeFloat(ops.div(a, b)))
    case OpEq => Some(MakeInt(OfBool(ops.eq(a, b))))
    case OpNeq => Some(MakeInt(OfBool(!ops.eq(a, b))))
    case OpLt => Some(MakeInt(OfBool(ops.lt(a, b))))
    case OpGt => Some(MakeInt(OfBool(ops.lt(b, a))))
    case OpLe => Some(MakeInt(OfBool(ops.le(a, b))))
    case OpGe => Some(MakeInt(OfBool(ops.le(b, a))))
    case OpLAnd => Some(MakeInt(OfBool(!ops.IsZero(a) && !ops.IsZero(b))))
    case OpLOr => Some(MakeInt(OfBool(!ops.IsZero(a) || !ops.IsZero(b))))
    case _ => None
  }

  function FoldBinary(ops: FloatOps, bi: Tables, op: Op, l: Expr, r: Expr): Option<Expr> {
    var sa, sb := AsString(bi, l), AsString(bi, r);
    if op == OpPlus && sa.Some? && sb.Some? then Some(MakeString(sa.value + sb.value, TString))
    else if IsIntOperand(ops, bi, l) && IsIntOperand(ops, bi, r) && IsBinaryOp(op) then
      var n := IntBinary(op, AsInt(ops, bi, l).value, AsInt(ops, bi, r).value);
      if n.Some? then Some(MakeInt(n.value)) else None
    else
      var fa, fb := AsFloat(ops, bi, l), AsFloat(ops, bi, r);
      if fa.Some? && fb.Some? then FloatBinary(ops, op, fa.value, fb.value) else None
  }

  function FoldUnary(ops: FloatOps, bi: Tables, op: Op, inner: Expr): Option<Expr> {
    var f := AsFloat(ops, bi, inner);
    if IsIntOperand(ops, bi, inner) && op in {OpMinus, OpPlus, OpTilde, OpNot} then
      var a: int := AsInt(ops, bi, inner).value;
      Some(MakeInt(
        if op == OpMinus then Wrap(-a)
        else if op == OpPlus then a
        else if op == OpTilde then -a - 1
        else OfBool(a == 0)))
    else if f.Some? then
      match op
      case OpMinus => Some(MakeFloat(ops.neg(f.value)))
      case OpPlus => Some(MakeFloat(f.value))
      case OpNot => Some(MakeInt(OfBool(ops.IsZero(f.value))))
      case _ => None
    else None
  }

  function FoldCast(ops: FloatOps, bi: Tables, to: Type, inner: Expr): Option<Expr> {
    var s, i, f := AsString(bi, inner), AsInt(ops, bi, inner), AsFloat(ops, bi, inner);
    match to
    case TString =>
      if s.Some? then Some(MakeString(s.value, TString))
      else if IsIntOperand(ops, bi, inner) then Some(MakeString(ops.showInt(i.value), TString))
      else if f.Some? then Some(MakeString(ops.showFloat(f.value), TString))
      else None
    case TInteger =>
      if i.Some? then Some(MakeInt(i.value))
      else if f.Some? then Some(MakeInt(ops.toInt(f.value)))
      else if s.Some? then Some(MakeInt(ops.readInt(s.value)))
      else None
    case TFloat =>
      if f.Some? then Some(MakeFloat(f.value))
      else if i.Some? then Some(MakeFloat(ops.ofInt(i.value)))
      else if s.Some? then Some(MakeFloat(ops.readFloat(s.value)))
      else None
    case TKey =>
      if s.Some? then Some(MakeString(s.value, TKey)) else None
    case _ => None
  }

  /** The component of a vector or rotation literal that `m` names. */
  function Component(e: Expr, m: char): Option<Expr> {
    match e.kind
    case VectorLit(x, y, z) =>
      if m == 'x' then Some(x) else if m == 'y' then Some(y) else if m == 'z' then Some(z) else None
    case RotLit(x, y, z, w) =>
      if m == 'x' then Some(x) else if m == 'y' then Some(y) else if m == 'z' then Some(z)
      else if m == 's' then Some(w) else None
    case _ => None
  }

  function FoldMember(ops: FloatOps, base: Expr, m: char): Option<Expr> {
    var c := Component(base, m);
    if c.None? then None
    else match c.value.kind
      case FloatLit(f) => Some(MakeFloat(f))
      case IntLit(i) => Some(MakeFloat(ops.ofInt(i)))
      case _ => None
  }

  function FoldConst(c: ConstValue): Expr {
    match c
    case ConstInt(i) => MakeInt(i)
    case ConstFloat(f) => MakeFloat(f)
    case ConstString(s) => MakeString(s, TString)
    case ConstKey(s) => MakeString(s, TKey)
  }

  /** The folded tree.  Postfix operators, assignments and calls are left as they are. */
  function FoldExpr(ops: FloatOps, bi: Tables, e: Expr): Expr
    decreases e
  {
    match e.kind
    case Ident(name) =>
      var c := ConstNamed(bi.consts, name);
      if c.Some? then FoldConst(c.value) else e
    case VectorLit(x, y, z) =>
      e.(kind := VectorLit(FoldExpr(ops, bi, x), FoldExpr(ops, bi, y), FoldExpr(ops, bi, z)))
    case RotLit(x, y, z, w) =>
      e.(kind := RotLit(FoldExpr(ops, bi, x), FoldExpr(ops, bi, y), FoldExpr(ops, bi, z), FoldExpr(ops, bi, w)))
    case ListLit(items) => e.(kind := ListLit(FoldAll(ops, bi, items)))
    case Unary(op, inner) =>
      var x := FoldExpr(ops, bi, inner);
      FoldUnary(ops, bi, op, x).GetOr(e.(kind := Unary(op, x)))
    case Binary(op, l, r) =>
      var a, b := FoldExpr(ops, bi, l), FoldExpr(ops, bi, r);
      FoldBinary(ops, bi, op, a, b).GetOr(e.(kind := Binary(op, a, b)))
    case Cast(to, inner) =>
      var x := FoldExpr(ops, bi, inner);
      FoldCast(ops, bi, to, x).GetOr(e.(kind := Cast(to, x)))
    case Member(base, m) =>
      var x := FoldExpr(ops, bi, base);
      FoldMember(ops, x, m).GetOr(e.(kind := Member(x, m)))
    case _ => e
  }

  function FoldAll(ops: FloatOps, bi: Tables, es: seq<Expr>): (r: seq<Expr>)
    ensures |r| == |es|
    ensures forall i :: 0 <= i < |es| ==> r[i] == FoldExpr(ops, bi, es[i])
    decreases es
  {
    if es == [] then [] else [FoldExpr(ops, bi, es[0])] + FoldAll(ops, bi, es[1..])
  }

  // ---------------------------------------------------------- constantness

  predicate IsConstant(bi: Tables, e: Expr)
    decreases e
  {
    match e.kind
    case IntLit(_) => true
    case FloatLit(_) => true
    case StringLit(_) => true
    case VectorLit(x, y, z) => IsConstant(bi, x) && IsConstant(bi, y) && IsConstant(bi, z)
    case RotLit(x, y, z, w) =>
      IsConstant(bi, x) && IsConstant(bi, y) && IsConstant(bi, z) && IsConstant(bi, w)
    case ListLit(items) => forall i :: 0 <= i < |items| ==> IsConstant(bi, items[i])
    case Ident(name) => ConstNamed(bi.consts, name).Some?
    case Cast(_, inner) => IsConstant(bi, inner)
    case Unary(_, inner) => IsConstant(bi, inner)
    case Binary(_, l, r) => IsConstant(bi, l) && IsConstant(bi, r)
    case Member(base, _) => IsConstant(bi, base)
    case Postfix(_, _) => false
    case Assign(_, _, _) => false
    case Call(_, _) => false
  }
}
