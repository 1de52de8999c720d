/** What expressions mean: a strict, left-to-right evaluator that knows nothing of the
    folder. */
module Eval {
  import opened Syntax
  import opened Builtins
  import opened Words
  import Fold

  /** The floating-point operations are all that the evaluator takes from elsewhere. */
  type FloatOps = Fold.FloatOps

  datatype Vec = Vec(x: Bits64, y: Bits64, z: Bits64)
  datatype Rot = Rot(x: Bits64, y: Bits64, z: Bits64, s: Bits64)

  datatype Value =
    | VInt(i: Int64)
    | VFloat(f: Bits64)
    | VString(s: string)
    | VKey(s: string)
    | VVector(v: Vec)
    | VRotation(r: Rot)
    | VList(items: seq<Value>)

  function TypeOf(v: Value): Type {
    match v
    case VInt(_) => TInteger
    case VFloat(_) => TFloat
    case VString(_) => TString
    case VKey(_) => TKey
    case VVector(_) => TVector
    case VRotation(_) => TRotation
    case VList(_) => TList
  }

  /** A value, a division by zero, or no meaning at all. */
  datatype Outcome = Val(v: Value) | DivZero | Stuck

  /** Everything that is not defined here: variables and effects, which may do anything,
      and operations on vectors, rotations, text and lists, of which only the types matter. */
  datatype World = World(
    effect: Expr -> Option<Value>,
    compare: (Op, Value, Value) -> bool,
    truth: Value -> bool,
    show: Value -> string,
    readVector: string -> Vec,
    readRotation: string -> Rot,
    vectors: (Op, Vec, Vec) -> Vec,
    dot: (Vec, Vec) -> Bits64,
    scale: (Op, Vec, Bits64) -> Vec,
    rotate: (Op, Vec, Rot) -> Vec,
    rotations: (Op, Rot, Rot) -> Rot)

  /** A float that equals the number zero. */
  predicate IsNull(ops: FloatOps, f: Bits64) {
    ops.eq(f, 0)
  }

  /** The one fact about floats that is needed: only the integer 0 converts to zero. */
  ghost predicate FloatLaws(ops: FloatOps) {
    forall i: Int64 :: IsNull(ops, ops.ofInt(i)) <==> i == 0
  }

  /** Truth values are the integers 1 and 0. */
  function Bool(b: bool): Value {
    VInt(if b then 1 else 0)
  }

  // ---------------------------------------------------------------- arithmetic

  function Sign(n: int): int {
    if n < 0 then -1 else if n == 0 then 0 else 1
  }

  function Magnitude(n: int): nat {
    if n < 0 then -n else n
  }

  /** The exact result of an integer operator; none for a division by zero. */
  function IntResult(op: Op, a: Int64, b: Int64): Option<int> {
    match op
    case OpPlus => Some(a + b)
    case OpMinus => Some(a - b)
    case OpStar => Some(a * b)
    case OpSlash => if b == 0 then None else Some(Sign(a) * Sign(b) * (Magnitude(a) / Magnitude(b)))
    case OpPercent => if b == 0 then None else Some(Sign(a) * (Magnitude(a) % Magnitude(b)))
    case OpAnd | OpOr | OpXor => Some(Words.Bitwise(op, a, b))
    case OpShl => Some(Doubled(a, b % 32))
    case OpShr => Some(Halved(a, b % 32))
    case _ => None
  }

  predicate IsNumber(v: Value) {
    v.VInt? || v.VFloat?
  }

  function ToFloat(ops: FloatOps, v: Value): Bits64
    requires IsNumber(v)
  {
    if v.VInt? then ops.ofInt(v.i) else v.f
  }

  predicate NonZero(ops: FloatOps, v: Value)
    requires IsNumber(v)
  {
    if v.VInt? then v.i != 0 else !IsNull(ops, v.f)
  }

  predicate Truth(ops: FloatOps, w: World, v: Value) {
    if IsNumber(v) then NonZero(ops, v) else w.truth(v)
  }

  predicate CompareInts(op: Op, a: int, b: int) {
    match op
    case OpEq => a == b
    case OpNeq => a != b
    case OpLt => a < b
    case OpGt => a > b
    case OpLe => a <= b
    case _ => a >= b
  }

  predicate CompareFloats(ops: FloatOps, op: Op, a: Bits64, b: Bits64) {
    match op
    case OpEq => ops.eq(a, b)
    case OpNeq => !ops.eq(a, b)
    case OpLt => ops.lt(a, b)
    case OpGt => ops.lt(b, a)
    case OpLe => ops.le(a, b)
    case _ => ops.le(b, a)
  }

  predicate IsRelation(op: Op) {
    op == OpEq || op == OpNeq || op == OpLt || op == OpGt || op == OpLe || op == OpGe
  }

  predicate CompareNumbers(ops: FloatOps, op: Op, a: Value, b: Value)
    requires IsNumber(a) && IsNumber(b)
  {
    if a.VInt? && b.VInt? then CompareInts(op, a.i, b.i)
    else CompareFloats(ops, op, ToFloat(ops, a), ToFloat(ops, b))
  }

  function Integers(op: Op, a: Int64, b: Int64): Outcome {
    var n := IntResult(op, a, b);
    if n.Some? then Val(VInt(Wrapped(n.value)))
    else if op == OpSlash || op == OpPercent then DivZero
    else Stuck
  }

  function Floats(ops: FloatOps, op: Op, a: Bits64, b: Bits64): Outcome {
    match op
    case OpPlus => Val(VFloat(ops.add(a, b)))
    case OpMinus => Val(VFloat(ops.sub(a, b)))
    case OpStar => Val(VFloat(ops.mul(a, b)))
    case OpSlash => if IsNull(ops, b) then DivZero else Val(VFloat(ops.div(a, b)))
    case _ => Stuck
  }

  /** Operators on anything that is not a pair of numbers. */
  function Others(ops: FloatOps, w: World, op: Op, a: Value, b: Value): Outcome {
    if op == OpPlus && a.VList? && b.VList? then Val(VList(a.items + b.items))
    else if op == OpPlus && a.VList? then Val(VList(a.items + [b]))
    else if op == OpPlus && b.VList? then Val(VList([a] + b.items))
    else if op == OpPlus && a.VString? && b.VString? then Val(VString(a.s + b.s))
    else if op == OpStar && a.VVector? && b.VVector? then Val(VFloat(w.dot(a.v, b.v)))
    else if (op == OpPlus || op == OpMinus || op == OpPercent) && a.VVector? && b.VVector? then
      Val(VVector(w.vectors(op, a.v, b.v)))
    else if (op == OpStar || op == OpSlash) && a.VVector? && IsNumber(b) then
      if op == OpSlash && IsNull(ops, ToFloat(ops, b)) then DivZero
      else Val(VVector(w.scale(op, a.v, ToFloat(ops, b))))
    else if op == OpStar && IsNumber(a) && b.VVector? then Val(VVector(w.scale(op, b.v, ToFloat(ops, a))))
    else if (op == OpStar || op == OpSlash) && a.VVector? && b.VRotation? then Val(VVector(w.rotate(op, a.v, b.r)))
    else if (op == OpPlus || op == OpMinus || op == OpStar || op == OpSlash) && a.VRotation? && b.VRotation? then
      Val(VRotation(w.rotations(op, a.r, b.r)))
    else Stuck
  }

  /** Operators on two numbers. */
  function Numbers(ops: FloatOps, op: Op, a: Value, b: Value): Outcome
    requires IsNumber(a) && IsNumber(b)
  {
    if op == OpLAnd then Val(Bool(NonZero(ops, a) && NonZero(ops, b)))
    else if op == OpLOr then Val(Bool(NonZero(ops, a) || NonZero(ops, b)))
    else if IsRelation(op) then Val(Bool(CompareNumbers(ops, op, a, b)))
    else if a.VInt? && b.VInt? then Integers(op, a.i, b.i)
    else Floats(ops, op, ToFloat(ops, a), ToFloat(ops, b))
  }

  function ApplyBinary(ops: FloatOps, w: World, op: Op, a: Value, b: Value): Outcome {
    if IsNumber(a) && IsNumber(b) then Numbers(ops, op, a, b)
    else if op == OpLAnd then Val(Bool(Truth(ops, w, a) && Truth(ops, w, b)))
    else if op == OpLOr then Val(Bool(Truth(ops, w, a) || Truth(ops, w, b)))
    else if IsRelation(op) then Val(Bool(w.compare(op, a, b)))
    else Others(ops, w, op, a, b)
  }

  function NegVec(ops: FloatOps, v: Vec): Vec {
    Vec(ops.neg(v.x), ops.neg(v.y), ops.neg(v.z))
  }

  function NegRot(ops: FloatOps, r: Rot): Rot {
    Rot(ops.neg(r.x), ops.neg(r.y), ops.neg(r.z), ops.neg(r.s))
  }

  function ApplyUnary(ops: FloatOps, w: World, op: Op, v: Value): Outcome {
    match op
    case OpNot => if IsNumber(v) then Val(Bool(!NonZero(ops, v))) else Stuck
    case OpTilde => if v.VInt? then Val(VInt(Wrapped(-1 - v.i))) else Stuck
    case OpPlus => if IsNumber(v) || v.VVector? || v.VRotation? then Val(v) else Stuck
    case OpMinus =>
      (match v
       case VInt(i) => var n: int := i; Val(VInt(Wrapped(-n)))
       case VFloat(f) => Val(VFloat(ops.neg(f)))
       case VVector(x) => Val(VVector(NegVec(ops, x)))
       case VRotation(r) => Val(VRotation(NegRot(ops, r)))
       case _ => Stuck)
    case _ => Stuck
  }

  function ApplyCast(ops: FloatOps, w: World, to: Type, v: Value): Outcome {
    if TypeOf(v) == to then Val(v)
    else match to
      case TString =>
        (match v
         case VKey(s) => Val(VString(s))
         case VInt(i) => Val(VString(ops.showInt(i)))
         case VFloat(f) => Val(VString(ops.showFloat(f)))
         case _ => Val(VString(w.show(v))))
      case TList => Val(VList([v]))
      case TInteger =>
        if v.VFloat? then Val(VInt(ops.toInt(v.f))) else if v.VString? then Val(VInt(ops.readInt(v.s))) else Stuck
      case TFloat =>
        if v.VInt? then Val(VFloat(ops.ofInt(v.i))) else if v.VString? then Val(VFloat(ops.readFloat(v.s))) else Stuck
      case TKey => if v.VString? then Val(VKey(v.s)) else Stuck
      case TVector => if v.VString? then Val(VVector(w.readVector(v.s))) else Stuck
      case TRotation => if v.VString? then Val(VRotation(w.readRotation(v.s))) else Stuck
      case _ => Stuck
  }

  function ApplyMember(v: Value, m: char): Outcome {
    match v
    case VVector(x) =>
      if m == 'x' then Val(VFloat(x.x)) else if m == 'y' then Val(VFloat(x.y))
      else if m == 'z' then Val(VFloat(x.z)) else Stuck
    case VRotation(r) =>
      if m == 'x' then Val(VFloat(r.x)) else if m == 'y' then Val(VFloat(r.y))
      else if m == 'z' then Val(VFloat(r.z)) else if m == 's' then Val(VFloat(r.s)) else Stuck
    case _ => Stuck
  }

  function ConstMeaning(c: ConstValue): Value {
    match c
    case ConstInt(i) => VInt(i)
    case ConstFloat(f) => VFloat(f)
    case ConstString(s) => VString(s)
    case ConstKey(s) => VKey(s)
  }

  /** A component of a vector or rotation has to be a number, and becomes a float. */
  function Component(ops: FloatOps, o: Outcome): Outcome {
    if !o.Val? then o else if IsNumber(o.v) then Val(VFloat(ToFloat(ops, o.v))) else Stuck
  }

  // ---------------------------------------------------------------- evaluation

  function Effect(w: World, e: Expr): Outcome {
    var v := w.effect(e);
    if v.Some? then Val(v.value) else Stuck
  }

  /** The meaning of an annotated expression.  An identifier marked as an lvalue is a
      variable; any other is a built-in constant. */
  function EvalExpr(ops: FloatOps, bi: Tables, w: World, e: Expr): Outcome
    decreases e
  {
    match e.kind
    case IntLit(i) => Val(VInt(i))
    case FloatLit(f) => Val(VFloat(f))
    case StringLit(s) => Val(if e.ty == TKey then VKey(s) else VString(s))
    case Ident(name) =>
      var c := ConstNamed(bi.consts, name);
      if e.lv then Effect(w, e) else if c.Some? then Val(ConstMeaning(c.value)) else Stuck
    case VectorLit(x, y, z) =>
      var a := Component(ops, EvalExpr(ops, bi, w, x));
      var b := Component(ops, EvalExpr(ops, bi, w, y));
      var c := Component(ops, EvalExpr(ops, bi, w, z));
      if !a.Val? then a else if !b.Val? then b else if !c.Val? then c
      else Val(VVector(Vec(a.v.f, b.v.f, c.v.f)))
    case RotLit(x, y, z, s) =>
      var a := Component(ops, EvalExpr(ops, bi, w, x));
      var b := Component(ops, EvalExpr(ops, bi, w, y));
      var c := Component(ops, EvalExpr(ops, bi, w, z));
      var d := Component(ops, EvalExpr(ops, bi, w, s));
      if !a.Val? then a else if !b.Val? then b else if !c.Val? then c else if !d.Val? then d
      else Val(VRotation(Rot(a.v.f, b.v.f, c.v.f, d.v.f)))
    case ListLit(items) => EvalAll(ops, bi, w, items)
    case Member(base, m) =>
      var b := EvalExpr(ops, bi, w, base);
      if b.Val? then ApplyMember(b.v, m) else b
    case Cast(to, inner) =>
      var x := EvalExpr(ops, bi, w, inner);
      if x.Val? then ApplyCast(ops, w, to, x.v) else x
    case Unary(op, inner) =>
      if op == OpInc || op == OpDec then Effect(w, e)
      else
        var x := EvalExpr(ops, bi, w, inner);
        if x.Val? then ApplyUnary(ops, w, op, x.v) else x
    case Binary(op, l, r) =>
      var a, b := EvalExpr(ops, bi, w, l), EvalExpr(ops, bi, w, r);
      if !a.Val? then a else if !b.Val? then b else ApplyBinary(ops, w, op, a.v, b.v)
    case Postfix(_, _) => Effect(w, e)
    case Assign(_, _, _) => Effect(w, e)
    case Call(_, _) => Effect(w, e)
  }

  /** The items in order, as a list. */
  function EvalAll(ops: FloatOps, bi: Tables, w: World, es: seq<Expr>): (r: Outcome)
    ensures r.Val? ==> r.v.VList?
    decreases es
  {
    if es == [] then Val(VList([]))
    else
      var x := EvalExpr(ops, bi, w, es[0]);
      var xs := EvalAll(ops, bi, w, es[1..]);
      if !x.Val? then x else if !xs.Val? then xs else Val(VList([x.v] + xs.v.items))
  }
}
