/** Which expressions are constants of the language, and the numbers and texts they come to,
    said without the folder. */
module Constants {
  import opened Syntax
  import opened Builtins
  import opened Eval
  import Words

  predicate IsText(v: Value) {
    v.VString? || v.VKey?
  }

  function TextOf(v: Value): string
    requires IsText(v)
  {
    v.s
  }

  /** The number or text that `op` makes of two of them.  If one number is a float, both are. */
  function Joined(ops: FloatOps, op: Op, a: Value, b: Value): Option<Value> {
    if IsText(a) && IsText(b) then if op == OpPlus then Some(VString(TextOf(a) + TextOf(b))) else None
    else if IsNumber(a) && IsNumber(b) then
      var o := if a.VInt? && b.VInt? then Numbers(ops, op, a, b)
               else Numbers(ops, op, VFloat(ToFloat(ops, a)), VFloat(ToFloat(ops, b)));
      if o.Val? then Some(o.v) else None
    else None
  }

  /** The number that a prefix operator makes of one. */
  function Signed(ops: FloatOps, op: Op, v: Value): Option<Value> {
    if !IsNumber(v) then None
    else if op == OpNot then Some(Bool(!NonZero(ops, v)))
    else if op == OpPlus then Some(v)
    else if op == OpMinus then Some(if v.VInt? then VInt(Words.Wrapped(0 - v.i)) else VFloat(ops.neg(v.f)))
    else if op == OpTilde && v.VInt? then Some(VInt(-1 - v.i))
    else None
  }

  /** A number or text as another type. */
  function Converted(ops: FloatOps, to: Type, v: Value): Option<Value> {
    match to
    case TString =>
      if IsText(v) then Some(VString(TextOf(v)))
      else if v.VInt? then Some(VString(ops.showInt(v.i)))
      else if v.VFloat? then Some(VString(ops.showFloat(v.f)))
      else None
    case TKey => if IsText(v) then Some(VKey(TextOf(v))) else None
    case TInteger =>
      if v.VInt? then Some(v)
      else if v.VFloat? then Some(VInt(ops.toInt(v.f)))
      else if IsText(v) then Some(VInt(ops.readInt(TextOf(v))))
      else None
    case TFloat =>
      if IsNumber(v) then Some(VFloat(ToFloat(ops, v)))
      else if IsText(v) then Some(VFloat(ops.readFloat(TextOf(v))))
      else None
    case _ => None
  }

  /** The number or text that an expression comes to, if it is made of numbers, texts and
      built-in constants alone and nothing divides by zero.  Of a vector that a component is
      taken of, only that component has to be so made. */
  function Scalar(ops: FloatOps, bi: Tables, e: Expr): Option<Value>
    decreases e
  {
    match e.kind
    case IntLit(i) => Some(VInt(i))
    case FloatLit(f) => Some(VFloat(f))
    case StringLit(s) => Some(if e.ty == TKey then VKey(s) else VString(s))
    case Ident(name) =>
      var c := ConstNamed(bi.consts, name);
      if c.Some? then Some(ConstMeaning(c.value)) else None
    case Cast(to, x) =>
      var v := Scalar(ops, bi, x);
      if v.Some? then Converted(ops, to, v.value) else None
    case Unary(op, x) =>
      var v := Scalar(ops, bi, x);
      if v.Some? then Signed(ops, op, v.value) else None
    case Binary(op, l, r) =>
      var a, b := Scalar(ops, bi, l), Scalar(ops, bi, r);
      if a.Some? && b.Some? then Joined(ops, op, a.value, b.value) else None
    case Member(base, m) => Selected(ops, bi, base, m)
    case _ => None
  }

  /** A selected component that is a number, as a float. */
  function Selected(ops: FloatOps, bi: Tables, base: Expr, m: char): Option<Value>
    decreases base
  {
    match base.kind
    case VectorLit(x, y, z) =>
      AsFloat(ops, if m == 'x' then Scalar(ops, bi, x) else if m == 'y' then Scalar(ops, bi, y)
                   else if m == 'z' then Scalar(ops, bi, z) else None)
    case RotLit(x, y, z, s) =>
      AsFloat(ops, if m == 'x' then Scalar(ops, bi, x) else if m == 'y' then Scalar(ops, bi, y)
                   else if m == 'z' then Scalar(ops, bi, z) else if m == 's' then Scalar(ops, bi, s) else None)
    case _ => None
  }

  function AsFloat(ops: FloatOps, v: Option<Value>): Option<Value> {
    if v.Some? && IsNumber(v.value) then Some(VFloat(ToFloat(ops, v.value))) else None
  }

  /** Literals and built-in constants, under operators, casts and selections and in vectors,
      rotations and lists.  A selection that comes to a number counts whatever else there is
      in the vector. */
  predicate IsConstantExpr(ops: FloatOps, bi: Tables, e: Expr)
    decreases e
  {
    match e.kind
    case IntLit(_) => true
    case FloatLit(_) => true
    case StringLit(_) => true
    case Ident(name) => exists c :: c in bi.consts && c.name == name
    case VectorLit(x, y, z) => IsConstantExpr(ops, bi, x) && IsConstantExpr(ops, bi, y) && IsConstantExpr(ops, bi, z)
    case RotLit(x, y, z, s) =>
      && IsConstantExpr(ops, bi, x) && IsConstantExpr(ops, bi, y) && IsConstantExpr(ops, bi, z)
      && IsConstantExpr(ops, bi, s)
    case ListLit(items) => forall i :: 0 <= i < |items| ==> IsConstantExpr(ops, bi, items[i])
    case Cast(_, x) => IsConstantExpr(ops, bi, x)
    case Unary(_, x) => IsConstantExpr(ops, bi, x)
    case Binary(_, l, r) => IsConstantExpr(ops, bi, l) && IsConstantExpr(ops, bi, r)
    case Member(base, m) => Selected(ops, bi, base, m).Some? || IsConstantExpr(ops, bi, base)
    case Postfix(_, _) => false
    case Assign(_, _, _) => false
    case Call(_, _) => false
  }
}
