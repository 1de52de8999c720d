/** The folder finds exactly the constants of the language. */
module ConstantsExact {
  import opened Syntax
  import opened Builtins
  import opened Typing
  import opened Eval
  import opened FoldBits
  import opened FoldStable
  import opened FoldMeaning
  import opened Constants
  import Fold
  import Words

  /** The folded tree `f` is the literal of `v`, or no literal if there is none. */
  predicate Shows(bi: Tables, f: Expr, v: Option<Value>) {
    && LiteralTyped(f) && NotConstName(bi, f)
    && (Fold.IsLiteral(f) <==> v.Some?)
    && (v.Some? ==> LitValue(f) == v.value)
  }

  // ------------------------------------------------------------------ operands

  /** An operand as the folder reads it, and the number or text it shows. */
  lemma ShownOperand(ops: FloatOps, bi: Tables, f: Expr, v: Option<Value>)
    requires Shows(bi, f, v)
    ensures v.None? ==> Fold.AsInt(ops, bi, f).None? && Fold.AsFloat(ops, bi, f).None? && Fold.AsString(bi, f).None?
    ensures v.Some? && IsText(v.value) ==>
              Fold.AsInt(ops, bi, f).None? && Fold.AsFloat(ops, bi, f).None? &&
              Fold.AsString(bi, f) == Some(TextOf(v.value))
    ensures v.Some? && IsNumber(v.value) ==>
              Fold.AsFloat(ops, bi, f) == Some(ToFloat(ops, v.value)) && Fold.AsString(bi, f).None? &&
              Fold.AsInt(ops, bi, f) == Some(if v.value.VInt? then v.value.i else ops.toInt(v.value.f))
    ensures Fold.IsIntOperand(ops, bi, f) <==> v.Some? && v.value.VInt?
    ensures v.Some? ==> IsText(v.value) || IsNumber(v.value)
  {
    OperandForms(ops, bi, f, f.ty);
  }

  lemma ShownLiteral(bi: Tables, v: Value)
    requires IsText(v) || IsNumber(v)
    ensures v.VInt? ==> Shows(bi, Fold.MakeInt(v.i), Some(v))
    ensures v.VFloat? ==> Shows(bi, Fold.MakeFloat(v.f), Some(v))
    ensures v.VString? ==> Shows(bi, Fold.MakeString(v.s, TString), Some(v))
    ensures v.VKey? ==> Shows(bi, Fold.MakeString(v.s, TKey), Some(v))
  {
  }

  // ------------------------------------------------------------------ operators

  /** The outcome that an option stands for, where a node may stay as it is. */
  predicate Finds(bi: Tables, f: Option<Expr>, v: Option<Value>) {
    && (f.Some? <==> v.Some?)
    && (f.Some? ==> Shows(bi, f.value, v))
  }

  lemma IntegersJoined(ops: FloatOps, bi: Tables, op: Op, a: Int64, b: Int64)
    requires IsBinaryOp(op)
    ensures var n := Fold.IntBinary(op, a, b);
      Numbers(ops, op, VInt(a), VInt(b)) == if n.Some? then Val(VInt(n.value)) else DivZero
  {
    hide Integers, Fold.Wrap, Fold.Bitwise, Fold.Pow2, Fold.TruncDiv, Fold.TruncMod, Floats, CompareFloats;
    if IsRelation(op) || op == OpLAnd || op == OpLOr {
    } else {
      hide Fold.IntBinary;
      ArithmeticMeaning(op, a, b);
    }
  }

  lemma FloatsJoined(ops: FloatOps, bi: Tables, op: Op, a: Bits64, b: Bits64)
    ensures var x := Fold.FloatBinary(ops, op, a, b);
      var o := Numbers(ops, op, VFloat(a), VFloat(b));
      Finds(bi, x, if o.Val? then Some(o.v) else None)
  {
    hide Integers;
  }

  lemma BinaryShown(ops: FloatOps, bi: Tables, op: Op, l: Expr, r: Expr, a: Option<Value>, b: Option<Value>)
    requires Shows(bi, l, a) && Shows(bi, r, b) && IsBinaryOp(op)
    ensures Finds(bi, Fold.FoldBinary(ops, bi, op, l, r),
                  if a.Some? && b.Some? then Joined(ops, op, a.value, b.value) else None)
  {
    hide Shows, Fold.AsInt, Fold.AsFloat, Fold.AsString, Fold.IsIntOperand, Fold.IntBinary, Fold.FloatBinary, Numbers,
         ToFloat, IsBinaryOp;
    ShownOperand(ops, bi, l, a);
    ShownOperand(ops, bi, r, b);
    if a.Some? && b.Some? {
      if IsText(a.value) && IsText(b.value) {
        ShownLiteral(bi, VString(TextOf(a.value) + TextOf(b.value)));
      } else if IsNumber(a.value) && IsNumber(b.value) {
        if a.value.VInt? && b.value.VInt? {
          IntegersJoined(ops, bi, op, a.value.i, b.value.i);
          var n := Fold.IntBinary(op, a.value.i, b.value.i);
          if n.Some? { ShownLiteral(bi, VInt(n.value)); }
        } else {
          FloatsJoined(ops, bi, op, ToFloat(ops, a.value), ToFloat(ops, b.value));
        }
      }
    }
  }

  lemma IntUnaryShown(ops: FloatOps, bi: Tables, op: Op, x: Expr, i: Int64)
    requires Fold.IsIntOperand(ops, bi, x) && Fold.AsInt(ops, bi, x) == Some(i)
    requires Fold.AsFloat(ops, bi, x).Some?
    ensures Finds(bi, Fold.FoldUnary(ops, bi, op, x), Signed(ops, op, VInt(i)))
  {
    hide Fold.AsInt, Fold.AsFloat, Fold.AsString, Fold.IsIntOperand, Fold.Wrap, Words.Wrapped;
    var n: int := i;
    WrapMeaning(-n);
  }

  lemma UnaryShown(ops: FloatOps, bi: Tables, op: Op, x: Expr, v: Option<Value>)
    requires Shows(bi, x, v)
    ensures Finds(bi, Fold.FoldUnary(ops, bi, op, x), if v.Some? then Signed(ops, op, v.value) else None)
  {
    hide Fold.AsInt, Fold.AsFloat, Fold.AsString, Fold.IsIntOperand, Shows;
    ShownOperand(ops, bi, x, v);
    if v.Some? && v.value.VInt? {
      hide Fold.FoldUnary, Signed;
      IntUnaryShown(ops, bi, op, x, v.value.i);
    } else if v.Some? && v.value.VFloat? {
      ShownLiteral(bi, VFloat(v.value.f));
      ShownLiteral(bi, VFloat(ops.neg(v.value.f)));
      ShownLiteral(bi, Bool(!NonZero(ops, v.value)));
    }
  }

  lemma CastShown(ops: FloatOps, bi: Tables, to: Type, x: Expr, v: Option<Value>)
    requires Shows(bi, x, v)
    ensures Finds(bi, Fold.FoldCast(ops, bi, to, x), if v.Some? then Converted(ops, to, v.value) else None)
  {
    hide Fold.AsInt, Fold.AsFloat, Fold.AsString, Fold.IsIntOperand;
    ShownOperand(ops, bi, x, v);
  }

  lemma PartShown(ops: FloatOps, bi: Tables, c: Expr, v: Option<Value>)
    requires Shows(bi, c, v)
    ensures Finds(bi, (match c.kind
                       case FloatLit(f) => Some(Fold.MakeFloat(f))
                       case IntLit(i) => Some(Fold.MakeFloat(ops.ofInt(i)))
                       case _ => None), AsFloat(ops, v))
  {
  }

  lemma {:induction false} MemberShown(env: Env, ops: FloatOps, base: Expr, m: char)
    requires Typed(env, base)
    ensures Finds(env.bi, Fold.FoldMember(ops, Fold.FoldExpr(ops, env.bi, base), m), Selected(ops, env.bi, base, m))
    decreases base, 1
  {
    hide Shows, Scalar;
    match base.kind
    case VectorLit(x, y, z) =>
      ScalarExact(env, ops, x);
      ScalarExact(env, ops, y);
      ScalarExact(env, ops, z);
      PartShown(ops, env.bi, Fold.FoldExpr(ops, env.bi, x), Scalar(ops, env.bi, x));
      PartShown(ops, env.bi, Fold.FoldExpr(ops, env.bi, y), Scalar(ops, env.bi, y));
      PartShown(ops, env.bi, Fold.FoldExpr(ops, env.bi, z), Scalar(ops, env.bi, z));
    case RotLit(x, y, z, s) =>
      ScalarExact(env, ops, x);
      ScalarExact(env, ops, y);
      ScalarExact(env, ops, z);
      ScalarExact(env, ops, s);
      PartShown(ops, env.bi, Fold.FoldExpr(ops, env.bi, x), Scalar(ops, env.bi, x));
      PartShown(ops, env.bi, Fold.FoldExpr(ops, env.bi, y), Scalar(ops, env.bi, y));
      PartShown(ops, env.bi, Fold.FoldExpr(ops, env.bi, z), Scalar(ops, env.bi, z));
      PartShown(ops, env.bi, Fold.FoldExpr(ops, env.bi, s), Scalar(ops, env.bi, s));
    case _ => OtherBase(ops, env.bi, base);
  }

  /** Only a vector or rotation literal folds to one. */
  lemma OtherBase(ops: FloatOps, bi: Tables, base: Expr)
    requires !base.kind.VectorLit? && !base.kind.RotLit?
    ensures !Fold.FoldExpr(ops, bi, base).kind.VectorLit? && !Fold.FoldExpr(ops, bi, base).kind.RotLit?
  {
    hide Fold.FoldBinary, Fold.FoldUnary, Fold.FoldCast, Fold.FoldMember, ConstNamed, Fold.FoldAll;
    match base.kind
    case Unary(op, x) =>
      FoldedIsLiteral(ops, bi, op, TVoid, Fold.FoldExpr(ops, bi, x), base, 'x');
    case Binary(op, l, r) =>
      FoldedIsLiteral(ops, bi, op, TVoid, Fold.FoldExpr(ops, bi, l), Fold.FoldExpr(ops, bi, r), 'x');
    case Cast(to, x) =>
      FoldedIsLiteral(ops, bi, OpPlus, to, Fold.FoldExpr(ops, bi, x), base, 'x');
    case Member(b, m) =>
      FoldedIsLiteral(ops, bi, OpPlus, TVoid, Fold.FoldExpr(ops, bi, b), base, m);
    case _ =>
  }

  /** Folding a well-typed expression gives a literal exactly when the expression comes to a
      number or text, and then the literal of that. */
  lemma {:induction false} ScalarExact(env: Env, ops: FloatOps, e: Expr)
    requires Typed(env, e)
    ensures Shows(env.bi, Fold.FoldExpr(ops, env.bi, e), Scalar(ops, env.bi, e))
    decreases e, 0
  {
    hide BinaryRule, UnaryRule, CastRule, CallRule, MemberRule, TypesOf, IsLValue, Fold.FoldBinary, Fold.FoldUnary,
         Fold.FoldCast, Fold.FoldMember, Joined, Signed, Converted, Selected, IdentRule;
    var f := Fold.FoldExpr(ops, env.bi, e);
    match e.kind
    case Unary(op, x) =>
      ScalarExact(env, ops, x);
      UnaryShown(ops, env.bi, op, Fold.FoldExpr(ops, env.bi, x), Scalar(ops, env.bi, x));
    case Binary(op, l, r) =>
      ScalarExact(env, ops, l);
      ScalarExact(env, ops, r);
      BinaryRuleOp(op, l.ty, r.ty, e.ty);
      BinaryShown(ops, env.bi, op, Fold.FoldExpr(ops, env.bi, l), Fold.FoldExpr(ops, env.bi, r),
                  Scalar(ops, env.bi, l), Scalar(ops, env.bi, r));
    case Cast(to, x) =>
      ScalarExact(env, ops, x);
      CastShown(ops, env.bi, to, Fold.FoldExpr(ops, env.bi, x), Scalar(ops, env.bi, x));
    case Member(base, m) => MemberShown(env, ops, base, m);
    case _ =>
  }

  // ------------------------------------------------------------- constantness

  lemma {:induction false} InUseExact(env: Env, ops: FloatOps, e: Expr)
    requires Typed(env, e)
    ensures ConstantInUse(ops, env.bi, e) <==> IsConstantExpr(ops, env.bi, e)
    decreases e
  {
    hide BinaryRule, UnaryRule, CastRule, CallRule, MemberRule, TypesOf, IsLValue, Fold.FoldMember, Selected, IdentRule,
         ConstNamed;
    match e.kind
    case VectorLit(x, y, z) =>
      InUseExact(env, ops, x);
      InUseExact(env, ops, y);
      InUseExact(env, ops, z);
    case RotLit(x, y, z, s) =>
      InUseExact(env, ops, x);
      InUseExact(env, ops, y);
      InUseExact(env, ops, z);
      InUseExact(env, ops, s);
    case ListLit(items) =>
      forall i | 0 <= i < |items|
        ensures ConstantInUse(ops, env.bi, items[i]) <==> IsConstantExpr(ops, env.bi, items[i])
      {
        InUseExact(env, ops, items[i]);
      }
    case Cast(_, x) => InUseExact(env, ops, x);
    case Unary(_, x) => InUseExact(env, ops, x);
    case Binary(_, l, r) =>
      InUseExact(env, ops, l);
      InUseExact(env, ops, r);
    case Member(base, m) =>
      InUseExact(env, ops, base);
      MemberShown(env, ops, base, m);
    case _ =>
  }

  /** What is left of a well-typed initialiser after folding is a constant to the program
      exactly when the initialiser is a constant of the language. */
  lemma ConstantExact(env: Env, ops: FloatOps, e: Expr)
    requires Typed(env, e)
    ensures Fold.IsConstant(env.bi, Fold.FoldExpr(ops, env.bi, e)) <==> IsConstantExpr(ops, env.bi, e)
  {
    hide Typed, Fold.IsConstant, Fold.FoldExpr, IsConstantExpr, ConstantInUse;
    FoldConstantExactly(ops, env.bi, e);
    InUseExact(env, ops, e);
  }
}
