/** Folding a well-typed expression keeps its type and its meaning, and on numbers it
    computes that meaning. */
module FoldMeaning {
  import opened Syntax
  import opened Builtins
  import opened Typing
  import opened Fold
  import opened Eval
  import opened FoldBits
  import Words
  import opened FoldStable

  // ------------------------------------------------------------- hypotheses

  /** No variable of `e` has the name of a built-in constant. */
  predicate Unshadowed(bi: Tables, e: Expr)
    decreases e
  {
    match e.kind
    case Ident(name) => e.lv ==> ConstNamed(bi.consts, name).None?
    case VectorLit(x, y, z) => Unshadowed(bi, x) && Unshadowed(bi, y) && Unshadowed(bi, z)
    case RotLit(x, y, z, w) => Unshadowed(bi, x) && Unshadowed(bi, y) && Unshadowed(bi, z) && Unshadowed(bi, w)
    case ListLit(items) => forall i :: 0 <= i < |items| ==> Unshadowed(bi, items[i])
    case Member(base, _) => Unshadowed(bi, base)
    case Cast(_, x) => Unshadowed(bi, x)
    case Unary(_, x) => Unshadowed(bi, x)
    case Binary(_, l, r) => Unshadowed(bi, l) && Unshadowed(bi, r)
    case _ => true
  }

  /** A literal has its own type; a string may also be a key. */
  predicate LiteralTyped(e: Expr) {
    match e.kind
    case IntLit(_) => e.ty == TInteger
    case FloatLit(_) => e.ty == TFloat
    case StringLit(_) => e.ty == TString || e.ty == TKey
    case _ => true
  }

  /** What is known of a folded operand of type `ty`. */
  predicate Operand(bi: Tables, e: Expr, ty: Type) {
    e.ty == ty && LiteralTyped(e) && NotConstName(bi, e)
  }

  predicate IsIntLit(e: Expr) {
    e.kind.IntLit?
  }

  predicate IsNumLit(e: Expr) {
    e.kind.IntLit? || e.kind.FloatLit?
  }

  /** The value of a literal. */
  function LitValue(e: Expr): Value
    requires IsLiteral(e)
  {
    match e.kind
    case IntLit(i) => VInt(i)
    case FloatLit(f) => VFloat(f)
    case StringLit(s) => if e.ty == TKey then VKey(s) else VString(s)
  }

  // --------------------------------------------- operands as the folder sees them

  lemma OperandForms(ops: FloatOps, bi: Tables, e: Expr, ty: Type)
    requires Operand(bi, e, ty)
    ensures AsString(bi, e).Some? <==> e.kind.StringLit?
    ensures AsInt(ops, bi, e).Some? <==> IsNumLit(e)
    ensures AsFloat(ops, bi, e).Some? <==> IsNumLit(e)
    ensures IsIntOperand(ops, bi, e) <==> IsIntLit(e)
    ensures IsIntLit(e) ==> AsInt(ops, bi, e) == Some(e.kind.i)
    ensures e.kind.FloatLit? ==> AsInt(ops, bi, e) == Some(ops.toInt(e.kind.f))
    ensures IsNumLit(e) ==> AsFloat(ops, bi, e) == Some(ToFloat(ops, LitValue(e)))
    ensures e.kind.StringLit? ==> AsString(bi, e) == Some(e.kind.s)
  {
  }

  /** Dividing by a negative number. */
  lemma DivNegative(m: int, n: int)
    requires n > 0
    ensures m / -n == -(m / n) && m % -n == m % n
  {
    var q', r' := m / -n, m % -n;
    assert m == q' * -n + r' && 0 <= r' < n;
    assert q' * -n == (-q') * n;
    DivUnique(m, n, -q', r');
  }

  lemma QuotientSigns(a: int, b: int)
    requires b != 0
    ensures TruncDiv(a, b) == (if (a < 0) == (b < 0) then 1 else -1) * (Magnitude(a) / Magnitude(b))
  {
    var m, n: int := Magnitude(a), Magnitude(b);
    if b < 0 { DivNegative(m, n); }
  }

  lemma ProductSigns(q: int, n: int)
    ensures (-q) * n == -(q * n) && q * (-n) == -(q * n) && (-q) * (-n) == q * n
  {
  }

  /** Truncating division divides the magnitudes and combines the signs. */
  lemma QuotientMeaning(a: int, b: int)
    requires b != 0
    ensures TruncDiv(a, b) == Sign(a) * Sign(b) * (Magnitude(a) / Magnitude(b))
    ensures TruncMod(a, b) == Sign(a) * (Magnitude(a) % Magnitude(b))
  {
    hide TruncDiv;
    var m, n: int := Magnitude(a), Magnitude(b);
    var q, r: int := m / n, m % n;
    assert m == q * n + r;
    QuotientSigns(a, b);
    ProductSigns(q, n);
    if a == 0 { DivUnique(0, n, 0, 0); }
  }

  lemma DivisionMeaning(op: Op, a: Int64, b: Int64)
    requires op == OpSlash || op == OpPercent
    ensures var n := IntBinary(op, a, b);
      Integers(op, a, b) == if n.Some? then Val(VInt(n.value)) else DivZero
  {
    hide Wrap, Words.Wrapped, Fold.Bitwise, Words.Bitwise, Pow2, TruncDiv, TruncMod, Sign, Magnitude;
    if b != 0 {
      QuotientMeaning(a, b);
      WrapMeaning(TruncDiv(a, b));
      WrapMeaning(TruncMod(a, b));
    }
  }

  lemma SumsMeaning(op: Op, a: Int64, b: Int64)
    requires op == OpPlus || op == OpMinus || op == OpStar
    ensures var n := IntBinary(op, a, b);
      n.Some? && Integers(op, a, b) == Val(VInt(n.value))
  {
    hide Wrap, Words.Wrapped;
    WrapMeaning(a + b);
    WrapMeaning(a - b);
    WrapMeaning(a * b);
  }

  lemma ShiftsMeaning(op: Op, a: Int64, b: Int64)
    requires op == OpShl || op == OpShr
    ensures var n := IntBinary(op, a, b);
      n.Some? && Integers(op, a, b) == Val(VInt(n.value))
  {
    hide Wrap, Words.Wrapped, Pow2, Words.Doubled, Words.Halved;
    var k := b % 32;
    DoubledProduct(a, k);
    HalvedQuotient(a, k);
    WrapMeaning(Words.Doubled(a, k));
    WrapMeaning(Words.Halved(a, k));
  }

  lemma BitsMeaning(op: Op, a: Int64, b: Int64)
    requires op == OpAnd || op == OpOr || op == OpXor
    ensures var n := IntBinary(op, a, b);
      n.Some? && Integers(op, a, b) == Val(VInt(n.value))
  {
    hide Wrap, Words.Wrapped, Fold.Bitwise, Words.Bitwise, Pow2, TruncDiv, TruncMod, Sign, Magnitude;
    BitwiseMeaning(op, a, b);
    WrapMeaning(Fold.Bitwise(op, a, b));
    WrapIdentity(Fold.Bitwise(op, a, b));
  }

  lemma ArithmeticMeaning(op: Op, a: Int64, b: Int64)
    requires IsBinaryOp(op) && !IsCompareOp(op) && op != OpLAnd && op != OpLOr
    ensures var n := IntBinary(op, a, b);
      Integers(op, a, b) == if n.Some? then Val(VInt(n.value)) else DivZero
  {
    hide Integers, IntBinary;
    if op == OpSlash || op == OpPercent {
      DivisionMeaning(op, a, b);
    } else if op == OpAnd || op == OpOr || op == OpXor {
      BitsMeaning(op, a, b);
    } else if op == OpShl || op == OpShr {
      ShiftsMeaning(op, a, b);
    } else {
      SumsMeaning(op, a, b);
    }
  }

  /** The relations and connectives of two integers. */
  predicate Holds(op: Op, a: int, b: int) {
    || (op == OpEq && a == b) || (op == OpNeq && a != b)
    || (op == OpLt && a < b) || (op == OpGe && !(a < b))
    || (op == OpGt && b < a) || (op == OpLe && !(b < a))
    || (op == OpLAnd && a != 0 && b != 0) || (op == OpLOr && !(a == 0 && b == 0))
  }

  lemma IntegerOperand(ops: FloatOps, bi: Tables, i: Int64)
    ensures AsInt(ops, bi, MakeInt(i)) == Some(i) && IsIntOperand(ops, bi, MakeInt(i)) && AsString(bi, MakeInt(i)).None?
  {
  }

  /** A relation or connective between two integer literals folds to the literal 1 where it
      holds and to the literal 0 where it does not; and so does `!`. */
  lemma RelationsFold(ops: FloatOps, bi: Tables, op: Op, a: Int64, b: Int64)
    requires IsRelation(op) || op == OpLAnd || op == OpLOr
    ensures FoldBinary(ops, bi, op, MakeInt(a), MakeInt(b)) == Some(MakeInt(if Holds(op, a, b) then 1 else 0))
    ensures FoldUnary(ops, bi, OpNot, MakeInt(a)) == Some(MakeInt(if a == 0 then 1 else 0))
  {
    hide Wrap, Fold.Bitwise, Pow2, TruncDiv, TruncMod, AsInt, AsFloat, AsString, IsIntOperand, FloatBinary, Operand;
    IntegerOperand(ops, bi, a);
    IntegerOperand(ops, bi, b);
  }

  /** So do the trees of them, however they are annotated. */
  lemma RelationTreesFold(ops: FloatOps, bi: Tables, op: Op, a: Int64, b: Int64, t: Type, lv: bool)
    requires IsRelation(op) || op == OpLAnd || op == OpLOr
    ensures FoldExpr(ops, bi, Node(t, lv, Binary(op, MakeInt(a), MakeInt(b))))
      == MakeInt(if Holds(op, a, b) then 1 else 0)
    ensures FoldExpr(ops, bi, Node(t, lv, Unary(OpNot, MakeInt(a)))) == MakeInt(if a == 0 then 1 else 0)
  {
    hide FoldBinary, FoldUnary, Holds;
    RelationsFold(ops, bi, op, a, b);
    LiteralStays(ops, bi, a);
    LiteralStays(ops, bi, b);
  }

  lemma LiteralStays(ops: FloatOps, bi: Tables, a: Int64)
    ensures FoldExpr(ops, bi, MakeInt(a)) == MakeInt(a)
  {
  }

  /** The folder's integer operators are the evaluator's. */
  lemma IntegerMeaning(ops: FloatOps, w: World, op: Op, a: Int64, b: Int64)
    requires IsBinaryOp(op)
    ensures var n := IntBinary(op, a, b);
      ApplyBinary(ops, w, op, VInt(a), VInt(b)) == if n.Some? then Val(VInt(n.value)) else DivZero
  {
    hide Integers, Wrap, Fold.Bitwise, Pow2, TruncDiv, TruncMod, Others, Floats, CompareFloats;
    if IsCompareOp(op) || op == OpLAnd || op == OpLOr {
    } else {
      hide IntBinary;
      ArithmeticMeaning(op, a, b);
    }
  }

  /** Wrapping does nothing to a number that fits. */
  lemma WrapIdentity(i: Int64)
    ensures Wrap(i) == i
  {
  }

  // ------------------------------------------------------------- folded nodes

  /** `x` is a literal of type `t`, and its value is the outcome `o`. */
  ghost predicate IsAnswer(ops: FloatOps, x: Expr, t: Type, o: Outcome) {
    IsLiteral(x) && x.ty == t && LiteralTyped(x) && (FloatLaws(ops) ==> o == Val(LitValue(x)))
  }

  lemma TruthOfFloat(ops: FloatOps, a: Value)
    requires FloatLaws(ops) && IsNumber(a)
    ensures NonZero(ops, a) <==> !IsNull(ops, ToFloat(ops, a))
  {
    hide IsNull;
  }

  lemma LogicFolded(ops: FloatOps, w: World, op: Op, a: Value, b: Value)
    requires IsNumber(a) && IsNumber(b) && (op == OpLAnd || op == OpLOr)
    ensures var x := FloatBinary(ops, op, ToFloat(ops, a), ToFloat(ops, b));
      x.Some? && IsAnswer(ops, x.value, TInteger, ApplyBinary(ops, w, op, a, b)) && IsNumLit(x.value)
  {
    hide Others, Integers, Floats, NonZero, ToFloat, FloatLaws;
    if FloatLaws(ops) {
      TruthOfFloat(ops, a);
      TruthOfFloat(ops, b);
    }
  }

  lemma FloatsFolded(ops: FloatOps, w: World, op: Op, a: Value, b: Value, t: Type)
    requires IsNumber(a) && IsNumber(b) && !(a.VInt? && b.VInt?)
    requires BinaryRule(op, TypeOf(a), TypeOf(b), t)
    ensures var x := FloatBinary(ops, op, ToFloat(ops, a), ToFloat(ops, b));
      var o := ApplyBinary(ops, w, op, a, b);
      if x.Some? then IsAnswer(ops, x.value, t, o) && IsNumLit(x.value) else o == DivZero
  {
    hide Others, Integers, NonZero, ToFloat, FloatLaws;
    if op == OpLAnd || op == OpLOr {
      LogicFolded(ops, w, op, a, b);
    } else if IsCompareOp(op) {
      hide Floats;
    }
  }

  /** Two number literals: the folder gives the value, or there is a division by zero. */
  lemma NumbersFolded(ops: FloatOps, bi: Tables, w: World, op: Op, l: Expr, r: Expr, t: Type)
    requires Operand(bi, l, l.ty) && Operand(bi, r, r.ty) && IsNumLit(l) && IsNumLit(r)
    requires BinaryRule(op, l.ty, r.ty, t)
    ensures var x := FoldBinary(ops, bi, op, l, r);
      var o := ApplyBinary(ops, w, op, LitValue(l), LitValue(r));
      if x.Some? then IsAnswer(ops, x.value, t, o) && IsNumLit(x.value) else o == DivZero
  {
    hide FloatLaws, AsInt, AsFloat, AsString, IsIntOperand, IntBinary, FloatBinary, ApplyBinary, Operand, ToFloat;
    OperandForms(ops, bi, l, l.ty);
    OperandForms(ops, bi, r, r.ty);
    assert TypeOf(LitValue(l)) == l.ty && TypeOf(LitValue(r)) == r.ty by { NumLitType(bi, l); NumLitType(bi, r); }
    if IsIntLit(l) && IsIntLit(r) {
      BinaryRuleOp(op, l.ty, r.ty, t);
      IntegersGiveInteger(op, t);
      IntegerMeaning(ops, w, op, l.kind.i, r.kind.i);
    } else {
      FloatsFolded(ops, w, op, LitValue(l), LitValue(r), t);
    }
  }

  lemma NumLitType(bi: Tables, l: Expr)
    requires Operand(bi, l, l.ty) && IsNumLit(l)
    ensures TypeOf(LitValue(l)) == l.ty && IsNumber(LitValue(l))
    ensures LitValue(l).VInt? <==> IsIntLit(l)
    ensures l.ty == if IsIntLit(l) then TInteger else TFloat
  {
  }

  lemma BinaryRuleOp(op: Op, l: Type, r: Type, t: Type)
    requires BinaryRule(op, l, r, t)
    ensures IsBinaryOp(op)
  {
  }

  lemma IntegersGiveInteger(op: Op, t: Type)
    requires BinaryRule(op, TInteger, TInteger, t)
    ensures t == TInteger
  {
  }

  /** Operands that are not both numbers: only strings are joined. */
  lemma TextFolded(ops: FloatOps, bi: Tables, w: World, op: Op, l: Expr, r: Expr, t: Type)
    requires Operand(bi, l, l.ty) && Operand(bi, r, r.ty) && !(IsNumLit(l) && IsNumLit(r))
    requires BinaryRule(op, l.ty, r.ty, t)
    ensures var x := FoldBinary(ops, bi, op, l, r);
      x.Some? ==>
        IsLiteral(l) && IsLiteral(r) && IsAnswer(ops, x.value, t, ApplyBinary(ops, w, op, LitValue(l), LitValue(r)))
  {
    hide AsInt, AsFloat, AsString, IsIntOperand, IntBinary, FloatBinary, Operand, ToFloat;
    OperandForms(ops, bi, l, l.ty);
    OperandForms(ops, bi, r, r.ty);
    if FoldBinary(ops, bi, op, l, r).Some? {
      StringLitType(bi, l);
      StringLitType(bi, r);
    }
  }

  lemma StringLitType(bi: Tables, l: Expr)
    requires Operand(bi, l, l.ty)
    ensures l.kind.StringLit? ==> l.ty == TString || l.ty == TKey
  {
  }

  lemma IntUnaryFolded(ops: FloatOps, bi: Tables, w: World, op: Op, x: Expr, t: Type)
    requires Operand(bi, x, x.ty) && IsIntLit(x) && UnaryRule(op, x.ty, t) && !IsPostfixOp(op)
    ensures var f := FoldUnary(ops, bi, op, x);
      f.Some? && IsAnswer(ops, f.value, t, ApplyUnary(ops, w, op, LitValue(x))) && IsNumLit(f.value)
  {
    hide AsInt, AsFloat, AsString, IsIntOperand, NegVec, NegRot, Wrap, Words.Wrapped, FloatLaws;
    OperandForms(ops, bi, x, x.ty);
    TildeFits(x.kind.i);
    var n: int := x.kind.i;
    WrapMeaning(-n);
  }

  lemma UnaryFolded(ops: FloatOps, bi: Tables, w: World, op: Op, x: Expr, t: Type)
    requires Operand(bi, x, x.ty) && UnaryRule(op, x.ty, t) && !IsPostfixOp(op)
    ensures var f := FoldUnary(ops, bi, op, x);
      && (f.Some? <==> IsNumLit(x))
      && (f.Some? ==> IsAnswer(ops, f.value, t, ApplyUnary(ops, w, op, LitValue(x))) && IsNumLit(f.value))
  {
    hide AsInt, AsFloat, AsString, IsIntOperand, NegVec, NegRot, Wrap, Words.Wrapped, FloatLaws;
    OperandForms(ops, bi, x, x.ty);
    if IsIntLit(x) {
      hide FoldUnary, ApplyUnary, IsAnswer, UnaryRule;
      IntUnaryFolded(ops, bi, w, op, x, t);
    }
  }

  lemma TildeFits(i: Int64)
    ensures Words.Wrapped(-1 - i) == -1 - i
  {
  }

  lemma CastFolded(ops: FloatOps, bi: Tables, w: World, to: Type, x: Expr)
    requires Operand(bi, x, x.ty) && CastRule(x.ty, to)
    ensures var f := FoldCast(ops, bi, to, x);
      && (f.Some? ==> IsLiteral(x) && IsAnswer(ops, f.value, to, ApplyCast(ops, w, to, LitValue(x))))
      && (IsNumLit(x) && Numeric(to) ==> f.Some? && IsNumLit(f.value))
  {
    hide AsInt, AsFloat, AsString, IsIntOperand;
    OperandForms(ops, bi, x, x.ty);
  }

  // ----------------------------------------------------------- the main theorem

  /** Where the first outcome is a value, the second is the same value. */
  predicate Refines(a: Outcome, b: Outcome) {
    a.Val? ==> b == a
  }

  /** No failure is lost: where a selection folds, what it selects from has a value. */
  predicate NothingLost(ops: FloatOps, bi: Tables, w: World, e: Expr)
    decreases e
  {
    match e.kind
    case Member(base, m) =>
      if FoldMember(ops, FoldExpr(ops, bi, base), m).Some? then EvalExpr(ops, bi, w, base).Val?
      else NothingLost(ops, bi, w, base)
    case VectorLit(x, y, z) => NothingLost(ops, bi, w, x) && NothingLost(ops, bi, w, y) && NothingLost(ops, bi, w, z)
    case RotLit(x, y, z, s) =>
      NothingLost(ops, bi, w, x) && NothingLost(ops, bi, w, y) && NothingLost(ops, bi, w, z) &&
      NothingLost(ops, bi, w, s)
    case ListLit(items) => forall i :: 0 <= i < |items| ==> NothingLost(ops, bi, w, items[i])
    case Unary(_, x) => NothingLost(ops, bi, w, x)
    case Binary(_, l, r) =>
      NothingLost(ops, bi, w, l) && (EvalExpr(ops, bi, w, l).Val? ==> NothingLost(ops, bi, w, r))
    case Cast(_, x) => NothingLost(ops, bi, w, x)
    case _ => true
  }

  lemma {:induction false} WithoutMembers(ops: FloatOps, bi: Tables, w: World, e: Expr)
    requires !HasMember(e)
    ensures NothingLost(ops, bi, w, e)
    decreases e
  {
    hide EvalExpr, FoldExpr, FoldMember;
    match e.kind
    case VectorLit(x, y, z) =>
      WithoutMembers(ops, bi, w, x);
      WithoutMembers(ops, bi, w, y);
      WithoutMembers(ops, bi, w, z);
    case RotLit(x, y, z, s) =>
      WithoutMembers(ops, bi, w, x);
      WithoutMembers(ops, bi, w, y);
      WithoutMembers(ops, bi, w, z);
      WithoutMembers(ops, bi, w, s);
    case ListLit(items) =>
      forall i | 0 <= i < |items| ensures NothingLost(ops, bi, w, items[i]) { WithoutMembers(ops, bi, w, items[i]); }
    case Unary(_, x) => WithoutMembers(ops, bi, w, x);
    case Cast(_, x) => WithoutMembers(ops, bi, w, x);
    case Binary(_, l, r) =>
      WithoutMembers(ops, bi, w, l);
      WithoutMembers(ops, bi, w, r);
    case _ =>
  }

  /** What folding owes: type kept, values kept, and every outcome kept where no selection
      loses a failure. */
  ghost predicate Kept(env: Env, ops: FloatOps, w: World, e: Expr) {
    var f := FoldExpr(ops, env.bi, e);
    && Operand(env.bi, f, e.ty)
    && (FloatLaws(ops) ==> Refines(EvalExpr(ops, env.bi, w, e), EvalExpr(ops, env.bi, w, f)))
    && (FloatLaws(ops) && NothingLost(ops, env.bi, w, e)
        ==> EvalExpr(ops, env.bi, w, f) == EvalExpr(ops, env.bi, w, e))
  }

  lemma LiteralEval(ops: FloatOps, bi: Tables, w: World, e: Expr)
    requires IsLiteral(e)
    ensures EvalExpr(ops, bi, w, e) == Val(LitValue(e))
  {
  }

  lemma IdentKept(env: Env, ops: FloatOps, w: World, e: Expr)
    requires Typed(env, e) && Unshadowed(env.bi, e) && e.kind.Ident?
    ensures Kept(env, ops, w, e)
  {
    hide Lookup, FloatLaws;
    FoldedNotConst(ops, env.bi, e);
  }

  lemma {:induction false} BinaryKept(env: Env, ops: FloatOps, w: World, e: Expr)
    requires Typed(env, e) && Unshadowed(env.bi, e) && e.kind.Binary?
    ensures Kept(env, ops, w, e)
    decreases e, 0
  {
    hide BinaryRule, FoldBinary, ApplyBinary, FloatLaws, ConstNamed;
    FoldKept(env, ops, w, e.kind.l);
    FoldKept(env, ops, w, e.kind.r);
    var a, b := FoldExpr(ops, env.bi, e.kind.l), FoldExpr(ops, env.bi, e.kind.r);
    if IsNumLit(a) && IsNumLit(b) {
      NumbersFolded(ops, env.bi, w, e.kind.op, a, b, e.ty);
    } else {
      TextFolded(ops, env.bi, w, e.kind.op, a, b, e.ty);
    }
  }

  /** A place to assign to has nothing to fold. */
  lemma {:induction false} LValueFolded(env: Env, ops: FloatOps, e: Expr)
    requires Typed(env, e) && Unshadowed(env.bi, e) && IsLValue(e)
    ensures FoldExpr(ops, env.bi, e) == e
    decreases e
  {
    hide Lookup;
    if e.kind.Member? { LValueFolded(env, ops, e.kind.base); }
  }

  lemma {:induction false} UnaryKept(env: Env, ops: FloatOps, w: World, e: Expr)
    requires Typed(env, e) && Unshadowed(env.bi, e) && e.kind.Unary?
    ensures Kept(env, ops, w, e)
    decreases e, 0
  {
    hide UnaryRule, FoldUnary, ApplyUnary, FloatLaws, ConstNamed;
    var x := FoldExpr(ops, env.bi, e.kind.inner);
    if IsPostfixOp(e.kind.op) {
      LValueFolded(env, ops, e.kind.inner);
      IncrementNotFolded(ops, env.bi, e.kind.op, x);
    } else {
      FoldKept(env, ops, w, e.kind.inner);
      UnaryFolded(ops, env.bi, w, e.kind.op, x, e.ty);
    }
  }

  lemma IncrementNotFolded(ops: FloatOps, bi: Tables, op: Op, x: Expr)
    requires IsPostfixOp(op)
    ensures FoldUnary(ops, bi, op, x).None?
  {
  }

  lemma {:induction false} CastKept(env: Env, ops: FloatOps, w: World, e: Expr)
    requires Typed(env, e) && Unshadowed(env.bi, e) && e.kind.Cast?
    ensures Kept(env, ops, w, e)
    decreases e, 0
  {
    hide CastRule, FoldCast, ApplyCast, FloatLaws, ConstNamed;
    FoldKept(env, ops, w, e.kind.inner);
    CastFolded(ops, env.bi, w, e.kind.to, FoldExpr(ops, env.bi, e.kind.inner));
  }

  /** A member of a literal vector is the value of that component. */
  lemma MemberFolded(ops: FloatOps, bi: Tables, w: World, base: Expr, m: char)
    requires FoldMember(ops, base, m).Some? && EvalExpr(ops, bi, w, base).Val?
    ensures ApplyMember(EvalExpr(ops, bi, w, base).v, m) == Val(LitValue(FoldMember(ops, base, m).value))
  {
    hide ConstNamed;
    var c := Fold.Component(base, m).value;
    LiteralEval(ops, bi, w, c);
  }

  lemma {:induction false} MemberKept(env: Env, ops: FloatOps, w: World, e: Expr)
    requires Typed(env, e) && Unshadowed(env.bi, e) && e.kind.Member?
    ensures Kept(env, ops, w, e)
    decreases e, 0
  {
    hide MemberRule, ApplyMember, FloatLaws, ConstNamed, Fold.Component, IsLValue;
    FoldKept(env, ops, w, e.kind.base);
    var x := FoldExpr(ops, env.bi, e.kind.base);
    if FoldMember(ops, x, e.kind.member).Some? && EvalExpr(ops, env.bi, w, x).Val? {
      MemberFolded(ops, env.bi, w, x, e.kind.member);
    }
  }

  lemma {:induction false} VectorKept(env: Env, ops: FloatOps, w: World, e: Expr)
    requires Typed(env, e) && Unshadowed(env.bi, e) && (e.kind.VectorLit? || e.kind.RotLit?)
    ensures Kept(env, ops, w, e)
    decreases e, 0
  {
    hide FloatLaws, ConstNamed, Operand, ToFloat;
    FoldKept(env, ops, w, e.kind.x);
    FoldKept(env, ops, w, e.kind.y);
    FoldKept(env, ops, w, e.kind.z);
    if e.kind.RotLit? { FoldKept(env, ops, w, e.kind.w); }
    LiteralOperand(env.bi, FoldExpr(ops, env.bi, e), e.ty);
  }

  lemma LiteralOperand(bi: Tables, x: Expr, t: Type)
    requires x.ty == t && (x.kind.VectorLit? || x.kind.RotLit? || x.kind.ListLit?)
    ensures Operand(bi, x, t)
  {
  }

  lemma {:induction false} ItemsKept(env: Env, ops: FloatOps, w: World, es: seq<Expr>)
    requires FloatLaws(ops)
    requires forall i :: 0 <= i < |es| ==> Typed(env, es[i]) && Unshadowed(env.bi, es[i])
    ensures Refines(EvalAll(ops, env.bi, w, es), EvalAll(ops, env.bi, w, FoldAll(ops, env.bi, es)))
    ensures (forall i :: 0 <= i < |es| ==> NothingLost(ops, env.bi, w, es[i]))
      ==> EvalAll(ops, env.bi, w, FoldAll(ops, env.bi, es)) == EvalAll(ops, env.bi, w, es)
    decreases es
  {
    hide FloatLaws, Typed, Unshadowed, EvalExpr, FoldExpr, NothingLost, Operand;
    if es != [] {
      FoldKept(env, ops, w, es[0]);
      ItemsKept(env, ops, w, es[1..]);
      assert FoldAll(ops, env.bi, es)[1..] == FoldAll(ops, env.bi, es[1..]);
      assert FoldAll(ops, env.bi, es)[0] == FoldExpr(ops, env.bi, es[0]);
    }
  }

  /** Folding a well-typed expression in which no variable is named like a constant keeps
      its type; if it has a value, so has the folded tree, and it is the same one; and where
      no selection loses a failure, the folded tree also fails exactly as the original does. */
  lemma {:induction false} FoldKept(env: Env, ops: FloatOps, w: World, e: Expr)
    requires Typed(env, e) && Unshadowed(env.bi, e)
    ensures Kept(env, ops, w, e)
    decreases e, 1
  {
    hide FloatLaws, ConstNamed, BinaryRule, UnaryRule, CastRule, CallRule, MemberRule, IsLValue, TypesOf;
    match e.kind
    case Ident(_) => IdentKept(env, ops, w, e);
    case VectorLit(_, _, _) => VectorKept(env, ops, w, e);
    case RotLit(_, _, _, _) => VectorKept(env, ops, w, e);
    case ListLit(items) =>
      if FloatLaws(ops) { ItemsKept(env, ops, w, items); }
      LiteralOperand(env.bi, FoldExpr(ops, env.bi, e), e.ty);
    case Member(_, _) => MemberKept(env, ops, w, e);
    case Cast(_, _) => CastKept(env, ops, w, e);
    case Unary(_, _) => UnaryKept(env, ops, w, e);
    case Binary(_, _, _) => BinaryKept(env, ops, w, e);
    case _ =>
  }

  /** A selection that folds keeps its outcome exactly when what it selects from has a value. */
  lemma SelectionKeptExactly(env: Env, ops: FloatOps, w: World, e: Expr)
    requires Typed(env, e) && Unshadowed(env.bi, e) && FloatLaws(ops)
    requires e.kind.Member? && FoldMember(ops, FoldExpr(ops, env.bi, e.kind.base), e.kind.member).Some?
    ensures EvalExpr(ops, env.bi, w, FoldExpr(ops, env.bi, e)) == EvalExpr(ops, env.bi, w, e)
      <==> EvalExpr(ops, env.bi, w, e.kind.base).Val?
  {
    hide FloatLaws, Typed, Unshadowed, ApplyMember;
    FoldKept(env, ops, w, e);
    LiteralEval(ops, env.bi, w, FoldExpr(ops, env.bi, e));
  }

  /** An identifier named like a constant keeps its outcome exactly when it is that constant
      or a variable that holds the constant's value. */
  lemma NamedLikeConstant(ops: FloatOps, bi: Tables, w: World, e: Expr)
    requires e.kind.Ident? && ConstNamed(bi.consts, e.kind.name).Some?
    ensures EvalExpr(ops, bi, w, FoldExpr(ops, bi, e)) == EvalExpr(ops, bi, w, e)
      <==> (e.lv ==> w.effect(e) == Some(ConstMeaning(ConstNamed(bi.consts, e.kind.name).value)))
  {
    hide ConstNamed;
    LiteralEval(ops, bi, w, FoldExpr(ops, bi, e));
  }
}
