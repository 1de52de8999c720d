/** Two exact statements: constant expressions that pass the checker evaluate to a value of
    their type or divide by zero; and numeric ones fold to a literal exactly when they have
    a value.  And three inputs that show where the general statements have to stop. */
module FoldExact {
  import opened Syntax
  import opened Builtins
  import opened Typing
  import opened CheckSpec
  import opened CheckExact
  import opened Fold
  import opened Eval
  import Words
  import opened FoldStable
  import opened FoldMeaning

  // ----------------------------------------------------------- type soundness

  /** No variables, calls, assignments or increments; and every component of a rotation is
      annotated with a numeric type, which the checker does not ask. */
  predicate ClosedExpr(e: Expr)
    decreases e
  {
    match e.kind
    case IntLit(_) => true
    case FloatLit(_) => true
    case StringLit(_) => true
    case Ident(_) => !e.lv
    case VectorLit(x, y, z) => ClosedExpr(x) && ClosedExpr(y) && ClosedExpr(z)
    case RotLit(x, y, z, w) =>
      && ClosedExpr(x) && ClosedExpr(y) && ClosedExpr(z) && ClosedExpr(w)
      && Numeric(x.ty) && Numeric(y.ty) && Numeric(z.ty) && Numeric(w.ty)
    case ListLit(items) => forall i :: 0 <= i < |items| ==> ClosedExpr(items[i])
    case Member(base, _) => ClosedExpr(base)
    case Cast(_, x) => ClosedExpr(x)
    case Unary(op, x) => !IsPostfixOp(op) && ClosedExpr(x)
    case Binary(_, l, r) => ClosedExpr(l) && ClosedExpr(r)
    case _ => false
  }

  /** A value of type `t`, or a division by zero. */
  predicate Fits(o: Outcome, t: Type) {
    o.DivZero? || (o.Val? && TypeOf(o.v) == t)
  }

  lemma IntegersSound(op: Op, a: Value, b: Value, t: Type)
    requires BinaryRule(op, TypeOf(a), TypeOf(b), t) && !YieldsInteger(op) && a.VInt? && b.VInt?
    ensures Fits(Integers(op, a.i, b.i), t)
  {
    hide Words.Wrapped, Words.Doubled, Words.Halved, Words.Bitwise, Sign, Magnitude;
  }

  lemma FloatsSound(op: Op, a: Value, b: Value, t: Type, ops: FloatOps)
    requires BinaryRule(op, TypeOf(a), TypeOf(b), t) && !YieldsInteger(op) && IsNumber(a) && IsNumber(b)
    requires !(a.VInt? && b.VInt?)
    ensures Fits(Floats(ops, op, ToFloat(ops, a), ToFloat(ops, b)), t)
  {
    hide ToFloat, IsNull;
  }

  lemma NumbersSound(op: Op, a: Value, b: Value, t: Type, ops: FloatOps, w: World)
    requires BinaryRule(op, TypeOf(a), TypeOf(b), t) && !YieldsInteger(op) && IsNumber(a) && IsNumber(b)
    ensures Fits(ApplyBinary(ops, w, op, a, b), t)
  {
    hide BinaryRule, Integers, Floats, Others, ToFloat, NonZero, CompareNumbers;
    if a.VInt? && b.VInt? { IntegersSound(op, a, b, t); } else { FloatsSound(op, a, b, t, ops); }
  }

  lemma SumSound(op: Op, a: Value, b: Value, t: Type, ops: FloatOps, w: World)
    requires BinaryRule(op, TypeOf(a), TypeOf(b), t) && (op == OpPlus || op == OpMinus) && !(IsNumber(a) && IsNumber(b))
    ensures Fits(Others(ops, w, op, a, b), t)
  {
    hide IsNull, ToFloat, Comparable;
  }

  lemma ProductSound(op: Op, a: Value, b: Value, t: Type, ops: FloatOps, w: World)
    requires BinaryRule(op, TypeOf(a), TypeOf(b), t) && !YieldsInteger(op) && !(IsNumber(a) && IsNumber(b))
    requires op != OpPlus && op != OpMinus
    ensures Fits(Others(ops, w, op, a, b), t)
  {
    hide IsNull, ToFloat, Comparable;
    if op == OpStar {
    } else if op == OpSlash {
    }
  }

  lemma OthersSound(op: Op, a: Value, b: Value, t: Type, ops: FloatOps, w: World)
    requires BinaryRule(op, TypeOf(a), TypeOf(b), t) && !YieldsInteger(op) && !(IsNumber(a) && IsNumber(b))
    ensures Fits(Others(ops, w, op, a, b), t)
  {
    hide Others, BinaryRule;
    if op == OpPlus || op == OpMinus { SumSound(op, a, b, t, ops, w); } else { ProductSound(op, a, b, t, ops, w); }
  }

  lemma BinarySoundness(op: Op, a: Value, b: Value, t: Type, ops: FloatOps, w: World)
    requires BinaryRule(op, TypeOf(a), TypeOf(b), t)
    ensures Fits(ApplyBinary(ops, w, op, a, b), t)
  {
    hide Integers, Floats, Others, NonZero, CompareNumbers;
    if YieldsInteger(op) {
      LogicType(op, TypeOf(a), TypeOf(b), t);
    } else {
      hide BinaryRule, YieldsInteger;
      if IsNumber(a) && IsNumber(b) { NumbersSound(op, a, b, t, ops, w); } else { OthersSound(op, a, b, t, ops, w); }
    }
  }

  lemma LogicType(op: Op, l: Type, r: Type, t: Type)
    requires BinaryRule(op, l, r, t) && YieldsInteger(op)
    ensures t.TInteger?
  {
    hide Arithmetic, Comparable;
  }

  lemma UnarySoundness(op: Op, x: Value, t: Type, ops: FloatOps, w: World)
    requires UnaryRule(op, TypeOf(x), t) && !IsPostfixOp(op)
    ensures Fits(ApplyUnary(ops, w, op, x), t)
  {
    hide Words.Wrapped, NegVec, NegRot, NonZero;
  }

  lemma CastSoundness(to: Type, x: Value, ops: FloatOps, w: World)
    requires CastRule(TypeOf(x), to)
    ensures Fits(ApplyCast(ops, w, to, x), to)
  {
  }

  lemma MemberSoundness(v: Value, m: char)
    requires MemberRule(TypeOf(v), m)
    ensures Fits(ApplyMember(v, m), TFloat)
  {
  }

  lemma {:induction false} ItemsSound(env: Env, ops: FloatOps, w: World, es: seq<Expr>)
    requires forall i :: 0 <= i < |es| ==> Typed(env, es[i]) && ClosedExpr(es[i])
    ensures Fits(EvalAll(ops, env.bi, w, es), TList)
    decreases es
  {
    hide Typed, ClosedExpr, EvalExpr;
    if es != [] {
      TypeSound(env, ops, w, es[0]);
      ItemsSound(env, ops, w, es[1..]);
    }
  }

  lemma {:induction false} RotSound(env: Env, ops: FloatOps, w: World, e: Expr)
    requires Typed(env, e) && ClosedExpr(e) && e.kind.RotLit?
    ensures Fits(EvalExpr(ops, env.bi, w, e), e.ty)
    decreases e, 0
  {
    hide ToFloat;
    TypeSound(env, ops, w, e.kind.x);
    TypeSound(env, ops, w, e.kind.y);
    TypeSound(env, ops, w, e.kind.z);
    TypeSound(env, ops, w, e.kind.w);
  }

  /** A well-typed constant expression has a value of its type, or divides by zero. */
  lemma {:induction false} TypeSound(env: Env, ops: FloatOps, w: World, e: Expr)
    requires Typed(env, e) && ClosedExpr(e)
    ensures Fits(EvalExpr(ops, env.bi, w, e), e.ty)
    decreases e, 1
  {
    hide BinaryRule, UnaryRule, CastRule, MemberRule, CallRule, ApplyBinary, ApplyUnary, ApplyCast, ApplyMember,
         Lookup, ConstNamed, IsLValue, ToFloat, TypesOf;
    match e.kind
    case VectorLit(x, y, z) =>
      TypeSound(env, ops, w, x);
      TypeSound(env, ops, w, y);
      TypeSound(env, ops, w, z);
    case RotLit(_, _, _, _) => RotSound(env, ops, w, e);
    case ListLit(items) => ItemsSound(env, ops, w, items);
    case Member(base, m) =>
      TypeSound(env, ops, w, base);
      var b := EvalExpr(ops, env.bi, w, base);
      if b.Val? { MemberSoundness(b.v, m); }
    case Cast(to, x) =>
      TypeSound(env, ops, w, x);
      var v := EvalExpr(ops, env.bi, w, x);
      if v.Val? { CastSoundness(to, v.v, ops, w); }
    case Unary(op, x) =>
      TypeSound(env, ops, w, x);
      var v := EvalExpr(ops, env.bi, w, x);
      if v.Val? { UnarySoundness(op, v.v, e.ty, ops, w); }
    case Binary(op, l, r) =>
      TypeSound(env, ops, w, l);
      TypeSound(env, ops, w, r);
      var a, b := EvalExpr(ops, env.bi, w, l), EvalExpr(ops, env.bi, w, r);
      if a.Val? && b.Val? { BinarySoundness(op, a.v, b.v, e.ty, ops, w); }
    case _ =>
  }

  // ------------------------------------------------------- exactly these have values

  /** No variables, calls, assignments or increments. */
  predicate Effectless(e: Expr)
    decreases e
  {
    match e.kind
    case IntLit(_) => true
    case FloatLit(_) => true
    case StringLit(_) => true
    case Ident(_) => !e.lv
    case VectorLit(x, y, z) => Effectless(x) && Effectless(y) && Effectless(z)
    case RotLit(x, y, z, w) => Effectless(x) && Effectless(y) && Effectless(z) && Effectless(w)
    case ListLit(items) => forall i :: 0 <= i < |items| ==> Effectless(items[i])
    case Member(base, _) => Effectless(base)
    case Cast(_, x) => Effectless(x)
    case Unary(op, x) => !IsPostfixOp(op) && Effectless(x)
    case Binary(_, l, r) => Effectless(l) && Effectless(r)
    case _ => false
  }

  /** A value in the place of a rotation's component is a number, so its type is numeric. */
  lemma ComponentNumeric(env: Env, ops: FloatOps, w: World, e: Expr)
    requires Typed(env, e) && ClosedExpr(e)
    requires Eval.Component(ops, EvalExpr(ops, env.bi, w, e)).Val?
    ensures Numeric(e.ty)
  {
    hide Typed, ClosedExpr, EvalExpr, ToFloat;
    TypeSound(env, ops, w, e);
  }

  lemma {:induction false} ItemsClosed(env: Env, ops: FloatOps, w: World, es: seq<Expr>)
    requires forall i :: 0 <= i < |es| ==> Typed(env, es[i]) && Effectless(es[i])
    requires EvalAll(ops, env.bi, w, es).Val?
    ensures forall i :: 0 <= i < |es| ==> ClosedExpr(es[i])
    decreases es
  {
    hide Typed, ClosedExpr, Effectless, EvalExpr;
    if es != [] {
      ValueClosed(env, ops, w, es[0]);
      ItemsClosed(env, ops, w, es[1..]);
      assert es == [es[0]] + es[1..];
    }
  }

  /** What has a value has numbers in all its rotations, by the types that the checker notes. */
  lemma {:induction false} ValueClosed(env: Env, ops: FloatOps, w: World, e: Expr)
    requires Typed(env, e) && Effectless(e) && EvalExpr(ops, env.bi, w, e).Val?
    ensures ClosedExpr(e)
    decreases e
  {
    hide BinaryRule, UnaryRule, CastRule, MemberRule, CallRule, ApplyBinary, ApplyUnary, ApplyCast, ApplyMember,
         Lookup, ConstNamed, IsLValue, ToFloat, TypesOf;
    match e.kind
    case VectorLit(x, y, z) =>
      ValueClosed(env, ops, w, x);
      ValueClosed(env, ops, w, y);
      ValueClosed(env, ops, w, z);
    case RotLit(x, y, z, s) =>
      ValueClosed(env, ops, w, x);
      ValueClosed(env, ops, w, y);
      ValueClosed(env, ops, w, z);
      ValueClosed(env, ops, w, s);
      ComponentNumeric(env, ops, w, x);
      ComponentNumeric(env, ops, w, y);
      ComponentNumeric(env, ops, w, z);
      ComponentNumeric(env, ops, w, s);
    case ListLit(items) => ItemsClosed(env, ops, w, items);
    case Member(base, _) => ValueClosed(env, ops, w, base);
    case Cast(_, x) => ValueClosed(env, ops, w, x);
    case Unary(_, x) => ValueClosed(env, ops, w, x);
    case Binary(_, l, r) =>
      ValueClosed(env, ops, w, l);
      ValueClosed(env, ops, w, r);
    case _ =>
  }

  /** Exactly which well-typed constant expressions mean something: unless it divides by
      zero, one has a value of its type if and only if every component of every rotation in
      it is annotated with a numeric type. */
  lemma TypeSoundExactly(env: Env, ops: FloatOps, w: World, e: Expr)
    requires Typed(env, e) && Effectless(e)
    ensures var o := EvalExpr(ops, env.bi, w, e);
      o.Val? && TypeOf(o.v) == e.ty <==> ClosedExpr(e) && !o.DivZero?
  {
    hide Typed, Effectless, ClosedExpr, EvalExpr;
    if ClosedExpr(e) { TypeSound(env, ops, w, e); }
    if EvalExpr(ops, env.bi, w, e).Val? { ValueClosed(env, ops, w, e); }
  }

  /** The same of the checker's output, on the types that the checker itself writes. */
  lemma CheckedTypeSoundExactly(env: Env, ops: FloatOps, w: World, e: Expr)
    requires EnvOk(env) && Proper(e)
    requires CheckExpr(env, e).errs == 0 && Effectless(CheckExpr(env, e).v)
    ensures var a := CheckExpr(env, e).v;
      var o := EvalExpr(ops, env.bi, w, a);
      o.Val? && TypeOf(o.v) == a.ty <==> ClosedExpr(a) && !o.DivZero?
  {
    hide CheckExpr, EnvOk, Proper, Effectless, ClosedExpr, EvalExpr, Typed;
    CheckSound(env, e);
    TypeSoundExactly(env, ops, w, CheckExpr(env, e).v);
  }

  /** So in particular of the checker's output: an expression that it accepts and that is constant
      in this sense evaluates to a value of the annotated type, or divides by zero. */
  lemma CheckedTypeSound(env: Env, ops: FloatOps, w: World, e: Expr)
    requires EnvOk(env) && Proper(e)
    requires CheckExpr(env, e).errs == 0 && ClosedExpr(CheckExpr(env, e).v)
    ensures Fits(EvalExpr(ops, env.bi, w, CheckExpr(env, e).v), CheckExpr(env, e).v.ty)
  {
    hide CheckExpr, EnvOk, Proper, ClosedExpr, EvalExpr, Typed;
    CheckSound(env, e);
    TypeSound(env, ops, w, CheckExpr(env, e).v);
  }

  // -------------------------------------------------------- the numeric language

  /** Number literals, numeric constants, numeric operators and casts to numbers. */
  predicate NumericExpr(bi: Tables, e: Expr)
    decreases e
  {
    match e.kind
    case IntLit(_) => true
    case FloatLit(_) => true
    case Ident(name) =>
      var c := ConstNamed(bi.consts, name);
      !e.lv && c.Some? && (c.value.ConstInt? || c.value.ConstFloat?)
    case Cast(to, x) => Numeric(to) && NumericExpr(bi, x)
    case Unary(op, x) => !IsPostfixOp(op) && NumericExpr(bi, x)
    case Binary(_, l, r) => NumericExpr(bi, l) && NumericExpr(bi, r)
    case _ => false
  }

  lemma {:induction false} NumericPlain(bi: Tables, e: Expr)
    requires NumericExpr(bi, e)
    ensures Unshadowed(bi, e) && !HasMember(e)
    decreases e
  {
    hide ConstNamed;
    match e.kind
    case Cast(_, x) => NumericPlain(bi, x);
    case Unary(_, x) => NumericPlain(bi, x);
    case Binary(_, l, r) =>
      NumericPlain(bi, l);
      NumericPlain(bi, r);
    case _ =>
  }

  /** Where a numeric expression has a value the folder finds a number literal; where it has
      none, it divides by zero. */
  lemma {:induction false} NumericFolds(env: Env, ops: FloatOps, w: World, e: Expr)
    requires FloatLaws(ops) && Typed(env, e) && NumericExpr(env.bi, e)
    ensures if EvalExpr(ops, env.bi, w, e).Val? then IsNumLit(FoldExpr(ops, env.bi, e))
            else EvalExpr(ops, env.bi, w, e) == DivZero
    decreases e
  {
    hide FloatLaws, BinaryRule, UnaryRule, CastRule, ApplyBinary, ApplyUnary, ApplyCast, FoldBinary, FoldUnary,
         FoldCast, HasMember, Unshadowed, Operand;
    match e.kind
    case Cast(to, x) =>
      NumericFolds(env, ops, w, x);
      NumericPlain(env.bi, x);
      FoldKept(env, ops, w, x);
      var f := FoldExpr(ops, env.bi, x);
      CastFolded(ops, env.bi, w, to, f) by { KeptType(env, ops, w, x); }
      if IsNumLit(f) { LiteralEval(ops, env.bi, w, f); }
    case Unary(op, x) =>
      NumericFolds(env, ops, w, x);
      NumericPlain(env.bi, x);
      FoldKept(env, ops, w, x);
      var f := FoldExpr(ops, env.bi, x);
      UnaryFolded(ops, env.bi, w, op, f, e.ty) by { KeptType(env, ops, w, x); }
      if IsNumLit(f) { LiteralEval(ops, env.bi, w, f); }
    case Binary(op, l, r) =>
      NumericFolds(env, ops, w, l);
      NumericFolds(env, ops, w, r);
      NumericPlain(env.bi, l);
      NumericPlain(env.bi, r);
      FoldKept(env, ops, w, l);
      FoldKept(env, ops, w, r);
      var a, b := FoldExpr(ops, env.bi, l), FoldExpr(ops, env.bi, r);
      if IsNumLit(a) && IsNumLit(b) {
        NumbersFolded(ops, env.bi, w, op, a, b, e.ty) by { KeptType(env, ops, w, l); KeptType(env, ops, w, r); }
        LiteralEval(ops, env.bi, w, a);
        LiteralEval(ops, env.bi, w, b);
      }
    case _ =>
  }

  lemma KeptType(env: Env, ops: FloatOps, w: World, e: Expr)
    requires Kept(env, ops, w, e)
    ensures FoldExpr(ops, env.bi, e).ty == e.ty
    ensures Operand(env.bi, FoldExpr(ops, env.bi, e), FoldExpr(ops, env.bi, e).ty)
  {
    hide FoldExpr, EvalExpr;
  }

  /** Folding is exact on numbers: the result is a literal exactly when evaluation does not
      divide by zero, and then the literal is the value. */
  lemma NumericExact(env: Env, ops: FloatOps, w: World, e: Expr)
    requires FloatLaws(ops) && Typed(env, e) && NumericExpr(env.bi, e)
    ensures var f := FoldExpr(ops, env.bi, e);
      var o := EvalExpr(ops, env.bi, w, e);
      && (IsLiteral(f) <==> o != DivZero)
      && (IsLiteral(f) ==> o == Val(LitValue(f)) && TypeOf(o.v) == e.ty)
  {
    hide FloatLaws, Typed, NumericExpr, HasMember, Unshadowed, NothingLost;
    NumericFolds(env, ops, w, e);
    NumericPlain(env.bi, e);
    WithoutMembers(ops, env.bi, w, e);
    FoldKept(env, ops, w, e);
    KeptType(env, ops, w, e);
    var f := FoldExpr(ops, env.bi, e);
    if IsLiteral(f) {
      LiteralEval(ops, env.bi, w, f);
      NumLitType(env.bi, f) by { NumericResult(env, ops, w, e); }
    }
  }

  lemma NumericResult(env: Env, ops: FloatOps, w: World, e: Expr)
    requires FloatLaws(ops) && Typed(env, e) && NumericExpr(env.bi, e)
    requires IsLiteral(FoldExpr(ops, env.bi, e))
    ensures IsNumLit(FoldExpr(ops, env.bi, e))
  {
    hide FloatLaws, Typed, NumericExpr, HasMember, Unshadowed, NothingLost, FoldExpr;
    NumericFolds(env, ops, w, e);
    NumericPlain(env.bi, e);
    WithoutMembers(ops, env.bi, w, e);
    FoldKept(env, ops, w, e);
    LiteralEval(ops, env.bi, w, FoldExpr(ops, env.bi, e));
  }

  /** The components of a vector literal, as numeric expressions. */
  predicate NumericVector(bi: Tables, e: Expr) {
    e.kind.VectorLit? && NumericExpr(bi, e.kind.x) && NumericExpr(bi, e.kind.y) && NumericExpr(bi, e.kind.z)
  }

  lemma NumericComponent(env: Env, ops: FloatOps, w: World, e: Expr)
    requires FloatLaws(ops) && Typed(env, e) && NumericExpr(env.bi, e)
    ensures Unshadowed(env.bi, e)
    ensures Eval.Component(ops, EvalExpr(ops, env.bi, w, e)).Val? <==> IsLiteral(FoldExpr(ops, env.bi, e))
  {
    hide FloatLaws, Typed, NumericExpr, Unshadowed, FoldExpr, EvalExpr, ToFloat;
    NumericPlain(env.bi, e);
    NumericFolds(env, ops, w, e);
    NumericExact(env, ops, w, e);
  }

  /** A selection from a vector of numeric expressions that folds keeps its outcome exactly
      when the dropped components fold to literals too, as the folded vector shows. */
  lemma NumericSelectionExact(env: Env, ops: FloatOps, w: World, e: Expr)
    requires FloatLaws(ops) && Typed(env, e) && e.kind.Member? && NumericVector(env.bi, e.kind.base)
    requires FoldMember(ops, FoldExpr(ops, env.bi, e.kind.base), e.kind.member).Some?
    ensures var f := FoldExpr(ops, env.bi, e.kind.base);
      (EvalExpr(ops, env.bi, w, FoldExpr(ops, env.bi, e)) == EvalExpr(ops, env.bi, w, e)) <==>
      IsLiteral(f.kind.x) && IsLiteral(f.kind.y) && IsLiteral(f.kind.z)
  {
    hide FloatLaws, NumericExpr, FoldMember, ToFloat, IsLiteral, TypesOf, LitValue;
    var VectorLit(x, y, z) := e.kind.base.kind;
    NumericComponent(env, ops, w, x);
    NumericComponent(env, ops, w, y);
    NumericComponent(env, ops, w, z);
    SelectionKeptExactly(env, ops, w, e);
  }

  // ------------------------------------------------- where the statements stop

  function Int(i: Int64): Expr {
    MakeInt(i)
  }

  /** The tree of `1 / 0`. */
  function Quotient(): Expr {
    Node(TInteger, false, Binary(OpSlash, Int(1), Int(0)))
  }

  lemma QuotientTyped(env: Env)
    ensures Typed(env, Quotient()) && Unshadowed(env.bi, Quotient()) && Quotient().ty == TInteger
  {
    assert Typed(env, Int(1)) && Typed(env, Int(0));
  }

  lemma QuotientStays(bi: Tables, ops: FloatOps)
    ensures FoldExpr(ops, bi, Quotient()) == Quotient()
  {
    assert FoldExpr(ops, bi, Int(1)) == Int(1) && FoldExpr(ops, bi, Int(0)) == Int(0);
    assert FoldBinary(ops, bi, OpSlash, Int(1), Int(0)) == None;
  }

  lemma QuotientFails(bi: Tables, ops: FloatOps, w: World)
    ensures EvalExpr(ops, bi, w, Quotient()) == DivZero
  {
    assert EvalExpr(ops, bi, w, Int(1)) == Val(VInt(1)) && EvalExpr(ops, bi, w, Int(0)) == Val(VInt(0));
  }

  function QuotientVector(): Expr {
    Node(TVector, false, VectorLit(Int(1), Quotient(), Int(3)))
  }

  lemma QuotientVectorMeaning(bi: Tables, ops: FloatOps, w: World)
    ensures FoldExpr(ops, bi, QuotientVector()) == QuotientVector()
    ensures EvalExpr(ops, bi, w, QuotientVector()) == DivZero
  {
    hide Quotient, FoldBinary, ApplyBinary;
    QuotientStays(bi, ops);
    QuotientFails(bi, ops, w);
    assert FoldExpr(ops, bi, Int(1)) == Int(1) && FoldExpr(ops, bi, Int(3)) == Int(3);
    assert EvalExpr(ops, bi, w, Int(1)) == Val(VInt(1));
  }

  lemma QuotientVectorTyped(env: Env)
    ensures Typed(env, QuotientVector()) && Unshadowed(env.bi, QuotientVector())
  {
    hide Quotient, BinaryRule;
    QuotientTyped(env);
    assert Typed(env, Int(1)) && Typed(env, Int(3));
  }

  /** `<1, 1 / 0, 3>.x` divides by zero, yet it folds to `1.0`: with member access, folding
      keeps values but not failures. */
  lemma MemberDropsFailure(env: Env, ops: FloatOps, w: World)
    ensures var e := Node(TFloat, false, Member(QuotientVector(), 'x'));
      && Typed(env, e) && Unshadowed(env.bi, e)
      && EvalExpr(ops, env.bi, w, e) == DivZero
      && EvalExpr(ops, env.bi, w, FoldExpr(ops, env.bi, e)) == Val(VFloat(ops.ofInt(1)))
  {
    hide Quotient, FoldBinary, ApplyBinary, BinaryRule;
    QuotientVectorTyped(env);
    QuotientVectorMeaning(env.bi, ops, w);
  }

  /** A global named like a constant is well typed and evaluates to its own value, but it
      folds to the constant. */
  lemma ShadowedGlobalFolded(ops: FloatOps, w: World, own: Int64)
    requires w.effect(Node(TInteger, true, Ident("TRUE"))) == Some(VInt(own))
    ensures var bi := Tables([], [BuiltinConst("TRUE", ConstInt(1))], [], AsDeclared);
      var env := Env(bi, false, [map["TRUE" := Sym(SymGlobal, TInteger, [])]]);
      var e := Node(TInteger, true, Ident("TRUE"));
      && Typed(env, e) && !Unshadowed(bi, e)
      && EvalExpr(ops, bi, w, e) == Val(VInt(own))
      && EvalExpr(ops, bi, w, FoldExpr(ops, bi, e)) == Val(VInt(1))
  {
    var bi := Tables([], [BuiltinConst("TRUE", ConstInt(1))], [], AsDeclared);
    assert ConstNamed(bi.consts, "TRUE") == Some(ConstInt(1));
    var env := Env(bi, false, [map["TRUE" := Sym(SymGlobal, TInteger, [])]]);
    assert Lookup(env.scopes, "TRUE") == Some(Sym(SymGlobal, TInteger, []));
  }

  /** The checker does not look at the components of a rotation: `<"a", 0, 0, 0>` is
      accepted, and has no value. */
  lemma RotationOfText(env: Env, ops: FloatOps, w: World)
    ensures var e := Node(TRotation, false, RotLit(MakeString("a", TString), Int(0), Int(0), Int(0)));
      Typed(env, e) && Effectless(e) && !ClosedExpr(e) && EvalExpr(ops, env.bi, w, e) == Stuck
  {
    assert Typed(env, MakeString("a", TString)) && Typed(env, Int(0));
    assert EvalExpr(ops, env.bi, w, MakeString("a", TString)) == Val(VString("a"));
  }
}
