/** The folder is idempotent, and keeps constant expressions constant. */
module FoldStable {
  import opened Syntax
  import opened Builtins
  import opened Fold

  /** No identifier that names a constant is left at the top. */
  predicate NotConstName(bi: Tables, e: Expr) {
    e.kind.Ident? ==> ConstNamed(bi.consts, e.kind.name).None?
  }

  /** A folded node is a literal, which is folded already. */
  lemma FoldedIsLiteral(ops: FloatOps, bi: Tables, op: Op, to: Type, l: Expr, r: Expr, m: char)
    ensures FoldBinary(ops, bi, op, l, r).Some? ==> IsLiteral(FoldBinary(ops, bi, op, l, r).value)
    ensures FoldUnary(ops, bi, op, l).Some? ==> IsLiteral(FoldUnary(ops, bi, op, l).value)
    ensures FoldCast(ops, bi, to, l).Some? ==> IsLiteral(FoldCast(ops, bi, to, l).value)
    ensures FoldMember(ops, l, m).Some? ==> IsLiteral(FoldMember(ops, l, m).value)
  {
    hide AsInt, AsFloat, AsString, IsIntOperand, IntBinary, Fold.Component;
  }

  lemma FoldedNotConst(ops: FloatOps, bi: Tables, e: Expr)
    ensures NotConstName(bi, FoldExpr(ops, bi, e))
  {
    hide FoldBinary, FoldUnary, FoldCast, FoldMember, ConstNamed, FoldAll;
    match e.kind
    case Unary(op, inner) =>
      var x := FoldExpr(ops, bi, inner);
      FoldedIsLiteral(ops, bi, op, TVoid, x, x, 'x');
    case Binary(op, l, r) =>
      FoldedIsLiteral(ops, bi, op, TVoid, FoldExpr(ops, bi, l), FoldExpr(ops, bi, r), 'x');
    case Cast(to, inner) =>
      var x := FoldExpr(ops, bi, inner);
      FoldedIsLiteral(ops, bi, OpPlus, to, x, x, 'x');
    case Member(base, m) =>
      var x := FoldExpr(ops, bi, base);
      FoldedIsLiteral(ops, bi, OpPlus, TVoid, x, x, m);
    case _ =>
  }

  lemma {:induction false} FoldAllTwice(ops: FloatOps, bi: Tables, es: seq<Expr>)
    ensures FoldAll(ops, bi, FoldAll(ops, bi, es)) == FoldAll(ops, bi, es)
    decreases es
  {
    hide FoldExpr;
    var once := FoldAll(ops, bi, es);
    forall i | 0 <= i < |es|
      ensures FoldAll(ops, bi, once)[i] == once[i]
    {
      FoldTwice(ops, bi, es[i]);
    }
  }

  /** Folding a folded tree changes nothing. */
  lemma {:induction false} FoldTwice(ops: FloatOps, bi: Tables, e: Expr)
    ensures FoldExpr(ops, bi, FoldExpr(ops, bi, e)) == FoldExpr(ops, bi, e)
    decreases e
  {
    hide FoldBinary, FoldUnary, FoldCast, FoldMember, ConstNamed, FoldAll;
    match e.kind
    case VectorLit(x, y, z) =>
      FoldTwice(ops, bi, x);
      FoldTwice(ops, bi, y);
      FoldTwice(ops, bi, z);
    case RotLit(x, y, z, w) =>
      FoldTwice(ops, bi, x);
      FoldTwice(ops, bi, y);
      FoldTwice(ops, bi, z);
      FoldTwice(ops, bi, w);
    case ListLit(items) => FoldAllTwice(ops, bi, items);
    case Unary(op, inner) =>
      FoldTwice(ops, bi, inner);
      var x := FoldExpr(ops, bi, inner);
      FoldedIsLiteral(ops, bi, op, TVoid, x, x, 'x');
    case Binary(op, l, r) =>
      FoldTwice(ops, bi, l);
      FoldTwice(ops, bi, r);
      FoldedIsLiteral(ops, bi, op, TVoid, FoldExpr(ops, bi, l), FoldExpr(ops, bi, r), 'x');
    case Cast(to, inner) =>
      FoldTwice(ops, bi, inner);
      var x := FoldExpr(ops, bi, inner);
      FoldedIsLiteral(ops, bi, OpPlus, to, x, x, 'x');
    case Member(base, m) =>
      FoldTwice(ops, bi, base);
      var x := FoldExpr(ops, bi, base);
      FoldedIsLiteral(ops, bi, OpPlus, TVoid, x, x, m);
    case _ =>
  }

  // ------------------------------------------------------------ constantness

  /** Does a member access occur in a place the folder reaches? */
  predicate HasMember(e: Expr)
    decreases e
  {
    match e.kind
    case Member(_, _) => true
    case VectorLit(x, y, z) => HasMember(x) || HasMember(y) || HasMember(z)
    case RotLit(x, y, z, w) => HasMember(x) || HasMember(y) || HasMember(z) || HasMember(w)
    case ListLit(items) => exists i :: 0 <= i < |items| && HasMember(items[i])
    case Unary(_, x) => HasMember(x)
    case Binary(_, l, r) => HasMember(l) || HasMember(r)
    case Cast(_, x) => HasMember(x)
    case _ => false
  }

  /** Constant, not counting the components that a folded selection drops. */
  predicate ConstantInUse(ops: FloatOps, bi: Tables, e: Expr)
    decreases e
  {
    match e.kind
    case Member(base, m) =>
      FoldMember(ops, FoldExpr(ops, bi, base), m).Some? || ConstantInUse(ops, bi, base)
    case VectorLit(x, y, z) => ConstantInUse(ops, bi, x) && ConstantInUse(ops, bi, y) && ConstantInUse(ops, bi, z)
    case RotLit(x, y, z, w) =>
      ConstantInUse(ops, bi, x) && ConstantInUse(ops, bi, y) && ConstantInUse(ops, bi, z) && ConstantInUse(ops, bi, w)
    case ListLit(items) => forall i :: 0 <= i < |items| ==> ConstantInUse(ops, bi, items[i])
    case Unary(_, x) => ConstantInUse(ops, bi, x)
    case Binary(_, l, r) => ConstantInUse(ops, bi, l) && ConstantInUse(ops, bi, r)
    case Cast(_, x) => ConstantInUse(ops, bi, x)
    case _ => IsConstant(bi, e)
  }

  lemma OperandConstant(ops: FloatOps, bi: Tables, e: Expr)
    ensures AsInt(ops, bi, e).Some? ==> IsConstant(bi, e)
    ensures AsFloat(ops, bi, e).Some? ==> IsConstant(bi, e)
    ensures AsString(bi, e).Some? ==> IsConstant(bi, e)
  {
  }

  /** What folds to a literal had constant operands. */
  lemma FoldedWasConstant(ops: FloatOps, bi: Tables, op: Op, to: Type, l: Expr, r: Expr)
    ensures FoldBinary(ops, bi, op, l, r).Some? ==> IsConstant(bi, l) && IsConstant(bi, r)
    ensures FoldUnary(ops, bi, op, l).Some? ==> IsConstant(bi, l)
    ensures FoldCast(ops, bi, to, l).Some? ==> IsConstant(bi, l)
  {
    hide IsConstant, AsInt, AsFloat, AsString, IntBinary, FloatBinary;
    OperandConstant(ops, bi, l);
    OperandConstant(ops, bi, r);
  }

  lemma {:induction false} ConstantIsInUse(ops: FloatOps, bi: Tables, e: Expr)
    ensures IsConstant(bi, e) ==> ConstantInUse(ops, bi, e)
    ensures !HasMember(e) && ConstantInUse(ops, bi, e) ==> IsConstant(bi, e)
    decreases e
  {
    hide FoldExpr, FoldMember, ConstNamed;
    match e.kind
    case VectorLit(x, y, z) =>
      ConstantIsInUse(ops, bi, x);
      ConstantIsInUse(ops, bi, y);
      ConstantIsInUse(ops, bi, z);
    case RotLit(x, y, z, w) =>
      ConstantIsInUse(ops, bi, x);
      ConstantIsInUse(ops, bi, y);
      ConstantIsInUse(ops, bi, z);
      ConstantIsInUse(ops, bi, w);
    case ListLit(items) => AllConstantInUse(ops, bi, items);
    case Unary(_, x) => ConstantIsInUse(ops, bi, x);
    case Cast(_, x) => ConstantIsInUse(ops, bi, x);
    case Binary(_, l, r) =>
      ConstantIsInUse(ops, bi, l);
      ConstantIsInUse(ops, bi, r);
    case Member(base, _) => ConstantIsInUse(ops, bi, base);
    case _ =>
  }

  lemma {:induction false} AllConstantInUse(ops: FloatOps, bi: Tables, es: seq<Expr>)
    ensures (forall i :: 0 <= i < |es| ==> IsConstant(bi, es[i]))
      ==> forall i :: 0 <= i < |es| ==> ConstantInUse(ops, bi, es[i])
    ensures (forall i :: 0 <= i < |es| ==> !HasMember(es[i]) && ConstantInUse(ops, bi, es[i]))
      ==> forall i :: 0 <= i < |es| ==> IsConstant(bi, es[i])
    decreases es, 0
  {
    hide ConstantInUse, IsConstant, HasMember;
    forall i | 0 <= i < |es|
      ensures IsConstant(bi, es[i]) ==> ConstantInUse(ops, bi, es[i])
      ensures !HasMember(es[i]) && ConstantInUse(ops, bi, es[i]) ==> IsConstant(bi, es[i])
    {
      ConstantIsInUse(ops, bi, es[i]);
    }
  }

  lemma {:induction false} FoldConstantAll(ops: FloatOps, bi: Tables, es: seq<Expr>)
    ensures forall i :: 0 <= i < |es| ==> (IsConstant(bi, FoldAll(ops, bi, es)[i]) <==> ConstantInUse(ops, bi, es[i]))
    decreases es, 0
  {
    hide FoldExpr, IsConstant, ConstantInUse;
    forall i | 0 <= i < |es|
      ensures IsConstant(bi, FoldAll(ops, bi, es)[i]) <==> ConstantInUse(ops, bi, es[i])
    {
      FoldConstantExactly(ops, bi, es[i]);
    }
  }

  /** Folding gives a constant expression exactly when everything that no folded selection
      drops is constant. */
  lemma {:induction false} FoldConstantExactly(ops: FloatOps, bi: Tables, e: Expr)
    ensures IsConstant(bi, FoldExpr(ops, bi, e)) <==> ConstantInUse(ops, bi, e)
    decreases e
  {
    hide FoldBinary, FoldUnary, FoldCast, FoldMember, ConstNamed, FoldAll;
    match e.kind
    case VectorLit(x, y, z) =>
      FoldConstantExactly(ops, bi, x);
      FoldConstantExactly(ops, bi, y);
      FoldConstantExactly(ops, bi, z);
    case RotLit(x, y, z, w) =>
      FoldConstantExactly(ops, bi, x);
      FoldConstantExactly(ops, bi, y);
      FoldConstantExactly(ops, bi, z);
      FoldConstantExactly(ops, bi, w);
    case ListLit(items) =>
      FoldConstantAll(ops, bi, items);
      var folded := FoldAll(ops, bi, items);
      assert IsConstant(bi, FoldExpr(ops, bi, e)) <==> forall i :: 0 <= i < |folded| ==> IsConstant(bi, folded[i]);
    case Unary(op, inner) =>
      FoldConstantExactly(ops, bi, inner);
      var x := FoldExpr(ops, bi, inner);
      FoldedIsLiteral(ops, bi, op, TVoid, x, x, 'x');
      FoldedWasConstant(ops, bi, op, TVoid, x, x);
    case Binary(op, l, r) =>
      FoldConstantExactly(ops, bi, l);
      FoldConstantExactly(ops, bi, r);
      FoldedIsLiteral(ops, bi, op, TVoid, FoldExpr(ops, bi, l), FoldExpr(ops, bi, r), 'x');
      FoldedWasConstant(ops, bi, op, TVoid, FoldExpr(ops, bi, l), FoldExpr(ops, bi, r));
    case Cast(to, inner) =>
      FoldConstantExactly(ops, bi, inner);
      var x := FoldExpr(ops, bi, inner);
      FoldedIsLiteral(ops, bi, OpPlus, to, x, x, 'x');
      FoldedWasConstant(ops, bi, OpPlus, to, x, x);
    case Member(base, m) =>
      FoldConstantExactly(ops, bi, base);
      var x := FoldExpr(ops, bi, base);
      FoldedIsLiteral(ops, bi, OpPlus, TVoid, x, x, m);
    case _ =>
  }

  /** Folding keeps constant expressions constant; and where no member access drops parts of
      a tree, it makes nothing constant that was not. */
  lemma FoldConstant(ops: FloatOps, bi: Tables, e: Expr)
    ensures IsConstant(bi, e) ==> IsConstant(bi, FoldExpr(ops, bi, e))
    ensures !HasMember(e) ==> (IsConstant(bi, FoldExpr(ops, bi, e)) <==> IsConstant(bi, e))
  {
    hide IsConstant, ConstantInUse, FoldExpr, HasMember;
    FoldConstantExactly(ops, bi, e);
    ConstantIsInUse(ops, bi, e);
  }

  /** With a member access it can: the call in `<1, f(), 3>.x` disappears. */
  lemma MemberMakesConstant(ops: FloatOps, bi: Tables)
    ensures exists e :: HasMember(e) && !IsConstant(bi, e) && IsConstant(bi, FoldExpr(ops, bi, e))
  {
    var one, three := MakeInt(1), MakeInt(3);
    var call := Node(TInteger, false, Call("f", []));
    var vector := Node(TVector, false, VectorLit(one, call, three));
    var e := Node(TFloat, false, Member(vector, 'x'));
    assert FoldExpr(ops, bi, vector) == vector;
    assert !IsConstant(bi, call) && !IsConstant(bi, vector);
    assert HasMember(e) && FoldExpr(ops, bi, e) == MakeFloat(ops.ofInt(1));
  }
}
