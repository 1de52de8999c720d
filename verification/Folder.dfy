/** The folder as it runs, with the flag it returns beside the tree. */
module Folder {
  import opened Syntax
  import opened Builtins
  import opened Fold
  import opened FoldStable

  /** What the flag says of the folded tree: it is a literal, a vector of literals, or any
      rotation or list at all, constant or not. */
  predicate Flagged(f: Expr) {
    || IsLiteral(f)
    || (f.kind.VectorLit? && IsLiteral(f.kind.x) && IsLiteral(f.kind.y) && IsLiteral(f.kind.z))
    || f.kind.RotLit?
    || f.kind.ListLit?
  }

  /** Folds bottom-up and replaces what folds. */
  method FoldTree(ops: FloatOps, bi: Tables, e: Expr) returns (out: Expr, flag: bool)
    ensures out == FoldExpr(ops, bi, e)
    ensures flag <==> Flagged(out)
    decreases e
  {
    hide FoldBinary, FoldUnary, FoldCast, FoldMember, ConstNamed, FoldAll;
    out, flag := e, false;
    match e.kind
    case IntLit(_) => flag := true;
    case FloatLit(_) => flag := true;
    case StringLit(_) => flag := true;
    case Ident(name) =>
      var c := ConstNamed(bi.consts, name);
      if c.Some? { out, flag := FoldConst(c.value), true; }
    case VectorLit(a, b, c) =>
      var x, _ := FoldTree(ops, bi, a);
      var y, _ := FoldTree(ops, bi, b);
      var z, _ := FoldTree(ops, bi, c);
      out := e.(kind := VectorLit(x, y, z));
      flag := IsLiteral(x) && IsLiteral(y) && IsLiteral(z);
    case RotLit(a, b, c, d) =>
      var x, _ := FoldTree(ops, bi, a);
      var y, _ := FoldTree(ops, bi, b);
      var z, _ := FoldTree(ops, bi, c);
      var w, _ := FoldTree(ops, bi, d);
      out, flag := e.(kind := RotLit(x, y, z, w)), true;
    case ListLit(items) =>
      var xs := FoldItems(ops, bi, items);
      out, flag := e.(kind := ListLit(xs)), true;
    case Unary(op, inner) =>
      var x, _ := FoldTree(ops, bi, inner);
      var r := FoldUnary(ops, bi, op, x);
      FoldedIsLiteral(ops, bi, op, TVoid, x, x, 'x');
      if r.Some? { out, flag := r.value, true; } else { out := e.(kind := Unary(op, x)); }
    case Binary(op, l, r) =>
      var x, _ := FoldTree(ops, bi, l);
      var y, _ := FoldTree(ops, bi, r);
      var f := FoldBinary(ops, bi, op, x, y);
      FoldedIsLiteral(ops, bi, op, TVoid, x, y, 'x');
      if f.Some? { out, flag := f.value, true; } else { out := e.(kind := Binary(op, x, y)); }
    case Cast(to, inner) =>
      var x, _ := FoldTree(ops, bi, inner);
      var r := FoldCast(ops, bi, to, x);
      FoldedIsLiteral(ops, bi, OpPlus, to, x, x, 'x');
      if r.Some? { out, flag := r.value, true; } else { out := e.(kind := Cast(to, x)); }
    case Member(base, m) =>
      var x, _ := FoldTree(ops, bi, base);
      var r := FoldMember(ops, x, m);
      FoldedIsLiteral(ops, bi, OpPlus, TVoid, x, x, m);
      if r.Some? { out, flag := r.value, true; } else { out := e.(kind := Member(x, m)); }
    case Postfix(_, _) =>
    case Assign(_, _, _) =>
    case Call(_, _) =>
  }

  method FoldItems(ops: FloatOps, bi: Tables, es: seq<Expr>) returns (out: seq<Expr>)
    ensures out == FoldAll(ops, bi, es)
    decreases es
  {
    hide FoldExpr;
    out := es;
    for i := 0 to |es|
      invariant |out| == |es|
      invariant forall j :: 0 <= j < i ==> out[j] == FoldExpr(ops, bi, es[j])
      invariant forall j :: i <= j < |es| ==> out[j] == es[j]
    {
      var x, _ := FoldTree(ops, bi, es[i]);
      out := out[i := x];
    }
  }

  /** So the flag does not mean a constant: the list `[f()]` is flagged. */
  lemma FlagIsNotConstant(bi: Tables)
    ensures var e := Node(TList, false, ListLit([Node(TInteger, false, Call("f", []))]));
      Flagged(e) && !IsConstant(bi, e)
  {
    var call := Node(TInteger, false, Call("f", []));
    var e := Node(TList, false, ListLit([call]));
    assert !IsConstant(bi, call) && e.kind.items[0] == call;
  }
}
