/** The printer wastes no parentheses: no shorter token sequence means the same tree. */
module ShortestPrint {
  import opened Syntax
  import opened ParseSpec
  import opened Grammar
  import opened Printer

  /** No fewer than `bound` tokens from `i` to `j`. */
  predicate Takes(i: nat, j: nat, bound: nat) {
    i + bound <= j
  }

  lemma {:induction false} DerivedLength(ts: seq<LToken>, i: nat, j: nat, k: nat, e: Expr, line: int)
    requires k <= 12 && i <= j <= |ts| && Derives(ts, i, j, k, e)
    ensures Takes(i, j, |PrintExpr(e, k, line)|)
    decreases j - i, 2
  {
    hide DerivesNode, PrintNode;
    if DerivesParens(ts, i, j, e) {
      DerivedLength(ts, i + 1, j - 1, 0, e, line);
    } else {
      NodeLength(ts, i, j, k, e, line);
      NodeFits(ts, i, j, k, e);
    }
  }

  /** A node derived at a level needs no parentheses there. */
  lemma NodeFits(ts: seq<LToken>, i: nat, j: nat, k: nat, e: Expr)
    requires k <= 12 && i < j <= |ts| && DerivesNode(ts, i, j, k, e)
    ensures k <= NodeLevel(e.kind)
  {
    hide Derives, DerivesList, DerivesInfix, DerivesVector, DerivesRot, DerivesCall, BinaryLevel;
  }

  lemma {:induction false} VectorLength(ts: seq<LToken>, i: nat, j: nat, k: nat, e: Expr, line: int)
    requires i < j <= |ts| && DerivesNode(ts, i, j, k, e) && (e.kind.VectorLit? || e.kind.RotLit?)
    ensures Takes(i, j, |PrintNode(e, line)|)
    decreases j - i, 0
  {
    hide Derives, DerivesList, DerivesInfix, DerivesCall, BinaryLevel, IsAssignOp, IsUnaryOp, PrintExpr, PrintList;
    if e.kind.VectorLit? {
      var VectorLit(x, y, z) := e.kind;
      var m: nat, n: nat :| DerivesVector(ts, i, j, m, n, x, y, z);
      DerivedLength(ts, i + 1, m, 8, x, line);
      DerivedLength(ts, m + 1, n, 8, y, line);
      DerivedLength(ts, n + 1, j - 1, 8, z, line);
    } else {
      var RotLit(x, y, z, w) := e.kind;
      var m: nat, n: nat, o: nat :| DerivesRot(ts, i, j, m, n, o, x, y, z, w);
      DerivedLength(ts, i + 1, m, 8, x, line);
      DerivedLength(ts, m + 1, n, 8, y, line);
      DerivedLength(ts, n + 1, o, 8, z, line);
      DerivedLength(ts, o + 1, j - 1, 8, w, line);
    }
  }

  lemma {:induction false} InfixLength(ts: seq<LToken>, i: nat, j: nat, k: nat, e: Expr, line: int)
    requires i < j <= |ts| && DerivesNode(ts, i, j, k, e) && (e.kind.Binary? || e.kind.Assign?)
    ensures Takes(i, j, |PrintNode(e, line)|)
    decreases j - i, 0
  {
    hide Derives, DerivesList, DerivesVector, DerivesRot, DerivesCall, IsUnaryOp, PrintExpr, PrintList;
    var op, l, r := e.kind.op, e.kind.l, e.kind.r;
    var m: nat :| DerivesInfix(ts, i, j, m, op, l, r);
    assert LeftLevel(op) <= 12 && RightLevel(op) <= 12;
    DerivedLength(ts, i, m, LeftLevel(op), l, line);
    DerivedLength(ts, m + 1, j, RightLevel(op), r, line);
  }

  lemma {:induction false} NodeLength(ts: seq<LToken>, i: nat, j: nat, k: nat, e: Expr, line: int)
    requires i < j <= |ts| && DerivesNode(ts, i, j, k, e)
    ensures Takes(i, j, |PrintNode(e, line)|)
    decreases j - i, 1
  {
    hide Derives, DerivesList, DerivesVector, DerivesRot, DerivesInfix, BinaryLevel, IsAssignOp, IsUnaryOp, IsPostfixOp,
         PrintExpr, PrintList;
    if e.kind.VectorLit? || e.kind.RotLit? {
      VectorLength(ts, i, j, k, e, line);
    } else if e.kind.Binary? || e.kind.Assign? {
      InfixLength(ts, i, j, k, e, line);
    } else {
      match e.kind
      case ListLit(items) => ListLength(ts, i + 1, j - 1, items, line);
      case Call(fn, args) =>
        var m: nat :| DerivesCall(ts, i, j, m, fn, args);
        ListLength(ts, m + 1, j - 1, args, line);
      case Member(base, _) => DerivedLength(ts, i, j - 2, 12, base, line);
      case Postfix(_, inner) => DerivedLength(ts, i, j - 1, 12, inner, line);
      case Unary(_, inner) => DerivedLength(ts, i + 1, j, 11, inner, line);
      case Cast(_, inner) => DerivedLength(ts, i + 3, j, 11, inner, line);
      case _ =>
    }
  }

  lemma {:induction false} ListLength(ts: seq<LToken>, i: nat, j: nat, es: seq<Expr>, line: int)
    requires i <= j <= |ts| && DerivesList(ts, i, j, es)
    ensures Takes(i, j, |PrintList(es, 0, line)|)
    decreases j - i, 3
  {
    hide Derives, PrintExpr;
    if |es| == 1 {
      DerivedLength(ts, i, j, 0, es[0], line);
    } else if |es| > 1 {
      var m: nat :| DerivesCons(ts, i, j, m, es);
      DerivedLength(ts, i, m, 0, es[0], line);
      ListLength(ts, m + 1, j, es[1..], line);
      PrintListShift(es, 0, line);
    }
  }

  lemma {:induction false} PrintListShift(es: seq<Expr>, k: nat, line: int)
    requires k < |es|
    ensures PrintList(es, k + 1, line) == PrintList(es[1..], k, line)
    decreases |es| - k
  {
    hide PrintExpr;
    if k + 1 < |es| { PrintListShift(es, k + 1, line); }
  }

  /** The tokens printed for a writable expression derive it, and any tokens that derive it
      are at least as many: leaving a pair of parentheses out loses or changes the tree. */
  lemma PrintIsShortest(e: Expr, k: nat, line: int)
    requires k <= 12 && Unwritable(e) == 0
    ensures Derives(PrintExpr(e, k, line), 0, |PrintExpr(e, k, line)|, k, e)
    ensures forall ts: seq<LToken>, i: nat, j: nat :: i <= j <= |ts| && Derives(ts, i, j, k, e)
              ==> |PrintExpr(e, k, line)| <= j - i
  {
    hide Derives, PrintExpr, Unwritable;
    var printed := PrintExpr(e, k, line);
    assert printed[0..|printed|] == printed;
    PrintExprDerives(printed, 0, e, k, line);
    forall ts: seq<LToken>, i: nat, j: nat | i <= j <= |ts| && Derives(ts, i, j, k, e)
      ensures |printed| <= j - i
    {
      DerivedLength(ts, i, j, k, e, line);
    }
  }
}
