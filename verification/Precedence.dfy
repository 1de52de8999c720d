/** Which operators bind tighter, and how a row of them is read. */
module Precedence {
  import opened Syntax
  import opened ParseSpec
  import opened Grammar
  import opened ParseComplete

  /** The binary operators in classes, from the loosest to the tightest. */
  const CLASSES: seq<set<Op>> := [
    {OpLOr}, {OpLAnd}, {OpOr}, {OpXor}, {OpAnd}, {OpEq, OpNeq}, {OpLt, OpGt, OpLe, OpGe}, {OpShl, OpShr},
    {OpPlus, OpMinus}, {OpStar, OpSlash, OpPercent}]

  predicate Binds(op: Op, k: nat) {
    k < |CLASSES| && op in CLASSES[k]
  }

  /** `p` stands in a tighter class than `q`. */
  ghost predicate Tighter(p: Op, q: Op) {
    exists i: nat, j: nat :: i < j && Binds(q, i) && Binds(p, j)
  }

  ghost predicate InfixOp(op: Op) {
    exists k: nat :: Binds(op, k)
  }

  lemma ClassInRule(op: Op, k: nat)
    requires Binds(op, k)
    ensures InRule(k + 1, op)
  {
  }

  lemma RulesApart(op: Op, j: nat, k: nat)
    requires InRule(j, op) && InRule(k, op)
    ensures j == k && 1 <= k <= 10
  {
  }

  lemma RuleFound(op: Op, k: nat)
    requires InRule(k, op) && 1 <= k <= 10
    ensures RuleOf(op) > 0
  {
    hide BinaryLevel, InRule;
  }

  lemma OnlyRule(op: Op, k: nat)
    requires InRule(k, op)
    ensures RuleOf(op) == k
  {
    hide BinaryLevel, InRule, RuleOf;
    RulesApart(op, k, k);
    RuleFound(op, k);
    RulesApart(op, RuleOf(op), k);
  }

  lemma ClassIsRule(op: Op, k: nat)
    requires Binds(op, k)
    ensures RuleOf(op) == k + 1
  {
    hide Binds, InRule, RuleOf;
    ClassInRule(op, k);
    OnlyRule(op, k + 1);
  }

  /** A token that is an operand by itself. */
  predicate IsOperand(t: Token) {
    t.TkIdent? || t.TkInt? || t.TkFloat? || t.TkString?
  }

  function Operand(t: Token): Expr
    requires IsOperand(t)
  {
    match t
    case TkIdent(name) => Node(TError, false, Ident(name))
    case TkInt(i) => Node(TInteger, false, IntLit(i))
    case TkFloat(f) => Node(TFloat, false, FloatLit(f))
    case TkString(s) => Node(TString, false, StringLit(s))
  }

  function Infix(op: Op, l: Expr, r: Expr): Expr {
    Node(TError, false, Binary(op, l, r))
  }

  lemma OperandDerived(ts: seq<LToken>, i: nat, k: nat)
    requires i < |ts| && IsOperand(ts[i].tok)
    ensures Derives(ts, i, i + 1, k, Operand(ts[i].tok))
  {
    hide DerivesParens;
  }

  lemma InfixTokens(ts: seq<LToken>, i: nat, m: nat, j: nat, op: Op, l: Expr, r: Expr)
    requires i < m < j <= |ts| && ts[m].tok == TkOp(op) && !Assigns(op)
    requires Derives(ts, i, m, RuleOf(op), l) && Derives(ts, m + 1, j, RuleOf(op) + 1, r)
    ensures DerivesInfix(ts, i, j, m, op, l, r)
  {
    hide Derives, RuleOf, InRule;
  }

  lemma InfixDerived(ts: seq<LToken>, i: nat, m: nat, j: nat, k: nat, op: Op, l: Expr, r: Expr)
    requires i < m < j <= |ts| && ts[m].tok == TkOp(op) && 0 < RuleOf(op) && k <= RuleOf(op)
    requires Derives(ts, i, m, RuleOf(op), l) && Derives(ts, m + 1, j, RuleOf(op) + 1, r)
    ensures Derives(ts, i, j, k, Infix(op, l, r))
  {
    hide DerivesParens, Derives, InRule, RuleOf, DerivesInfix;
    InfixNode(op);
    InfixTokens(ts, i, m, j, op, l, r);
    assert DerivesNode(ts, i, j, k, Infix(op, l, r));
    NodeDerived(ts, i, j, k, Infix(op, l, r));
  }

  lemma InfixNode(op: Op)
    requires RuleOf(op) > 0
    ensures LeftLevel(op) == RuleOf(op) && RightLevel(op) == RuleOf(op) + 1
  {
  }

  lemma NodeDerived(ts: seq<LToken>, i: nat, j: nat, k: nat, e: Expr)
    requires i < j <= |ts| && DerivesNode(ts, i, j, k, e)
    ensures Derives(ts, i, j, k, e)
  {
    hide DerivesNode;
  }

  /** `a op1 b op2 c` is read as `a op1 (b op2 c)` exactly when `op2` stands in a tighter class
      than `op1`, and as `(a op1 b) op2 c` otherwise. */
  lemma ThreeOperands(ts: seq<LToken>, op1: Op, op2: Op)
    requires |ts| == 5 && IsOperand(ts[0].tok) && IsOperand(ts[2].tok) && IsOperand(ts[4].tok)
    requires ts[1].tok == TkOp(op1) && ts[3].tok == TkOp(op2) && InfixOp(op1) && InfixOp(op2)
    ensures var a, b, c := Operand(ts[0].tok), Operand(ts[2].tok), Operand(ts[4].tok);
      ParseLevel(ts, 0, 0) ==
        Parsed(if Tighter(op2, op1) then Infix(op1, a, Infix(op2, b, c)) else Infix(op2, Infix(op1, a, b), c), 5, 0)
  {
    hide ParseLevel, Derives, RuleOf, Operand, Binds, Tighter, Infix;
    var a, b, c := Operand(ts[0].tok), Operand(ts[2].tok), Operand(ts[4].tok);
    var i: nat :| Binds(op1, i);
    var j: nat :| Binds(op2, j);
    OneClass(op1, op2, i, j);
    if i < j {
      TighterDerived(ts, op1, op2, i, j);
      LevelComplete(ts, 0, 5, 0, Infix(op1, a, Infix(op2, b, c)));
    } else {
      LooserDerived(ts, op1, op2, i, j);
      LevelComplete(ts, 0, 5, 0, Infix(op2, Infix(op1, a, b), c));
    }
  }

  lemma TighterDerived(ts: seq<LToken>, op1: Op, op2: Op, i: nat, j: nat)
    requires |ts| == 5 && IsOperand(ts[0].tok) && IsOperand(ts[2].tok) && IsOperand(ts[4].tok)
    requires ts[1].tok == TkOp(op1) && ts[3].tok == TkOp(op2) && Binds(op1, i) && Binds(op2, j) && i < j
    ensures Derives(ts, 0, 5, 0, Infix(op1, Operand(ts[0].tok), Infix(op2, Operand(ts[2].tok), Operand(ts[4].tok))))
  {
    hide Derives, RuleOf, Operand, Binds, Infix;
    var a, b, c := Operand(ts[0].tok), Operand(ts[2].tok), Operand(ts[4].tok);
    ClassIsRule(op1, i);
    ClassIsRule(op2, j);
    OperandDerived(ts, 0, i + 1);
    OperandDerived(ts, 2, j + 1);
    OperandDerived(ts, 4, j + 2);
    InfixDerived(ts, 2, 3, 5, i + 2, op2, b, c);
    InfixDerived(ts, 0, 1, 5, 0, op1, a, Infix(op2, b, c));
  }

  lemma LooserDerived(ts: seq<LToken>, op1: Op, op2: Op, i: nat, j: nat)
    requires |ts| == 5 && IsOperand(ts[0].tok) && IsOperand(ts[2].tok) && IsOperand(ts[4].tok)
    requires ts[1].tok == TkOp(op1) && ts[3].tok == TkOp(op2) && Binds(op1, i) && Binds(op2, j) && i >= j
    ensures Derives(ts, 0, 5, 0, Infix(op2, Infix(op1, Operand(ts[0].tok), Operand(ts[2].tok)), Operand(ts[4].tok)))
  {
    hide Derives, RuleOf, Operand, Binds, Infix;
    var a, b, c := Operand(ts[0].tok), Operand(ts[2].tok), Operand(ts[4].tok);
    ClassIsRule(op1, i);
    ClassIsRule(op2, j);
    OperandDerived(ts, 0, i + 1);
    OperandDerived(ts, 2, i + 2);
    OperandDerived(ts, 4, j + 2);
    InfixDerived(ts, 0, 1, 3, j + 1, op1, a, b);
    InfixDerived(ts, 0, 3, 5, 0, op2, Infix(op1, a, b), c);
  }

  lemma OneClass(op1: Op, op2: Op, i: nat, j: nat)
    requires Binds(op1, i) && Binds(op2, j)
    ensures Tighter(op2, op1) <==> i < j
  {
    hide Binds;
    if Tighter(op2, op1) {
      var m: nat, n: nat :| m < n && Binds(op1, m) && Binds(op2, n);
      ClassIsRule(op1, i);
      ClassIsRule(op1, m);
      ClassIsRule(op2, j);
      ClassIsRule(op2, n);
    }
  }

  /** Assignments are read from the right. */
  lemma AssignedRight(ts: seq<LToken>, op1: Op, op2: Op)
    requires |ts| == 5 && IsOperand(ts[0].tok) && IsOperand(ts[2].tok) && IsOperand(ts[4].tok)
    requires ts[1].tok == TkOp(op1) && ts[3].tok == TkOp(op2) && Assigns(op1) && Assigns(op2)
    ensures var a, b, c := Operand(ts[0].tok), Operand(ts[2].tok), Operand(ts[4].tok);
      var e := Node(TError, false, Assign(op1, a, Node(TError, false, Assign(op2, b, c))));
      ParseLevel(ts, 0, 0) == Parsed(e, 5, 0)
  {
    hide ParseLevel, Derives, Operand;
    var a, b, c := Operand(ts[0].tok), Operand(ts[2].tok), Operand(ts[4].tok);
    var right := Node(TError, false, Assign(op2, b, c));
    var e := Node(TError, false, Assign(op1, a, right));
    OperandDerived(ts, 0, 1);
    OperandDerived(ts, 2, 1);
    OperandDerived(ts, 4, 0);
    assert DerivesInfix(ts, 2, 5, 3, op2, b, c);
    NodeDerived(ts, 2, 5, 0, right);
    assert DerivesInfix(ts, 0, 5, 1, op1, a, right);
    NodeDerived(ts, 0, 5, 0, e);
    LevelComplete(ts, 0, 5, 0, e);
  }
}
