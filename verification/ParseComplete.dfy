/** Completeness of the parser: every derivation of the grammar is what the parser
    finds, as long as the token after it cannot extend it. */
module ParseComplete {
  import opened Syntax
  import opened ParseSpec
  import opened Grammar
  import opened ParseSound

  // ------------------------------------------------------------ first tokens

  predicate StartsPrimary(t: Token) {
    t.TkInt? || t.TkFloat? || t.TkString? || t.TkIdent? || t == TkLParen || t == TkLBrack || t == TkOp(OpLt)
  }

  predicate StartsExpr(t: Token) {
    StartsPrimary(t) || (t.TkOp? && IsUnaryOp(t.op))
  }

  lemma {:induction false} FirstToken(ts: seq<LToken>, i: nat, j: nat, k: nat, e: Expr)
    requires i <= j <= |ts| && Derives(ts, i, j, k, e)
    ensures StartsExpr(ts[i].tok) && (k >= 12 ==> StartsPrimary(ts[i].tok))
    decreases j - i
  {
    hide DerivesList;
    if !DerivesParens(ts, i, j, e) {
      assert DerivesNode(ts, i, j, k, e);
      match e.kind
      case Call(fn, args) =>
        var m: nat :| DerivesCall(ts, i, j, m, fn, args);
        FirstToken(ts, i, m, 12, Fresh(Ident(fn)));
      case Member(base, _) => FirstToken(ts, i, j - 2, 12, base);
      case Postfix(_, inner) => FirstToken(ts, i, j - 1, 12, inner);
      case Binary(op, l, r) =>
        var m: nat :| DerivesInfix(ts, i, j, m, op, l, r);
        FirstToken(ts, i, m, LeftLevel(op), l);
      case Assign(op, l, r) =>
        var m: nat :| DerivesInfix(ts, i, j, m, op, l, r);
        FirstToken(ts, i, m, LeftLevel(op), l);
      case _ =>
    }
  }

  // --------------------------------------------------------- following token

  /** A token after which an expression of level `k` cannot go on. */
  predicate StopsToken(t: Token, k: nat) {
    match t
    case TkLParen => false
    case TkDot => false
    case TkOp(op) => !IsPostfixOp(op) && !(IsBinaryOp(op) && BinaryLevel(op) >= k) && !(IsAssignOp(op) && k == 0)
    case _ => true
  }

  predicate Stops(ts: seq<LToken>, j: nat, k: nat) {
    j < |ts| ==> StopsToken(ts[j].tok, k)
  }

  // ------------------------------------------------------------ expressions

  /** Derivations at level `k` that are not binary at that very level are tighter. */
  lemma DerivesTighter(ts: seq<LToken>, i: nat, j: nat, k: nat, e: Expr)
    requires i <= j <= |ts| && k < 12 && Derives(ts, i, j, k, e)
    requires DerivesParens(ts, i, j, e) ||
             (!(e.kind.Binary? && BinaryLevel(e.kind.op) == k) && !(k == 0 && e.kind.Assign?) &&
              !(k == 11 && (e.kind.Unary? || e.kind.Cast?)))
    ensures Derives(ts, i, j, k + 1, e)
  {
    hide DerivesInfix, DerivesCall, DerivesVector, DerivesRot, DerivesList, DerivesParens;
  }

  /** The parser at level `k` reads a level-`k` derivation and then goes on with the
      chain of that level. */
  lemma {:induction false} LevelReaches(ts: seq<LToken>, i: nat, j: nat, k: nat, e: Expr)
    requires i <= j <= |ts| && 1 <= k <= 10 && Derives(ts, i, j, k, e) && Stops(ts, j, k + 1)
    ensures var t := LevelTail(ts, j, k, e); ParseLevel(ts, i, k) == Parsed(t.v, t.next, t.errs)
    decreases j - i, 13 - k, 1
  {
    hide DerivesCall, DerivesVector, DerivesRot, DerivesList, DerivesParens, ParsePrimary, PostfixTail;
    if !DerivesParens(ts, i, j, e) && e.kind.Binary? && BinaryLevel(e.kind.op) == k {
      assert DerivesNode(ts, i, j, k, e);
      var op, l, r := e.kind.op, e.kind.l, e.kind.r;
      var m: nat :| DerivesInfix(ts, i, j, m, op, l, r);
      LevelReaches(ts, i, m, k, l);
      LevelComplete(ts, m + 1, j, k + 1, r);
      assert e == Fresh(Binary(op, l, r));
    } else {
      DerivesTighter(ts, i, j, k, e);
      LevelComplete(ts, i, j, k + 1, e);
    }
  }

  /** Completeness for expressions: the parser returns exactly the derived tree,
      without an error, and stops just after it. */
  lemma {:induction false} LevelComplete(ts: seq<LToken>, i: nat, j: nat, k: nat, e: Expr)
    requires i <= j <= |ts| && k <= 12 && Derives(ts, i, j, k, e) && Stops(ts, j, k)
    ensures ParseLevel(ts, i, k) == Parsed(e, j, 0)
    decreases j - i, 13 - k, 3
  {
    hide DerivesCall, DerivesVector, DerivesRot, DerivesList, DerivesParens, ParsePrimary, PostfixTail, LevelTail;
    if k == 0 {
      AssignComplete(ts, i, j, e);
    } else if k <= 10 {
      LevelReaches(ts, i, j, k, e);
      TailStops(ts, j, k, e);
    } else if k == 11 {
      UnaryComplete(ts, i, j, e);
    } else {
      PostfixReaches(ts, i, j, e);
      PostfixStops(ts, j, e);
    }
  }

  lemma TailStops(ts: seq<LToken>, j: nat, k: nat, e: Expr)
    requires j <= |ts| && 1 <= k <= 10 && Stops(ts, j, k)
    ensures LevelTail(ts, j, k, e) == Parsed(e, j, 0)
  {
    hide ParseLevel;
  }

  lemma PostfixStops(ts: seq<LToken>, j: nat, e: Expr)
    requires j <= |ts| && Stops(ts, j, 12)
    ensures PostfixTail(ts, j, e) == Parsed(e, j, 0)
  {
    hide ParseListUntil;
  }

  lemma AssignParsed(ts: seq<LToken>, i: nat, m: nat, j: nat, op: Op, l: Expr, r: Expr)
    requires i <= m < j <= |ts| && ts[m].tok == TkOp(op) && IsAssignOp(op)
    requires ParseLevel(ts, i, 1) == Parsed(l, m, 0) && ParseLevel(ts, m + 1, 0) == Parsed(r, j, 0)
    ensures ParseLevel(ts, i, 0) == Parsed(Fresh(Assign(op, l, r)), j, 0)
  {
    hide LevelTail, PostfixTail, ParsePrimary, IsAssignOp;
  }

  lemma NoAssignParsed(ts: seq<LToken>, i: nat, j: nat, e: Expr)
    requires i <= j <= |ts| && ParseLevel(ts, i, 1) == Parsed(e, j, 0) && !AtAssignOp(ts, j)
    ensures ParseLevel(ts, i, 0) == Parsed(e, j, 0)
  {
    hide LevelTail, PostfixTail, ParsePrimary, IsAssignOp;
  }

  lemma {:induction false} AssignComplete(ts: seq<LToken>, i: nat, j: nat, e: Expr)
    requires i <= j <= |ts| && Derives(ts, i, j, 0, e) && Stops(ts, j, 0)
    ensures ParseLevel(ts, i, 0) == Parsed(e, j, 0)
    decreases j - i, 13, 1
  {
    hide DerivesCall, DerivesVector, DerivesRot, DerivesList, DerivesParens, ParseLevel, BinaryLevel;
    if !DerivesParens(ts, i, j, e) && e.kind.Assign? {
      assert DerivesNode(ts, i, j, 0, e);
      var op, l, r := e.kind.op, e.kind.l, e.kind.r;
      var m: nat :| DerivesInfix(ts, i, j, m, op, l, r);
      LevelComplete(ts, i, m, 1, l) by { AssignStops(ts, m, op); }
      LevelComplete(ts, m + 1, j, 0, r);
      AssignParsed(ts, i, m, j, op, l, r);
    } else {
      DerivesTighter(ts, i, j, 0, e);
      LevelComplete(ts, i, j, 1, e);
      NoAssignParsed(ts, i, j, e);
    }
  }

  lemma AssignStops(ts: seq<LToken>, m: nat, op: Op)
    requires m < |ts| && ts[m].tok == TkOp(op) && IsAssignOp(op)
    ensures Stops(ts, m, 1)
  {
  }

  lemma {:induction false} UnaryComplete(ts: seq<LToken>, i: nat, j: nat, e: Expr)
    requires i <= j <= |ts| && Derives(ts, i, j, 11, e) && Stops(ts, j, 11)
    ensures ParseLevel(ts, i, 11) == Parsed(e, j, 0)
    decreases j - i, 2, 1
  {
    hide DerivesCall, DerivesVector, DerivesRot, DerivesList, ParsePrimary, PostfixTail, LevelTail, DerivesInfix;
    if !DerivesParens(ts, i, j, e) && e.kind.Unary? {
      LevelComplete(ts, i + 1, j, 11, e.kind.inner);
    } else if !DerivesParens(ts, i, j, e) && e.kind.Cast? {
      LevelComplete(ts, i + 3, j, 11, e.kind.inner);
    } else {
      DerivesTighter(ts, i, j, 11, e);
      FirstToken(ts, i, j, 12, e);
      SecondToken(ts, i, j, e);
      LevelComplete(ts, i, j, 12, e);
    }
  }

  /** A postfix expression never looks like the start of a cast. */
  lemma {:induction false} SecondToken(ts: seq<LToken>, i: nat, j: nat, e: Expr)
    requires i <= j <= |ts| && Derives(ts, i, j, 12, e)
    ensures ts[i].tok == TkLParen ==> !AtType(ts, i + 1)
    decreases j - i
  {
    hide DerivesList;
    if DerivesParens(ts, i, j, e) {
      FirstToken(ts, i + 1, j - 1, 0, e);
    } else {
      assert DerivesNode(ts, i, j, 12, e);
      match e.kind
      case Call(fn, args) =>
        var m: nat :| DerivesCall(ts, i, j, m, fn, args);
        SecondToken(ts, i, m, Fresh(Ident(fn)));
      case Member(base, _) => SecondToken(ts, i, j - 2, base);
      case Postfix(_, inner) => SecondToken(ts, i, j - 1, inner);
      case _ =>
    }
  }

  /** The same for postfix chains: the parser reads the derivation and goes on. */
  lemma {:induction false} PostfixReaches(ts: seq<LToken>, i: nat, j: nat, e: Expr)
    requires i <= j <= |ts| && Derives(ts, i, j, 12, e)
    ensures var t := PostfixTail(ts, j, e); ParseLevel(ts, i, 12) == Parsed(t.v, t.next, t.errs)
    decreases j - i, 1, 2
  {
    hide DerivesVector, DerivesRot, DerivesList, DerivesCall, ParsePrimary, PostfixTail;
    if DerivesParens(ts, i, j, e) {
      PrimaryComplete(ts, i, j, e);
    } else {
      assert DerivesNode(ts, i, j, 12, e);
      match e.kind
      case Call(_, _) => CallReaches(ts, i, j, e);
      case Member(_, _) => MemberReaches(ts, i, j, e);
      case Postfix(_, _) => MemberReaches(ts, i, j, e);
      case _ => PrimaryComplete(ts, i, j, e);
    }
  }

  lemma {:induction false} CallReaches(ts: seq<LToken>, i: nat, j: nat, e: Expr)
    requires i < j <= |ts| && e.kind.Call? && DerivesNode(ts, i, j, 12, e)
    ensures var t := PostfixTail(ts, j, e); ParseLevel(ts, i, 12) == Parsed(t.v, t.next, t.errs)
    decreases j - i, 1, 1
  {
    hide Derives, DerivesList, ParsePrimary, ParseListUntil, ParseLevel;
    var m: nat :| DerivesCall(ts, i, j, m, e.kind.fn, e.kind.args);
    var callee := Fresh(Ident(e.kind.fn));
    PostfixReaches(ts, i, m, callee);
    ListUntilComplete(ts, m + 1, j - 1, TkRParen, e.kind.args);
    assert e == Fresh(Call(e.kind.fn, e.kind.args));
    var t := PostfixTail(ts, m, callee);
    assert t == PostfixTail(ts, j, e);
  }

  lemma {:induction false} MemberReaches(ts: seq<LToken>, i: nat, j: nat, e: Expr)
    requires i < j <= |ts| && (e.kind.Member? || e.kind.Postfix?) && DerivesNode(ts, i, j, 12, e)
    ensures var t := PostfixTail(ts, j, e); ParseLevel(ts, i, 12) == Parsed(t.v, t.next, t.errs)
    decreases j - i, 1, 1
  {
    hide Derives, ParsePrimary, ParseListUntil, ParseLevel;
    if e.kind.Member? {
      PostfixReaches(ts, i, j - 2, e.kind.base);
      assert PostfixTail(ts, j - 2, e.kind.base) == PostfixTail(ts, j, e);
    } else {
      PostfixReaches(ts, i, j - 1, e.kind.inner);
      assert PostfixTail(ts, j - 1, e.kind.inner) == PostfixTail(ts, j, e);
    }
  }

  lemma {:induction false} PrimaryComplete(ts: seq<LToken>, i: nat, j: nat, e: Expr)
    requires i <= j <= |ts| && Derives(ts, i, j, 12, e)
    requires DerivesParens(ts, i, j, e) || !(e.kind.Call? || e.kind.Member? || e.kind.Postfix?)
    ensures ParsePrimary(ts, i) == Parsed(e, j, 0)
    decreases j - i, 1, 0
  {
    hide DerivesVector, DerivesRot, DerivesList, ParseListUntil, ParseLevel, ParseVector, DerivesInfix, DerivesCall;
    if DerivesParens(ts, i, j, e) {
      LevelComplete(ts, i + 1, j - 1, 0, e);
    } else {
      match e.kind
      case VectorLit(_, _, _) => VectorComplete(ts, i, j, e);
      case RotLit(_, _, _, _) => RotComplete(ts, i, j, e);
      case ListLit(items) => ListUntilComplete(ts, i + 1, j - 1, TkRBrack, items);
      case _ =>
    }
  }

  lemma Expected(ts: seq<LToken>, i: nat, t: Token)
    requires AtTok(ts, i, t)
    ensures Expect(ts, i, t) == Parsed((), i + 1, 0)
  {
  }

  /** A vector literal parses as its parts do. */
  lemma VectorParsed(ts: seq<LToken>, i: nat, m: nat, n: nat, j: nat, x: Expr, y: Expr, z: Expr)
    requires i + 1 < m < n < j - 1 < |ts| && ts[i].tok == TkOp(OpLt)
    requires ts[m].tok == TkComma && ts[n].tok == TkComma && ts[j - 1].tok == TkOp(OpGt)
    requires ParseLevel(ts, i + 1, 8) == Parsed(x, m, 0) && ParseLevel(ts, m + 1, 8) == Parsed(y, n, 0)
    requires ParseLevel(ts, n + 1, 8) == Parsed(z, j - 1, 0)
    ensures ParseVector(ts, i) == Parsed(Node(TVector, false, VectorLit(x, y, z)), j, 0)
  {
    hide ParseLevel, Expect;
    Expected(ts, m, TkComma);
    Expected(ts, n, TkComma);
    Expected(ts, j - 1, TkOp(OpGt));
  }

  lemma {:induction false} VectorComplete(ts: seq<LToken>, i: nat, j: nat, e: Expr)
    requires i < j <= |ts| && e.kind.VectorLit? && DerivesNode(ts, i, j, 12, e)
    ensures ts[i].tok == TkOp(OpLt) && ParseVector(ts, i) == Parsed(e, j, 0)
    decreases j - i, 0
  {
    hide Derives, ParseLevel, ParseVector, DerivesInfix, DerivesCall, DerivesRot, DerivesList;
    var VectorLit(x, y, z) := e.kind;
    var m: nat, n: nat :| DerivesVector(ts, i, j, m, n, x, y, z);
    LevelComplete(ts, i + 1, m, 8, x);
    LevelComplete(ts, m + 1, n, 8, y);
    LevelComplete(ts, n + 1, j - 1, 8, z);
    VectorParsed(ts, i, m, n, j, x, y, z);
  }

  lemma RotParsed(ts: seq<LToken>, i: nat, m: nat, n: nat, o: nat, j: nat, x: Expr, y: Expr, z: Expr, w: Expr)
    requires i + 1 < m < n < o < j - 1 < |ts| && AtTok(ts, i, TkOp(OpLt)) && AtTok(ts, m, TkComma)
    requires AtTok(ts, n, TkComma) && AtTok(ts, o, TkComma) && AtTok(ts, j - 1, TkOp(OpGt))
    requires ParseLevel(ts, i + 1, 8) == Parsed(x, m, 0) && ParseLevel(ts, m + 1, 8) == Parsed(y, n, 0)
    requires ParseLevel(ts, n + 1, 8) == Parsed(z, o, 0) && ParseLevel(ts, o + 1, 8) == Parsed(w, j - 1, 0)
    ensures ParseVector(ts, i) == Parsed(Node(TRotation, false, RotLit(x, y, z, w)), j, 0)
  {
    hide ParseLevel, Expect, AtTok;
    Expected(ts, m, TkComma);
    Expected(ts, n, TkComma);
    Expected(ts, j - 1, TkOp(OpGt));
  }

  lemma {:induction false} RotComplete(ts: seq<LToken>, i: nat, j: nat, e: Expr)
    requires i < j <= |ts| && e.kind.RotLit? && DerivesNode(ts, i, j, 12, e)
    ensures ts[i].tok == TkOp(OpLt) && ParseVector(ts, i) == Parsed(e, j, 0)
    decreases j - i, 0
  {
    hide Derives, ParseLevel, ParseVector, DerivesInfix, DerivesCall, DerivesVector, DerivesList;
    var RotLit(x, y, z, w) := e.kind;
    var m: nat, n: nat, o: nat :| DerivesRot(ts, i, j, m, n, o, x, y, z, w);
    LevelComplete(ts, i + 1, m, 8, x);
    LevelComplete(ts, m + 1, n, 8, y);
    LevelComplete(ts, n + 1, o, 8, z);
    LevelComplete(ts, o + 1, j - 1, 8, w);
    RotParsed(ts, i, m, n, o, j, x, y, z, w);
  }

  lemma {:induction false} ListComplete(ts: seq<LToken>, i: nat, j: nat, es: seq<Expr>)
    requires i <= j <= |ts| && es != [] && DerivesList(ts, i, j, es)
    requires Stops(ts, j, 0) && !AtTok(ts, j, TkComma)
    ensures i < j && ParseList(ts, i) == Parsed(es, j, 0)
    decreases j - i, 15
  {
    hide DerivesNode, DerivesParens, ParseLevel;
    if |es| == 1 {
      LevelComplete(ts, i, j, 0, es[0]);
      assert es == [es[0]];
    } else {
      var m: nat :| DerivesCons(ts, i, j, m, es);
      LevelComplete(ts, i, m, 0, es[0]);
      ListComplete(ts, m + 1, j, es[1..]);
      assert es == [es[0]] + es[1..];
    }
  }

  lemma {:induction false} ListUntilComplete(ts: seq<LToken>, i: nat, j: nat, close: Token, es: seq<Expr>)
    requires i <= j <= |ts| && DerivesList(ts, i, j, es) && AtTok(ts, j, close)
    requires close in {TkRParen, TkRBrack, TkSemi}
    ensures ParseListUntil(ts, i, close) == Parsed(es, j, 0)
    decreases j - i, 16
  {
    hide ParseList, DerivesNode, DerivesParens;
    if es != [] {
      ListComplete(ts, i, j, es);
      var m := if |es| == 1 then j else var m: nat :| DerivesCons(ts, i, j, m, es); m;
      FirstToken(ts, i, m, 0, es[0]);
    }
  }

  // ------------------------------------------------------------- statements

  lemma ConditionComplete(ts: seq<LToken>, i: nat, j: nat, e: Expr)
    requires i <= j <= |ts| && DerivesCondition(ts, i, j, e)
    ensures ParseCondition(ts, i) == Parsed(e, j, 0)
  {
    hide ParseLevel, Derives;
    LevelComplete(ts, i + 1, j - 1, 0, e);
  }

  lemma InitComplete(ts: seq<LToken>, i: nat, j: nat, e: Option<Expr>)
    requires i <= j <= |ts| && DerivesInit(ts, i, j, e) && AtTok(ts, j, TkSemi)
    ensures ParseInit(ts, i) == Parsed(e, j, 0)
  {
    hide ParseLevel, Derives;
    if e.Some? { LevelComplete(ts, i + 1, j, 0, e.value); }
  }

  lemma OptComplete(ts: seq<LToken>, i: nat, j: nat, e: Option<Expr>)
    requires i <= j <= |ts| && DerivesOpt(ts, i, j, e) && AtTok(ts, j, TkSemi)
    ensures ParseOptExpr(ts, i, TkSemi) == Parsed(e, j, 0)
  {
    hide ParseLevel, DerivesNode, DerivesParens;
    if e.Some? {
      LevelComplete(ts, i, j, 0, e.value);
      FirstToken(ts, i, j, 0, e.value);
    }
  }

  /** Completeness for statements.  Only an `else` can extend one, and only an open one. */
  lemma {:induction false} StmtComplete(ts: seq<LToken>, i: nat, j: nat, s: Stmt)
    requires i <= j <= |ts| && DerivesStmt(ts, i, j, s) && (Open(s) ==> !AtTok(ts, j, TkElse))
    ensures ParseStmt(ts, i) == Parsed(s, j, 0)
    decreases j - i, 1
  {
    hide DerivesIf, DerivesWhile, DerivesDo, DerivesFor, DerivesStmts, DerivesInit, DerivesOpt, Derives, DerivesPrint,
         ParseBlock, ParseDecl, ParseIf, ParseWhile, ParseDo, ParseFor, ParseReturn, ParseExprStmt, ParsePrint;
    match s.kind
    case Block(_) => BlockComplete(ts, i, j, s);
    case Decl(_, _, _) => DeclComplete(ts, i, j, s);
    case If(_, _, _) => IfComplete(ts, i, j, s);
    case While(_, _) => WhileComplete(ts, i, j, s);
    case DoWhile(_, _) => DoComplete(ts, i, j, s);
    case For(_, _, _, _) => ForComplete(ts, i, j, s);
    case Return(_) => ReturnComplete(ts, i, j, s);
    case ExprStmt(_) => ExprStmtComplete(ts, i, j, s);
    case _ =>
  }

  lemma ExprStmtComplete(ts: seq<LToken>, i: nat, j: nat, s: Stmt)
    requires i <= j <= |ts| && s.kind.ExprStmt? && DerivesStmt(ts, i, j, s)
    ensures ParseStmt(ts, i) == Parsed(s, j, 0)
  {
    hide ParseLevel, DerivesNode, DerivesParens, ParseCondition, DerivesCondition,
         ParseBlock, ParseDecl, ParseIf, ParseWhile, ParseDo, ParseFor, ParseReturn;
    var e := s.kind.e;
    if Derives(ts, i, j - 1, 0, e) {
      FirstToken(ts, i, j - 1, 0, e);
      LevelComplete(ts, i, j - 1, 0, e);
      assert ParseExprStmt(ts, i) == Parsed(s, j, 0);
    } else {
      ConditionComplete(ts, i + 1, j - 1, e.kind.args[0]);
      assert e.kind.args == [e.kind.args[0]];
      assert ParsePrint(ts, i) == Parsed(s, j, 0);
    }
  }

  lemma DeclComplete(ts: seq<LToken>, i: nat, j: nat, s: Stmt)
    requires i <= j <= |ts| && s.kind.Decl? && DerivesStmt(ts, i, j, s)
    ensures AtType(ts, i) && ParseDecl(ts, i) == Parsed(s, j, 0)
  {
    hide ParseInit, DerivesInit;
    InitComplete(ts, i + 2, j - 1, s.kind.init);
  }

  lemma ReturnComplete(ts: seq<LToken>, i: nat, j: nat, s: Stmt)
    requires i <= j <= |ts| && s.kind.Return? && DerivesStmt(ts, i, j, s)
    ensures AtTok(ts, i, TkReturn) && ParseReturn(ts, i) == Parsed(s, j, 0)
  {
    hide ParseOptExpr, DerivesOpt;
    OptComplete(ts, i + 1, j - 1, s.kind.result);
  }

  lemma {:induction false} BlockComplete(ts: seq<LToken>, i: nat, j: nat, s: Stmt)
    requires i <= j <= |ts| && s.kind.Block? && DerivesStmt(ts, i, j, s)
    ensures AtTok(ts, i, TkLBrace) && ParseBlock(ts, i) == Parsed(s, j, 0)
    decreases j - i, 0
  {
    hide ParseStmts, DerivesStmts;
    StmtsComplete(ts, i + 1, j - 1, s.kind.stmts);
  }

  lemma {:induction false} StmtsComplete(ts: seq<LToken>, i: nat, j: nat, ss: seq<Stmt>)
    requires i <= j <= |ts| && DerivesStmts(ts, i, j, ss) && AtTok(ts, j, TkRBrace)
    ensures ParseStmts(ts, i) == Parsed(ss, j, 0)
    decreases j - i, 3, |ss|
  {
    hide ParseStmt, DerivesStmt;
    if ss != [] {
      var m: nat :| DerivesStmtCons(ts, i, j, m, ss);
      StmtFirstToken(ts, i, m, ss[0]);
      StmtsFirstToken(ts, m, j, ss[1..]);
      StmtComplete(ts, i, m, ss[0]);
      StmtsComplete(ts, m, j, ss[1..]);
      assert ss == [ss[0]] + ss[1..];
    }
  }

  predicate StartsStmt(t: Token) {
    t != TkElse && t != TkRBrace
  }

  lemma StmtFirstToken(ts: seq<LToken>, i: nat, j: nat, s: Stmt)
    requires i <= j <= |ts| && DerivesStmt(ts, i, j, s)
    ensures i < j && StartsStmt(ts[i].tok)
  {
    hide DerivesIf, DerivesWhile, DerivesDo, DerivesFor, DerivesStmts, DerivesInit, DerivesOpt, DerivesNode,
         DerivesParens;
    if s.kind.ExprStmt? {
      if Derives(ts, i, j - 1, 0, s.kind.e) { FirstToken(ts, i, j - 1, 0, s.kind.e); }
    }
  }

  lemma StmtsFirstToken(ts: seq<LToken>, i: nat, j: nat, ss: seq<Stmt>)
    requires i <= j <= |ts| && DerivesStmts(ts, i, j, ss) && AtTok(ts, j, TkRBrace)
    ensures !AtTok(ts, i, TkElse)
  {
    hide DerivesStmt;
    if ss != [] {
      var m: nat :| DerivesStmtCons(ts, i, j, m, ss);
      StmtFirstToken(ts, i, m, ss[0]);
    }
  }

  lemma {:induction false} IfComplete(ts: seq<LToken>, i: nat, j: nat, s: Stmt)
    requires i <= j <= |ts| && s.kind.If? && DerivesStmt(ts, i, j, s) && (Open(s) ==> !AtTok(ts, j, TkElse))
    ensures AtTok(ts, i, TkIf) && ParseIf(ts, i) == Parsed(s, j, 0)
    decreases j - i, 0
  {
    hide ParseCondition, DerivesCondition, ParseStmt;
    var If(cond, thn, els) := s.kind;
    var m: nat, n: nat :| DerivesIf(ts, i, j, m, n, cond, thn, els);
    ConditionComplete(ts, i + 1, m, cond);
    StmtComplete(ts, m, n, thn);
    if els.Some? { StmtComplete(ts, n + 1, j, els.value); }
  }

  lemma {:induction false} WhileComplete(ts: seq<LToken>, i: nat, j: nat, s: Stmt)
    requires i <= j <= |ts| && s.kind.While? && DerivesStmt(ts, i, j, s) && (Open(s) ==> !AtTok(ts, j, TkElse))
    ensures AtTok(ts, i, TkWhile) && ParseWhile(ts, i) == Parsed(s, j, 0)
    decreases j - i, 0
  {
    hide ParseCondition, DerivesCondition, ParseStmt;
    var While(cond, body) := s.kind;
    var m: nat :| DerivesWhile(ts, i, j, m, cond, body);
    ConditionComplete(ts, i + 1, m, cond);
    StmtComplete(ts, m, j, body);
  }

  lemma {:induction false} DoComplete(ts: seq<LToken>, i: nat, j: nat, s: Stmt)
    requires i <= j <= |ts| && s.kind.DoWhile? && DerivesStmt(ts, i, j, s)
    ensures AtTok(ts, i, TkDo) && ParseDo(ts, i) == Parsed(s, j, 0)
    decreases j - i, 0
  {
    hide ParseCondition, DerivesCondition, ParseStmt;
    var DoWhile(body, cond) := s.kind;
    var m: nat :| DerivesDo(ts, i, j, m, body, cond);
    StmtComplete(ts, i + 1, m, body);
    ConditionComplete(ts, m + 1, j - 1, cond);
  }

  lemma {:induction false} ForComplete(ts: seq<LToken>, i: nat, j: nat, s: Stmt)
    requires i <= j <= |ts| && s.kind.For? && DerivesStmt(ts, i, j, s) && (Open(s) ==> !AtTok(ts, j, TkElse))
    ensures AtTok(ts, i, TkFor) && ParseFor(ts, i) == Parsed(s, j, 0)
    decreases j - i, 0
  {
    hide ParseListUntil, DerivesList, ParseOptExpr, DerivesOpt, ParseStmt;
    var For(inits, test, posts, body) := s.kind;
    var a: nat, b: nat, c: nat :| DerivesFor(ts, i, j, a, b, c, inits, test, posts, body);
    ListUntilComplete(ts, i + 2, a, TkSemi, inits);
    OptComplete(ts, a + 1, b, test);
    ListUntilComplete(ts, b + 1, c, TkRParen, posts);
    StmtComplete(ts, c + 1, j, body);
  }

  // ----------------------------------------------------------------- scripts

  lemma {:induction false} ParamsComplete(ts: seq<LToken>, i: nat, j: nat, ps: seq<Param>)
    requires i <= j <= |ts| && DerivesParams(ts, i, j, ps) && ps != [] && AtTok(ts, j, TkRParen)
    ensures ParseParams(ts, i) == Parsed(ps, j, 0)
    decreases j - i
  {
    assert ps == [ps[0]] + ps[1..];
    if |ps| > 1 { ParamsComplete(ts, i + 3, j, ps[1..]); } else { assert ps[1..] == [] && ps == [ps[0]]; }
  }

  lemma SignatureComplete(ts: seq<LToken>, i: nat, j: nat, ps: seq<Param>, body: Stmt)
    requires i <= j <= |ts| && DerivesSignature(ts, i, j, ps, body)
    ensures AtTok(ts, i, TkLParen)
    ensures var r := ParseParamsUntilParen(ts, i + 1);
            r.v == ps && r.errs == 0 && AtTok(ts, r.next, TkRParen) && AtTok(ts, r.next + 1, TkLBrace) &&
            ParseBlock(ts, r.next + 1) == Parsed(body, j, 0)
  {
    hide ParseParams, DerivesStmts, ParseStmts;
    var m: nat :| SignatureAt(ts, i, j, m, ps, body);
    BlockComplete(ts, m + 1, j, body);
    if ps != [] { ParamsComplete(ts, i + 1, m, ps); }
  }

  lemma EventComplete(ts: seq<LToken>, i: nat, j: nat, e: Event)
    requires i <= j <= |ts| && DerivesEvent(ts, i, j, e)
    ensures ParseEvent(ts, i) == Parsed(Some(e), j, 0)
  {
    hide ParseParamsUntilParen, ParseBlock, DerivesSignature;
    SignatureComplete(ts, i + 1, j, e.params, e.body);
  }

  lemma {:induction false} EventsComplete(ts: seq<LToken>, i: nat, j: nat, es: seq<Event>)
    requires i <= j <= |ts| && DerivesEvents(ts, i, j, es) && AtTok(ts, j, TkRBrace)
    ensures ParseEvents(ts, i) == Parsed(es, j, 0)
    decreases |es|
  {
    hide ParseEvent, DerivesSignature;
    if es != [] {
      var m: nat :| DerivesEventCons(ts, i, j, m, es);
      EventComplete(ts, i, m, es[0]);
      EventsComplete(ts, m, j, es[1..]);
      assert es == [es[0]] + es[1..];
    }
  }

  lemma GlobalComplete(ts: seq<LToken>, i: nat, j: nat, g: Global)
    requires i < j <= |ts| && DerivesGlobal(ts, i, j, g)
    ensures ParseDeclaration(ts, i) == Parsed(Some(DGlobal(g)), j, 0)
  {
    hide ParseInit, DerivesInit, ParseFuncRest, ParseState;
    InitComplete(ts, i + 2, j - 1, g.init);
    assert !AtTok(ts, i + 2, TkLParen) by { InitFirst(ts, i + 2, j - 1, g.init); }
  }

  lemma FuncComplete(ts: seq<LToken>, i: nat, j: nat, f: Func)
    requires i < j <= |ts| && DerivesFunc(ts, i, j, f)
    ensures ParseDeclaration(ts, i) == Parsed(Some(DFunc(f)), j, 0)
  {
    hide ParseParamsUntilParen, ParseBlock, ParseInit, DerivesSignature, ParseState;
    SignatureComplete(ts, if f.hasRet then i + 2 else i + 1, j, f.params, f.body);
  }

  lemma StateComplete(ts: seq<LToken>, i: nat, j: nat, s: State)
    requires i < j <= |ts| && DerivesState(ts, i, j, s)
    ensures ParseDeclaration(ts, i) == Parsed(Some(DState(s)), j, 0)
  {
    hide ParseEvents, DerivesEvents, ParseInit, ParseFuncRest;
    EventsComplete(ts, if s.isDefault then i + 2 else i + 3, j - 1, s.events);
  }

  lemma DeclarationComplete(ts: seq<LToken>, i: nat, j: nat, d: TopDecl)
    requires i < j <= |ts| && DerivesDecl(ts, i, j, d)
    ensures ParseDeclaration(ts, i) == Parsed(Some(d), j, 0)
  {
    hide ParseDeclaration, DerivesGlobal, DerivesFunc, DerivesState;
    match d
    case DGlobal(g) => GlobalComplete(ts, i, j, g);
    case DFunc(f) => FuncComplete(ts, i, j, f);
    case DState(s) => StateComplete(ts, i, j, s);
  }

  lemma InitFirst(ts: seq<LToken>, i: nat, j: nat, e: Option<Expr>)
    requires i <= j <= |ts| && DerivesInit(ts, i, j, e) && AtTok(ts, j, TkSemi)
    ensures !AtTok(ts, i, TkLParen)
  {
    hide Derives;
  }

  lemma {:induction false} TopComplete(ts: seq<LToken>, i: nat, ds: seq<TopDecl>, sc: Script, maxErrors: int)
    requires i <= |ts| && DerivesDecls(ts, i, ds) && 0 < maxErrors
    ensures ParseTop(ts, i, sc, 0, maxErrors) == Parsed(Collected(sc, ds), |ts|, 0)
    decreases |ds|
  {
    hide ParseDeclaration, DerivesDecl, AddDecl;
    if ds != [] {
      var m: nat :| DerivesDeclCons(ts, i, m, ds);
      DeclarationComplete(ts, i, m, ds[0]);
      TopComplete(ts, m, ds[1..], AddDecl(sc, ds[0]), maxErrors);
    }
  }

  /** The parser accepts exactly the grammar: it reports no error if and only if the
      whole token sequence derives a script, and then the script is the one it returns. */
  lemma ParserExact(ts: seq<LToken>, maxErrors: int, sc: Script)
    requires 0 < maxErrors
    ensures DerivesScript(ts, sc) <==> ParseScript(ts, maxErrors) == Parsed(sc, |ts|, 0)
  {
    hide ParseTop, DerivesDecls, Collected;
    if DerivesScript(ts, sc) {
      var ds :| DerivesDecls(ts, 0, ds) && sc == ScriptOf(ds);
      TopComplete(ts, 0, ds, EMPTY_SCRIPT, maxErrors);
    }
    if ParseScript(ts, maxErrors) == Parsed(sc, |ts|, 0) {
      ScriptSound(ts, maxErrors);
    }
  }

  /** In particular an error is reported exactly when no script derives the tokens. */
  lemma ErrorExactly(ts: seq<LToken>, maxErrors: int)
    requires 0 < maxErrors
    ensures ParseScript(ts, maxErrors).errs == 0 <==> exists sc :: DerivesScript(ts, sc)
  {
    hide DerivesScript, ParseScript;
    if ParseScript(ts, maxErrors).errs == 0 {
      ScriptSound(ts, maxErrors);
    }
    if sc :| DerivesScript(ts, sc) {
      ParserExact(ts, maxErrors, sc);
    }
  }

  /** So the grammar is unambiguous. */
  lemma GrammarUnambiguous(ts: seq<LToken>, a: Script, b: Script)
    requires DerivesScript(ts, a) && DerivesScript(ts, b)
    ensures a == b
  {
    hide DerivesScript, ParseScript;
    ParserExact(ts, 1, a);
    ParserExact(ts, 1, b);
  }
}
