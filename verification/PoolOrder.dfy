/** The string pool holds the names and strings of a script in the order of its source text. */
module PoolOrder {
  import opened Syntax
  import opened ParseSpec
  import opened Grammar
  import opened Printer
  import opened ScriptPrinter
  import opened Slbc

  /** What a token names. */
  function Own(t: Token): seq<string> {
    match t
    case TkIdent(w) => [w]
    case TkString(s) => [s]
    case TkDefault => ["default"]
    case TkPrint => ["print"]
    case _ => []
  }

  /** The identifiers and strings among the tokens, but for the component after a dot. */
  function Named(ts: seq<LToken>): seq<string> {
    if ts == [] then []
    else if ts[0].tok.TkDot? then (if |ts| > 1 then Named(ts[2..]) else [])
    else Own(ts[0].tok) + Named(ts[1..])
  }

  lemma OneNamed(t: Token, line: int, b: seq<LToken>)
    requires !t.TkDot?
    ensures Named(Tok(t, line) + b) == Own(t) + Named(b)
  {
    assert (Tok(t, line) + b)[1..] == b;
  }

  lemma DotNamed(c: string, line: int, b: seq<LToken>)
    ensures Named(Tok(TkDot, line) + (Tok(TkIdent(c), line) + b)) == Named(b)
  {
    var ts := Tok(TkDot, line) + (Tok(TkIdent(c), line) + b);
    assert ts[2..] == b;
  }

  /** A printed expression names what the pool takes from it, before anything. */
  lemma {:induction false} ExprNamed(e: Expr, k: nat, line: int, b: seq<LToken>)
    ensures Named(PrintExpr(e, k, line) + b) == ExprStrings(e) + Named(b)
    decreases e, 3
  {
    hide Named, ExprStrings, PrintNode;
    if NodeLevel(e.kind) < k {
      var node, close := PrintNode(e, line), Tok(TkRParen, line);
      assert PrintExpr(e, k, line) + b == Tok(TkLParen, line) + (node + (close + b));
      OneNamed(TkLParen, line, node + (close + b));
      NodeNamed(e, line, close + b);
      OneNamed(TkRParen, line, b);
    } else {
      NodeNamed(e, line, b);
    }
  }

  lemma {:induction false} NodeNamed(e: Expr, line: int, b: seq<LToken>)
    ensures Named(PrintNode(e, line) + b) == ExprStrings(e) + Named(b)
    decreases e, 2
  {
    hide Named, PrintExpr;
    match e.kind
    case IntLit(n) => OneNamed(TkInt(n), line, b);
    case FloatLit(f) => OneNamed(TkFloat(f), line, b);
    case StringLit(s) => OneNamed(TkString(s), line, b);
    case Ident(name) => OneNamed(TkIdent(name), line, b);
    case VectorLit(_, _, _) => VectorNamed(e, line, b);
    case RotLit(_, _, _, _) => RotNamed(e, line, b);
    case ListLit(_) => BracketsNamed(e, line, b);
    case Call(_, _) => CallNamed(e, line, b);
    case Member(_, _) => SuffixNamed(e, line, b);
    case Postfix(_, _) => SuffixNamed(e, line, b);
    case Cast(_, _) => PrefixNamed(e, line, b);
    case Unary(_, _) => PrefixNamed(e, line, b);
    case Binary(_, _, _) => InfixNamed(e, line, b);
    case Assign(_, _, _) => InfixNamed(e, line, b);
  }

  lemma {:induction false} VectorNamed(e: Expr, line: int, b: seq<LToken>)
    requires e.kind.VectorLit?
    ensures Named(PrintNode(e, line) + b) == ExprStrings(e) + Named(b)
    decreases e, 1
  {
    hide Named, PrintExpr;
    var VectorLit(x, y, z) := e.kind;
    var t3 := PrintExpr(z, 8, line) + (Tok(TkOp(OpGt), line) + b);
    var t2 := PrintExpr(y, 8, line) + (Tok(TkComma, line) + t3);
    var t1 := PrintExpr(x, 8, line) + (Tok(TkComma, line) + t2);
    assert PrintNode(e, line) + b == Tok(TkOp(OpLt), line) + t1;
    OneNamed(TkOp(OpLt), line, t1);
    ExprThen(x, 8, line, TkComma, t2);
    ExprThen(y, 8, line, TkComma, t3);
    ExprThen(z, 8, line, TkOp(OpGt), b);
  }

  lemma {:induction false} BracketsNamed(e: Expr, line: int, b: seq<LToken>)
    requires e.kind.ListLit?
    ensures Named(PrintNode(e, line) + b) == ExprStrings(e) + Named(b)
    decreases e, 1
  {
    hide Named, PrintExpr, PrintList;
    var items := e.kind.items;
    assert PrintNode(e, line) + b == Tok(TkLBrack, line) + (PrintList(items, 0, line) + (Tok(TkRBrack, line) + b));
    OneNamed(TkLBrack, line, PrintList(items, 0, line) + (Tok(TkRBrack, line) + b));
    ListNamed(items, 0, line, Tok(TkRBrack, line) + b);
    OneNamed(TkRBrack, line, b);
  }

  lemma {:induction false} CallNamed(e: Expr, line: int, b: seq<LToken>)
    requires e.kind.Call?
    ensures Named(PrintNode(e, line) + b) == ExprStrings(e) + Named(b)
    decreases e, 1
  {
    hide Named, PrintExpr, PrintList;
    var Call(fn, args) := e.kind;
    var t := PrintList(args, 0, line) + (Tok(TkRParen, line) + b);
    assert PrintNode(e, line) + b == Tok(TkIdent(fn), line) + (Tok(TkLParen, line) + t);
    OneNamed(TkIdent(fn), line, Tok(TkLParen, line) + t);
    OneNamed(TkLParen, line, t);
    ListNamed(args, 0, line, Tok(TkRParen, line) + b);
    OneNamed(TkRParen, line, b);
  }

  lemma {:induction false} SuffixNamed(e: Expr, line: int, b: seq<LToken>)
    requires e.kind.Member? || e.kind.Postfix?
    ensures Named(PrintNode(e, line) + b) == ExprStrings(e) + Named(b)
    decreases e, 1
  {
    hide Named, PrintExpr;
    match e.kind
    case Member(base, c) =>
      var t := Tok(TkDot, line) + (Tok(TkIdent([c]), line) + b);
      assert PrintNode(e, line) + b == PrintExpr(base, 12, line) + t;
      ExprNamed(base, 12, line, t);
      DotNamed([c], line, b);
    case Postfix(op, inner) =>
      assert PrintNode(e, line) + b == PrintExpr(inner, 12, line) + (Tok(TkOp(op), line) + b);
      ExprThen(inner, 12, line, TkOp(op), b);
  }

  lemma {:induction false} PrefixNamed(e: Expr, line: int, b: seq<LToken>)
    requires e.kind.Cast? || e.kind.Unary?
    ensures Named(PrintNode(e, line) + b) == ExprStrings(e) + Named(b)
    decreases e, 1
  {
    hide Named, PrintExpr;
    match e.kind
    case Cast(to, inner) =>
      var rest := PrintExpr(inner, 11, line) + b;
      var t := Tok(TkType(KwOfType(to)), line) + (Tok(TkRParen, line) + rest);
      assert PrintNode(e, line) + b == Tok(TkLParen, line) + t;
      OneNamed(TkLParen, line, t);
      OneNamed(TkType(KwOfType(to)), line, Tok(TkRParen, line) + rest);
      OneNamed(TkRParen, line, rest);
      ExprNamed(inner, 11, line, b);
    case Unary(op, inner) =>
      assert PrintNode(e, line) + b == Tok(TkOp(op), line) + (PrintExpr(inner, 11, line) + b);
      OneNamed(TkOp(op), line, PrintExpr(inner, 11, line) + b);
      ExprNamed(inner, 11, line, b);
  }

  lemma {:induction false} InfixNamed(e: Expr, line: int, b: seq<LToken>)
    requires e.kind.Binary? || e.kind.Assign?
    ensures Named(PrintNode(e, line) + b) == ExprStrings(e) + Named(b)
    decreases e, 1
  {
    hide Named, PrintExpr;
    var op, l, r := e.kind.op, e.kind.l, e.kind.r;
    var rest := PrintExpr(r, RightLevel(op), line) + b;
    assert PrintNode(e, line) + b == PrintExpr(l, LeftLevel(op), line) + (Tok(TkOp(op), line) + rest);
    ExprThen(l, LeftLevel(op), line, TkOp(op), rest);
    ExprNamed(r, RightLevel(op), line, b);
  }

  /** An expression and a token that names nothing. */
  lemma {:induction false} ExprThen(e: Expr, k: nat, line: int, t: Token, b: seq<LToken>)
    requires !t.TkDot? && Own(t) == []
    ensures Named(PrintExpr(e, k, line) + (Tok(t, line) + b)) == ExprStrings(e) + Named(b)
    decreases e, 4
  {
    hide Named, PrintExpr, ExprStrings;
    ExprNamed(e, k, line, Tok(t, line) + b);
    OneNamed(t, line, b);
  }

  lemma {:induction false} RotNamed(e: Expr, line: int, b: seq<LToken>)
    requires e.kind.RotLit?
    ensures Named(PrintNode(e, line) + b) == ExprStrings(e) + Named(b)
    decreases e, 1
  {
    hide Named, PrintExpr;
    var RotLit(x, y, z, w) := e.kind;
    var t4 := PrintExpr(w, 8, line) + (Tok(TkOp(OpGt), line) + b);
    var t3 := PrintExpr(z, 8, line) + (Tok(TkComma, line) + t4);
    var t2 := PrintExpr(y, 8, line) + (Tok(TkComma, line) + t3);
    var t1 := PrintExpr(x, 8, line) + (Tok(TkComma, line) + t2);
    assert PrintNode(e, line) + b == Tok(TkOp(OpLt), line) + t1;
    OneNamed(TkOp(OpLt), line, t1);
    ExprThen(x, 8, line, TkComma, t2);
    ExprThen(y, 8, line, TkComma, t3);
    ExprThen(z, 8, line, TkComma, t4);
    ExprThen(w, 8, line, TkOp(OpGt), b);
  }

  lemma {:induction false} ListNamed(es: seq<Expr>, k: nat, line: int, b: seq<LToken>)
    requires k <= |es|
    ensures Named(PrintList(es, k, line) + b) == ExprsStrings(es, k) + Named(b)
    decreases es, |es| - k
  {
    hide Named, PrintExpr, ExprStrings;
    if k == |es| {
      assert PrintList(es, k, line) + b == b;
    } else if k + 1 == |es| {
      ExprNamed(es[k], 0, line, b);
      assert ExprsStrings(es, k) == ExprStrings(es[k]) + ExprsStrings(es, k + 1);
    } else {
      var rest := PrintList(es, k + 1, line);
      assert PrintList(es, k, line) + b == PrintExpr(es[k], 0, line) + (Tok(TkComma, line) + (rest + b));
      ExprThen(es[k], 0, line, TkComma, rest + b);
      ListNamed(es, k + 1, line, b);
    }
  }

  // ------------------------------------------------------------------ statements

  lemma ConditionNamed(e: Expr, line: int, b: seq<LToken>)
    ensures Named(PrintCondition(e, line) + b) == ExprStrings(e) + Named(b)
  {
    hide Named, PrintExpr, ExprStrings;
    var t := PrintExpr(e, 0, line) + (Tok(TkRParen, line) + b);
    assert PrintCondition(e, line) + b == Tok(TkLParen, line) + t;
    OneNamed(TkLParen, line, t);
    ExprThen(e, 0, line, TkRParen, b);
  }

  lemma OptNamed(e: Option<Expr>, line: int, b: seq<LToken>)
    ensures Named(PrintOpt(e, line) + b) == OptExprStrings(e) + Named(b)
  {
    hide Named, PrintExpr, ExprStrings;
    if e.Some? { ExprNamed(e.value, 0, line, b); } else { assert PrintOpt(e, line) + b == b; }
  }

  lemma InitNamed(e: Option<Expr>, line: int, b: seq<LToken>)
    ensures Named(PrintInit(e, line) + b) == OptExprStrings(e) + Named(b)
  {
    hide Named, PrintExpr, ExprStrings;
    if e.Some? {
      assert PrintInit(e, line) + b == Tok(TkOp(OpAssign), line) + (PrintExpr(e.value, 0, line) + b);
      OneNamed(TkOp(OpAssign), line, PrintExpr(e.value, 0, line) + b);
      ExprNamed(e.value, 0, line, b);
    } else {
      assert PrintInit(e, line) + b == b;
    }
  }

  /** A token that names nothing, one that does, and a semicolon. */
  lemma TargetNamed(t: Token, u: Token, line: int, b: seq<LToken>)
    requires !t.TkDot? && !u.TkDot? && Own(t) == []
    ensures Named((Tok(t, line) + (Tok(u, line) + Tok(TkSemi, line))) + b) == Own(u) + Named(b)
  {
    hide Named;
    assert (Tok(t, line) + (Tok(u, line) + Tok(TkSemi, line))) + b
      == Tok(t, line) + (Tok(u, line) + (Tok(TkSemi, line) + b));
    OneNamed(t, line, Tok(u, line) + (Tok(TkSemi, line) + b));
    OneNamed(u, line, Tok(TkSemi, line) + b);
    OneNamed(TkSemi, line, b);
  }

  lemma {:induction false} StmtNamed(s: Stmt, b: seq<LToken>)
    ensures Named(PrintStmt(s) + b) == StmtStrings(s) + Named(b)
    decreases s, 1
  {
    hide Named, PrintExpr, ExprStrings, PrintCondition, PrintOpt, PrintInit, PrintList, ExprsStrings, OptExprStrings;
    var line := s.line;
    match s.kind
    case Empty => OneNamed(TkSemi, line, b);
    case ExprStmt(e) => ExprStmtNamed(s, e, b);
    case Decl(ty, name, init) =>
      var t := PrintInit(init, line) + (Tok(TkSemi, line) + b);
      assert PrintStmt(s) + b == Tok(TkType(KwOfType(ty)), line) + (Tok(TkIdent(name), line) + t);
      OneNamed(TkType(KwOfType(ty)), line, Tok(TkIdent(name), line) + t);
      OneNamed(TkIdent(name), line, t);
      InitNamed(init, line, Tok(TkSemi, line) + b);
      OneNamed(TkSemi, line, b);
    case Block(stmts) =>
      var t := PrintStmts(stmts, 0) + (Tok(TkRBrace, line) + b);
      assert PrintStmt(s) + b == Tok(TkLBrace, line) + t;
      OneNamed(TkLBrace, line, t);
      StmtsNamed(stmts, 0, Tok(TkRBrace, line) + b);
      OneNamed(TkRBrace, line, b);
    case If(_, _, _) => IfNamed(s, b);
    case While(_, _) => WhileNamed(s, b);
    case DoWhile(_, _) => DoWhileNamed(s, b);
    case For(_, _, _, _) => ForNamed(s, b);
    case Return(result) =>
      var t := PrintOpt(result, line) + (Tok(TkSemi, line) + b);
      assert PrintStmt(s) + b == Tok(TkReturn, line) + t;
      OneNamed(TkReturn, line, t);
      OptNamed(result, line, Tok(TkSemi, line) + b);
      OneNamed(TkSemi, line, b);
    case Jump(target) => TargetNamed(TkJump, TkIdent(target.GetOr("")), line, b);
    case Label(target) => TargetNamed(TkAt, TkIdent(target.GetOr("")), line, b);
    case StateChange(target) => TargetNamed(TkState, StateToken(target.GetOr("")), line, b);
  }

  lemma ExprStmtNamed(s: Stmt, e: Expr, b: seq<LToken>)
    requires s.kind == ExprStmt(e)
    ensures Named(PrintStmt(s) + b) == ExprStrings(e) + Named(b)
  {
    hide Named, PrintExpr, PrintCondition, ExprStrings;
    var line := s.line;
    var semi := Tok(TkSemi, line) + b;
    if IsPrintCall(e) {
      var x := e.kind.args[0];
      assert PrintStmt(s) + b == Tok(TkPrint, line) + (PrintCondition(x, line) + semi);
      OneNamed(TkPrint, line, PrintCondition(x, line) + semi);
      ConditionNamed(x, line, semi);
      PrintStrings(e);
    } else {
      assert PrintStmt(s) + b == PrintExpr(e, 0, line) + semi;
      ExprNamed(e, 0, line, semi);
    }
    OneNamed(TkSemi, line, b);
  }

  lemma PrintStrings(e: Expr)
    requires IsPrintCall(e)
    ensures ExprStrings(e) == ["print"] + ExprStrings(e.kind.args[0])
  {
    var args := e.kind.args;
    assert ExprsStrings(args, 0) == ExprStrings(args[0]) + ExprsStrings(args, 1);
  }

  lemma {:induction false} IfNamed(s: Stmt, b: seq<LToken>)
    requires s.kind.If?
    ensures Named(PrintStmt(s) + b) == StmtStrings(s) + Named(b)
    decreases s, 0
  {
    hide Named, ExprStrings, PrintCondition;
    var line := s.line;
    var If(cond, thn, els) := s.kind;
    var rest := if els.Some? then Tok(TkElse, line) + (PrintStmt(els.value) + b) else b;
    assert PrintStmt(s) + b == Tok(TkIf, line) + (PrintCondition(cond, line) + (PrintStmt(thn) + rest));
    OneNamed(TkIf, line, PrintCondition(cond, line) + (PrintStmt(thn) + rest));
    ConditionNamed(cond, line, PrintStmt(thn) + rest);
    StmtNamed(thn, rest);
    if els.Some? {
      OneNamed(TkElse, line, PrintStmt(els.value) + b);
      StmtNamed(els.value, b);
    }
  }

  lemma {:induction false} WhileNamed(s: Stmt, b: seq<LToken>)
    requires s.kind.While?
    ensures Named(PrintStmt(s) + b) == StmtStrings(s) + Named(b)
    decreases s, 0
  {
    hide Named, ExprStrings, PrintCondition;
    var line := s.line;
    var While(cond, body) := s.kind;
    var t := PrintCondition(cond, line) + (PrintStmt(body) + b);
    assert PrintStmt(s) + b == Tok(TkWhile, line) + t;
    OneNamed(TkWhile, line, t);
    ConditionNamed(cond, line, PrintStmt(body) + b);
    StmtNamed(body, b);
  }

  lemma {:induction false} DoWhileNamed(s: Stmt, b: seq<LToken>)
    requires s.kind.DoWhile?
    ensures Named(PrintStmt(s) + b) == StmtStrings(s) + Named(b)
    decreases s, 0
  {
    hide Named, ExprStrings, PrintCondition;
    var line := s.line;
    var DoWhile(body, cond) := s.kind;
    var t := PrintCondition(cond, line) + (Tok(TkSemi, line) + b);
    assert PrintStmt(s) + b == Tok(TkDo, line) + (PrintStmt(body) + (Tok(TkWhile, line) + t));
    OneNamed(TkDo, line, PrintStmt(body) + (Tok(TkWhile, line) + t));
    StmtNamed(body, Tok(TkWhile, line) + t);
    OneNamed(TkWhile, line, t);
    ConditionNamed(cond, line, Tok(TkSemi, line) + b);
    OneNamed(TkSemi, line, b);
  }

  lemma {:induction false} ForNamed(s: Stmt, b: seq<LToken>)
    requires s.kind.For?
    ensures Named(PrintStmt(s) + b) == StmtStrings(s) + Named(b)
    decreases s, 0
  {
    hide Named, ExprStrings, PrintOpt, PrintList, ExprsStrings, OptExprStrings, PrintStmt;
    var line := s.line;
    var For(inits, test, posts, body) := s.kind;
    var t4 := Tok(TkRParen, line) + (PrintStmt(body) + b);
    var t3 := Tok(TkSemi, line) + (PrintList(posts, 0, line) + t4);
    var t2 := Tok(TkSemi, line) + (PrintOpt(test, line) + t3);
    var t1 := Tok(TkLParen, line) + (PrintList(inits, 0, line) + t2);
    ForTokens(s, b);
    OneNamed(TkFor, line, t1);
    OneNamed(TkLParen, line, PrintList(inits, 0, line) + t2);
    ListNamed(inits, 0, line, t2);
    OneNamed(TkSemi, line, PrintOpt(test, line) + t3);
    OptNamed(test, line, t3);
    OneNamed(TkSemi, line, PrintList(posts, 0, line) + t4);
    ListNamed(posts, 0, line, t4);
    OneNamed(TkRParen, line, PrintStmt(body) + b);
    StmtNamed(body, b);
  }

  lemma ForTokens(s: Stmt, b: seq<LToken>)
    requires s.kind.For?
    ensures var line := s.line;
      var t4 := Tok(TkRParen, line) + (PrintStmt(s.kind.body) + b);
      var t3 := Tok(TkSemi, line) + (PrintList(s.kind.posts, 0, line) + t4);
      var t2 := Tok(TkSemi, line) + (PrintOpt(s.kind.test, line) + t3);
      var t1 := Tok(TkLParen, line) + (PrintList(s.kind.inits, 0, line) + t2);
      PrintStmt(s) + b == Tok(TkFor, line) + t1
  {
    hide PrintOpt, PrintList;
  }

  lemma {:induction false} StmtsNamed(ss: seq<Stmt>, k: nat, b: seq<LToken>)
    requires k <= |ss|
    ensures Named(PrintStmts(ss, k) + b) == StmtsStrings(ss, k) + Named(b)
    decreases ss, |ss| - k
  {
    hide Named, PrintStmt, StmtStrings;
    if k == |ss| {
      assert PrintStmts(ss, k) + b == b;
    } else {
      assert PrintStmts(ss, k) + b == PrintStmt(ss[k]) + (PrintStmts(ss, k + 1) + b);
      StmtNamed(ss[k], PrintStmts(ss, k + 1) + b);
      StmtsNamed(ss, k + 1, b);
    }
  }

  // ------------------------------------------------------------------ declarations

  lemma {:induction false} ParamsNamed(ps: seq<Param>, k: nat, line: int, b: seq<LToken>)
    requires k <= |ps|
    ensures Named(PrintParams(ps, k, line) + b) == ParamStrings(ps, k) + Named(b)
    decreases |ps| - k
  {
    hide Named, KwOfType, PrintParams, ParamStrings;
    if k == |ps| {
      NoParams(ps, line, b);
    } else {
      var ty, name := TkType(KwOfType(ps[k].ty)), TkIdent(ps[k].name);
      var rest := ParamsStep(ps, k, line, b);
      OneNamed(ty, line, Tok(name, line) + rest);
      OneNamed(name, line, rest);
      ParamsNamed(ps, k + 1, line, b);
      if k + 1 < |ps| { OneNamed(TkComma, line, PrintParams(ps, k + 1, line) + b); }
      ParamFirst(ps, k);
    }
  }

  lemma NoParams(ps: seq<Param>, line: int, b: seq<LToken>)
    ensures Named(PrintParams(ps, |ps|, line) + b) == ParamStrings(ps, |ps|) + Named(b)
  {
    assert PrintParams(ps, |ps|, line) + b == b;
  }

  lemma ParamFirst(ps: seq<Param>, k: nat)
    requires k < |ps|
    ensures ParamStrings(ps, k) == [ps[k].name] + ParamStrings(ps, k + 1)
  {
  }

  lemma ParamsStep(ps: seq<Param>, k: nat, line: int, b: seq<LToken>) returns (rest: seq<LToken>)
    requires k < |ps|
    ensures PrintParams(ps, k, line) + b
      == Tok(TkType(KwOfType(ps[k].ty)), line) + (Tok(TkIdent(ps[k].name), line) + rest)
    ensures rest == if k + 1 == |ps| then PrintParams(ps, k + 1, line) + b
                    else Tok(TkComma, line) + (PrintParams(ps, k + 1, line) + b)
  {
    hide KwOfType;
    rest := if k + 1 == |ps| then b else Tok(TkComma, line) + (PrintParams(ps, k + 1, line) + b);
  }

  lemma SignatureNamed(ps: seq<Param>, body: Stmt, line: int, b: seq<LToken>)
    ensures Named(PrintSignature(ps, body, line) + b) == ParamStrings(ps, 0) + (StmtStrings(body) + Named(b))
  {
    hide Named, PrintParams, ParamStrings, PrintStmt, StmtStrings;
    var t := Tok(TkRParen, line) + (PrintStmt(body) + b);
    assert PrintSignature(ps, body, line) + b == Tok(TkLParen, line) + (PrintParams(ps, 0, line) + t);
    OneNamed(TkLParen, line, PrintParams(ps, 0, line) + t);
    ParamsNamed(ps, 0, line, t);
    OneNamed(TkRParen, line, PrintStmt(body) + b);
    StmtNamed(body, b);
  }

  lemma GlobalNamed(g: Global, b: seq<LToken>)
    ensures Named(PrintGlobal(g) + b) == [g.name] + (OptExprStrings(g.init) + Named(b))
  {
    hide Named, PrintInit, OptExprStrings;
    var ty := TkType(KwOfType(g.ty));
    var t := PrintInit(g.init, 1) + (Tok(TkSemi, 1) + b);
    assert PrintGlobal(g) + b == Tok(ty, 1) + (Tok(TkIdent(g.name), 1) + t);
    OneNamed(ty, 1, Tok(TkIdent(g.name), 1) + t);
    OneNamed(TkIdent(g.name), 1, t);
    InitNamed(g.init, 1, Tok(TkSemi, 1) + b);
    OneNamed(TkSemi, 1, b);
  }

  lemma FuncNamed(f: Func, b: seq<LToken>)
    ensures Named(PrintFunc(f) + b) == [f.name] + (ParamStrings(f.params, 0) + (StmtStrings(f.body) + Named(b)))
  {
    hide Named, PrintSignature, ParamStrings, StmtStrings;
    var ty := TkType(KwOfType(f.ret));
    var t := PrintSignature(f.params, f.body, f.line) + b;
    OneNamed(TkIdent(f.name), f.line, t);
    SignatureNamed(f.params, f.body, f.line, b);
    if f.hasRet {
      assert PrintFunc(f) + b == Tok(ty, f.line) + (Tok(TkIdent(f.name), f.line) + t);
      OneNamed(ty, f.line, Tok(TkIdent(f.name), f.line) + t);
    } else {
      assert PrintFunc(f) + b == Tok(TkIdent(f.name), f.line) + t;
    }
  }

  lemma {:induction false} EventsNamed(es: seq<Event>, k: nat, b: seq<LToken>)
    requires k <= |es|
    ensures Named(PrintEvents(es, k) + b) == EventStrings(es, k) + Named(b)
    decreases |es| - k
  {
    hide Named, PrintSignature, ParamStrings, StmtStrings;
    if k == |es| {
      assert PrintEvents(es, k) + b == b;
    } else {
      var e, rest := es[k], PrintEvents(es, k + 1) + b;
      var t := PrintSignature(e.params, e.body, e.line) + rest;
      assert PrintEvents(es, k) + b == Tok(TkIdent(e.name), e.line) + t;
      OneNamed(TkIdent(e.name), e.line, t);
      SignatureNamed(e.params, e.body, e.line, rest);
      EventsNamed(es, k + 1, b);
    }
  }

  lemma StateNamed(s: State, b: seq<LToken>)
    requires WritableState(s)
    ensures Named(PrintState(s) + b) == [s.name] + (EventStrings(s.events, 0) + Named(b))
  {
    hide Named, PrintEvents, EventStrings;
    var t := Tok(TkLBrace, s.line) + (PrintEvents(s.events, 0) + (Tok(TkRBrace, s.line) + b));
    OneNamed(TkLBrace, s.line, PrintEvents(s.events, 0) + (Tok(TkRBrace, s.line) + b));
    EventsNamed(s.events, 0, Tok(TkRBrace, s.line) + b);
    OneNamed(TkRBrace, s.line, b);
    if s.isDefault {
      assert PrintState(s) + b == Tok(TkDefault, s.line) + t;
      OneNamed(TkDefault, s.line, t);
    } else {
      assert PrintState(s) + b == Tok(TkState, s.line) + (Tok(TkIdent(s.name), s.line) + t);
      OneNamed(TkState, s.line, Tok(TkIdent(s.name), s.line) + t);
      OneNamed(TkIdent(s.name), s.line, t);
    }
  }

  /** The names of the globals from number `k` on, of all functions, and of all states. */
  lemma {:induction false} GlobalsNamed(sc: Script, k: nat)
    requires Writable(sc) && k <= |sc.globals|
    ensures Named(PrintDecls(DeclsOf(sc), k))
      == GlobalStrings(sc.globals, k) + (FuncStrings(sc.funcs, 0) + StateStrings(sc.states, 0))
    decreases |sc.globals| - k
  {
    hide Named, PrintDecl, FuncStrings, StateStrings, OptExprStrings, Writable, DeclsOf, PrintDecls;
    DeclsAre(sc);
    if k == |sc.globals| {
      FuncsNamed(sc, 0);
    } else {
      DeclStep(DeclsOf(sc), k);
      GlobalNamed(sc.globals[k], PrintDecls(DeclsOf(sc), k + 1));
      GlobalsNamed(sc, k + 1);
    }
  }

  lemma {:induction false} FuncsNamed(sc: Script, k: nat)
    requires Writable(sc) && k <= |sc.funcs|
    ensures |sc.globals| + k <= |DeclsOf(sc)|
    ensures Named(PrintDecls(DeclsOf(sc), |sc.globals| + k)) == FuncStrings(sc.funcs, k) + StateStrings(sc.states, 0)
    decreases |sc.funcs| - k
  {
    hide Named, PrintDecl, StateStrings, ParamStrings, StmtStrings, Writable, DeclsOf, PrintDecls;
    DeclsAre(sc);
    if k == |sc.funcs| {
      StatesNamed(sc, 0);
    } else {
      DeclStep(DeclsOf(sc), |sc.globals| + k);
      FuncNamed(sc.funcs[k], PrintDecls(DeclsOf(sc), |sc.globals| + k + 1));
      FuncsNamed(sc, k + 1);
    }
  }

  lemma {:induction false} StatesNamed(sc: Script, k: nat)
    requires Writable(sc) && k <= |sc.states|
    ensures |sc.globals| + |sc.funcs| + k <= |DeclsOf(sc)|
    ensures Named(PrintDecls(DeclsOf(sc), |sc.globals| + |sc.funcs| + k)) == StateStrings(sc.states, k)
    decreases |sc.states| - k
  {
    hide PrintDecl, EventStrings, DeclsOf, Named, PrintDecls, WritableState;
    DeclsAre(sc);
    if k == |sc.states| {
      NoDecls(DeclsOf(sc));
    } else {
      DeclStep(DeclsOf(sc), |sc.globals| + |sc.funcs| + k);
      StateNamed(sc.states[k], PrintDecls(DeclsOf(sc), |sc.globals| + |sc.funcs| + k + 1));
      StatesNamed(sc, k + 1);
    }
  }

  lemma NoDecls(ds: seq<TopDecl>)
    ensures Named(PrintDecls(ds, |ds|)) == []
  {
  }

  lemma DeclsAre(sc: Script)
    ensures var ds := DeclsOf(sc);
      && |ds| == |sc.globals| + |sc.funcs| + |sc.states|
      && (forall k :: 0 <= k < |sc.globals| ==> PrintDecl(ds[k]) == PrintGlobal(sc.globals[k]))
      && (forall k :: 0 <= k < |sc.funcs| ==> PrintDecl(ds[|sc.globals| + k]) == PrintFunc(sc.funcs[k]))
      && (forall k :: 0 <= k < |sc.states| ==>
            PrintDecl(ds[|sc.globals| + |sc.funcs| + k]) == PrintState(sc.states[k]))
  {
    hide PrintGlobal, PrintFunc, PrintState;
  }

  lemma DeclStep(ds: seq<TopDecl>, k: nat)
    requires k < |ds|
    ensures PrintDecls(ds, k) == PrintDecl(ds[k]) + PrintDecls(ds, k + 1)
  {
    hide PrintDecl;
  }

  /** The pool collects what the source text names, in the order in which it names it, each
      once: the identifiers and string literals, `default` and `print`, but no components. */
  lemma PoolInSourceOrder(sc: Script)
    requires Writable(sc)
    ensures PoolOf(sc) == InternAll([], Named(PrintScript(sc)))
  {
    hide Named, InternAll, GlobalStrings, FuncStrings, StateStrings, Writable, PrintDecls;
    GlobalsNamed(sc, 0);
  }

  // ------------------------------------------------------------------ bytes

  function Shifted(u: nat, k: nat): nat {
    if k == 0 then u else Shifted(u / 256, k - 1)
  }

  /** Byte `k` of a number is what is left of it after dropping `k` bytes. */
  lemma {:induction false} ByteOrder(n: nat, u: nat, k: nat)
    requires k < n
    ensures LittleEndian(n, u)[k] == Shifted(u, k) % 256
    decreases k
  {
    if k > 0 { ByteOrder(n - 1, u / 256, k - 1); }
  }

  /** A file starts with its magic number, its version and its flag. */
  lemma HeaderSpelled(lso: bool)
    ensures HeaderBytes(lso)
      == ['S' as int, 'L' as int, 'B' as int, 'C' as int, 0, 2, 0, 0, 0, if lso then 1 else 0, 0, 0, 0]
  {
    U32Spelled(2);
    U32Spelled(0);
    U32Spelled(1);
  }

  lemma U32Spelled(v: nat)
    requires v < 256
    ensures U32(v) == [v, 0, 0, 0]
  {
    assert LittleEndian(1, 0) == [0] + LittleEndian(0, 0);
    assert LittleEndian(2, 0) == [0] + LittleEndian(1, 0);
    assert LittleEndian(3, 0) == [0] + LittleEndian(2, 0);
    assert LittleEndian(4, v) == [v] + LittleEndian(3, 0);
  }
}
