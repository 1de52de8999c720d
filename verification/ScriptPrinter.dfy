/** Writing statements and whole scripts, and the round trip through the parser. */
module ScriptPrinter {
  import opened Syntax
  import opened Seqs
  import opened ParseSpec
  import opened Grammar
  import opened ParseSound
  import opened ParseComplete
  import opened Printer

  // ----------------------------------------------------------------- printing

  function PrintCondition(e: Expr, line: int): seq<LToken> {
    Tok(TkLParen, line) + (PrintExpr(e, 0, line) + Tok(TkRParen, line))
  }

  function PrintInit(e: Option<Expr>, line: int): seq<LToken> {
    match e
    case None => []
    case Some(x) => Tok(TkOp(OpAssign), line) + PrintExpr(x, 0, line)
  }

  function PrintOpt(e: Option<Expr>, line: int): seq<LToken> {
    match e
    case None => []
    case Some(x) => PrintExpr(x, 0, line)
  }

  /** A bare `print(x)` is written with the keyword. */
  predicate IsPrintCall(e: Expr) {
    e.kind.Call? && |e.kind.args| == 1 && e == Fresh(Call("print", e.kind.args))
  }

  function StateToken(name: string): Token {
    if name == "default" then TkDefault else TkIdent(name)
  }

  function PrintStmt(s: Stmt): seq<LToken>
    decreases s
  {
    var line := s.line;
    var semi := Tok(TkSemi, line);
    match s.kind
    case Empty => semi
    case ExprStmt(e) =>
      if IsPrintCall(e) then Tok(TkPrint, line) + (PrintCondition(e.kind.args[0], line) + semi)
      else PrintExpr(e, 0, line) + semi
    case Decl(ty, name, init) =>
      Tok(TkType(KwOfType(ty)), line) + (Tok(TkIdent(name), line) + (PrintInit(init, line) + semi))
    case Block(stmts) => Tok(TkLBrace, line) + (PrintStmts(stmts, 0) + Tok(TkRBrace, line))
    case If(cond, thn, els) =>
      Tok(TkIf, line) +
      (PrintCondition(cond, line) +
       (PrintStmt(thn) + (if els.Some? then Tok(TkElse, line) + PrintStmt(els.value) else [])))
    case While(cond, body) => Tok(TkWhile, line) + (PrintCondition(cond, line) + PrintStmt(body))
    case DoWhile(body, cond) =>
      Tok(TkDo, line) + (PrintStmt(body) + (Tok(TkWhile, line) + (PrintCondition(cond, line) + semi)))
    case For(inits, test, posts, body) =>
      Tok(TkFor, line) +
      (Tok(TkLParen, line) +
       (PrintList(inits, 0, line) +
        (semi +
         (PrintOpt(test, line) +
          (semi + (PrintList(posts, 0, line) + (Tok(TkRParen, line) + PrintStmt(body))))))))
    case Return(result) => Tok(TkReturn, line) + (PrintOpt(result, line) + semi)
    case Jump(target) => Tok(TkJump, line) + (Tok(TkIdent(target.GetOr("")), line) + semi)
    case Label(target) => Tok(TkAt, line) + (Tok(TkIdent(target.GetOr("")), line) + semi)
    case StateChange(target) => Tok(TkState, line) + (Tok(StateToken(target.GetOr("")), line) + semi)
  }

  function PrintStmts(ss: seq<Stmt>, k: nat): seq<LToken>
    requires k <= |ss|
    decreases ss, |ss| - k
  {
    if k == |ss| then [] else PrintStmt(ss[k]) + PrintStmts(ss, k + 1)
  }

  function PrintParams(ps: seq<Param>, k: nat, line: int): seq<LToken>
    requires k <= |ps|
    decreases |ps| - k
  {
    if k == |ps| then []
    else
      Tok(TkType(KwOfType(ps[k].ty)), line) +
      (Tok(TkIdent(ps[k].name), line) +
       (if k + 1 == |ps| then [] else Tok(TkComma, line) + PrintParams(ps, k + 1, line)))
  }

  function PrintSignature(ps: seq<Param>, body: Stmt, line: int): seq<LToken> {
    Tok(TkLParen, line) + (PrintParams(ps, 0, line) + (Tok(TkRParen, line) + PrintStmt(body)))
  }

  /** A global carries no line of its own, so it is written on line 1. */
  function PrintGlobal(g: Global): seq<LToken> {
    Tok(TkType(KwOfType(g.ty)), 1) + (Tok(TkIdent(g.name), 1) + (PrintInit(g.init, 1) + Tok(TkSemi, 1)))
  }

  function PrintFunc(f: Func): seq<LToken> {
    if f.hasRet then
      Tok(TkType(KwOfType(f.ret)), f.line) + (Tok(TkIdent(f.name), f.line) + PrintSignature(f.params, f.body, f.line))
    else
      Tok(TkIdent(f.name), f.line) + PrintSignature(f.params, f.body, f.line)
  }

  function PrintEvent(e: Event): seq<LToken> {
    Tok(TkIdent(e.name), e.line) + PrintSignature(e.params, e.body, e.line)
  }

  function PrintEvents(es: seq<Event>, k: nat): seq<LToken>
    requires k <= |es|
    decreases |es| - k
  {
    if k == |es| then [] else PrintEvent(es[k]) + PrintEvents(es, k + 1)
  }

  function PrintState(s: State): seq<LToken> {
    var body := Tok(TkLBrace, s.line) + (PrintEvents(s.events, 0) + Tok(TkRBrace, s.line));
    if s.isDefault then Tok(TkDefault, s.line) + body
    else Tok(TkState, s.line) + (Tok(TkIdent(s.name), s.line) + body)
  }

  function PrintDecl(d: TopDecl): seq<LToken> {
    match d
    case DGlobal(g) => PrintGlobal(g)
    case DFunc(f) => PrintFunc(f)
    case DState(s) => PrintState(s)
  }

  function PrintDecls(ds: seq<TopDecl>, k: nat): seq<LToken>
    requires k <= |ds|
    decreases |ds| - k
  {
    if k == |ds| then [] else PrintDecl(ds[k]) + PrintDecls(ds, k + 1)
  }

  /** Globals first, then functions, then states. */
  function DeclsOf(sc: Script): seq<TopDecl> {
    seq(|sc.globals|, k requires 0 <= k < |sc.globals| => DGlobal(sc.globals[k])) +
    seq(|sc.funcs|, k requires 0 <= k < |sc.funcs| => DFunc(sc.funcs[k])) +
    seq(|sc.states|, k requires 0 <= k < |sc.states| => DState(sc.states[k]))
  }

  function PrintScript(sc: Script): seq<LToken> {
    PrintDecls(DeclsOf(sc), 0)
  }

  // ------------------------------------------------ what is printed is derived

  lemma ConditionDerives(ts: seq<LToken>, i: nat, e: Expr, line: int)
    requires Unwritable(e) == 0 && At(ts, i, PrintCondition(e, line))
    ensures DerivesCondition(ts, i, i + |PrintCondition(e, line)|, e)
  {
    hide PrintExpr, DerivesNode, DerivesParens, Unwritable;
    TokenThen(ts, i, TkLParen, line, PrintExpr(e, 0, line) + Tok(TkRParen, line));
    AtSplit(ts, i + 1, PrintExpr(e, 0, line), Tok(TkRParen, line));
    PrintExprDerives(ts, i + 1, e, 0, line);
    AtElement(ts, i + 1 + |PrintExpr(e, 0, line)|, Tok(TkRParen, line), 0);
  }

  lemma InitDerives(ts: seq<LToken>, i: nat, e: Option<Expr>, line: int)
    requires UnwritableOpt(e) == 0 && At(ts, i, PrintInit(e, line))
    ensures DerivesInit(ts, i, i + |PrintInit(e, line)|, e)
  {
    hide PrintExpr, Derives, Unwritable;
    if e.Some? {
      TokenThen(ts, i, TkOp(OpAssign), line, PrintExpr(e.value, 0, line));
      PrintExprDerives(ts, i + 1, e.value, 0, line);
    }
  }

  lemma OptDerives(ts: seq<LToken>, i: nat, e: Option<Expr>, line: int)
    requires UnwritableOpt(e) == 0 && At(ts, i, PrintOpt(e, line))
    ensures DerivesOpt(ts, i, i + |PrintOpt(e, line)|, e)
  {
    hide PrintExpr, Derives, Unwritable;
    if e.Some? { PrintExprDerives(ts, i, e.value, 0, line); }
  }

  lemma {:induction false} PrintStmtDerives(ts: seq<LToken>, i: nat, s: Stmt)
    requires UnwritableStmt(s) == 0 && At(ts, i, PrintStmt(s))
    ensures DerivesStmt(ts, i, i + |PrintStmt(s)|, s)
    decreases s, 2
  {
    hide PrintExpr, PrintList, PrintInit, PrintOpt, PrintCondition, PrintStmts, Unwritable, UnwritableAll,
         UnwritableOpt, DerivesIf, DerivesWhile, DerivesDo, DerivesFor, DerivesStmts, DerivesInit, DerivesOpt, Derives,
         DerivesPrint;
    match s.kind
    case Empty => AtElement(ts, i, PrintStmt(s), 0);
    case ExprStmt(_) => PrintExprStmtDerives(ts, i, s);
    case Decl(_, _, _) => PrintDeclStmtDerives(ts, i, s);
    case Block(_) => PrintBlockDerives(ts, i, s);
    case If(_, _, _) => PrintIfDerives(ts, i, s);
    case While(_, _) => PrintWhileDerives(ts, i, s);
    case DoWhile(_, _) => PrintDoDerives(ts, i, s);
    case For(_, _, _, _) => PrintForDerives(ts, i, s);
    case Return(_) => PrintReturnDerives(ts, i, s);
    case Jump(target) =>
      TokenThen(ts, i, TkJump, s.line, Tok(TkIdent(target.GetOr("")), s.line) + Tok(TkSemi, s.line));
      TokenThen(ts, i + 1, TkIdent(target.GetOr("")), s.line, Tok(TkSemi, s.line));
      AtElement(ts, i + 2, Tok(TkSemi, s.line), 0);
    case Label(target) =>
      TokenThen(ts, i, TkAt, s.line, Tok(TkIdent(target.GetOr("")), s.line) + Tok(TkSemi, s.line));
      TokenThen(ts, i + 1, TkIdent(target.GetOr("")), s.line, Tok(TkSemi, s.line));
      AtElement(ts, i + 2, Tok(TkSemi, s.line), 0);
    case StateChange(target) =>
      TokenThen(ts, i, TkState, s.line, Tok(StateToken(target.GetOr("")), s.line) + Tok(TkSemi, s.line));
      TokenThen(ts, i + 1, StateToken(target.GetOr("")), s.line, Tok(TkSemi, s.line));
      AtElement(ts, i + 2, Tok(TkSemi, s.line), 0);
  }

  lemma ArgumentWritable(e: Expr)
    requires IsPrintCall(e)
    ensures Unwritable(e.kind.args[0]) <= Unwritable(e)
  {
    assert Unwritable(e.kind.args[0]) <= UnwritableAll(e.kind.args, 0);
  }

  lemma PrintCallStmtDerives(ts: seq<LToken>, i: nat, s: Stmt)
    requires s.kind.ExprStmt? && IsPrintCall(s.kind.e) && UnwritableStmt(s) == 0 && At(ts, i, PrintStmt(s))
    ensures DerivesStmt(ts, i, i + |PrintStmt(s)|, s)
  {
    hide PrintExpr, Derives, PrintCondition, DerivesCondition, At;
    var e, semi := s.kind.e, Tok(TkSemi, s.line);
    var x := e.kind.args[0];
    ArgumentWritable(e);
    hide Unwritable, UnwritableAll, UnwritableStmt;
    TokenThen(ts, i, TkPrint, s.line, PrintCondition(x, s.line) + semi);
    AtSplit(ts, i + 1, PrintCondition(x, s.line), semi);
    ConditionDerives(ts, i + 1, x, s.line);
    AtElement(ts, i + 1 + |PrintCondition(x, s.line)|, semi, 0);
    assert DerivesPrint(ts, i, i + |PrintStmt(s)| - 1, e);
  }

  lemma PrintExprStmtDerives(ts: seq<LToken>, i: nat, s: Stmt)
    requires s.kind.ExprStmt? && UnwritableStmt(s) == 0 && At(ts, i, PrintStmt(s))
    ensures DerivesStmt(ts, i, i + |PrintStmt(s)|, s)
  {
    hide PrintExpr, Derives, At;
    var e, semi := s.kind.e, Tok(TkSemi, s.line);
    if IsPrintCall(e) {
      PrintCallStmtDerives(ts, i, s);
    } else {
      AtSplit(ts, i, PrintExpr(e, 0, s.line), semi);
      PrintExprDerives(ts, i, e, 0, s.line);
      AtElement(ts, i + |PrintExpr(e, 0, s.line)|, semi, 0);
      PrintExprLine(e, 0, s.line);
      AtElement(ts, i, PrintExpr(e, 0, s.line), 0);
    }
  }

  lemma {:induction false} PrintExprLine(e: Expr, k: nat, line: int)
    ensures PrintExpr(e, k, line) != [] && PrintExpr(e, k, line)[0].line == line
    decreases e
  {
    match e.kind
    case Member(base, _) => PrintExprLine(base, 12, line);
    case Postfix(_, inner) => PrintExprLine(inner, 12, line);
    case Binary(op, l, _) => PrintExprLine(l, LeftLevel(op), line);
    case Assign(op, l, _) => PrintExprLine(l, LeftLevel(op), line);
    case _ =>
  }

  lemma PrintDeclStmtDerives(ts: seq<LToken>, i: nat, s: Stmt)
    requires s.kind.Decl? && UnwritableStmt(s) == 0 && At(ts, i, PrintStmt(s))
    ensures DerivesStmt(ts, i, i + |PrintStmt(s)|, s)
  {
    hide PrintInit, DerivesInit, UnwritableOpt;
    var Decl(ty, name, init) := s.kind;
    var semi := Tok(TkSemi, s.line);
    TokenThen(ts, i, TkType(KwOfType(ty)), s.line, Tok(TkIdent(name), s.line) + (PrintInit(init, s.line) + semi));
    TokenThen(ts, i + 1, TkIdent(name), s.line, PrintInit(init, s.line) + semi);
    AtSplit(ts, i + 2, PrintInit(init, s.line), semi);
    InitDerives(ts, i + 2, init, s.line);
    AtElement(ts, i + 2 + |PrintInit(init, s.line)|, semi, 0);
  }

  lemma PrintReturnDerives(ts: seq<LToken>, i: nat, s: Stmt)
    requires s.kind.Return? && UnwritableStmt(s) == 0 && At(ts, i, PrintStmt(s))
    ensures DerivesStmt(ts, i, i + |PrintStmt(s)|, s)
  {
    hide PrintOpt, DerivesOpt, UnwritableOpt;
    var e, semi := s.kind.result, Tok(TkSemi, s.line);
    TokenThen(ts, i, TkReturn, s.line, PrintOpt(e, s.line) + semi);
    AtSplit(ts, i + 1, PrintOpt(e, s.line), semi);
    OptDerives(ts, i + 1, e, s.line);
    AtElement(ts, i + 1 + |PrintOpt(e, s.line)|, semi, 0);
  }

  lemma {:induction false} PrintBlockDerives(ts: seq<LToken>, i: nat, s: Stmt)
    requires s.kind.Block? && UnwritableStmt(s) == 0 && At(ts, i, PrintStmt(s))
    ensures DerivesStmt(ts, i, i + |PrintStmt(s)|, s)
    decreases s, 1
  {
    hide DerivesStmts;
    var stmts := s.kind.stmts;
    TokenThen(ts, i, TkLBrace, s.line, PrintStmts(stmts, 0) + Tok(TkRBrace, s.line));
    AtSplit(ts, i + 1, PrintStmts(stmts, 0), Tok(TkRBrace, s.line));
    PrintStmtsDerives(ts, i + 1, stmts, 0);
    AtElement(ts, i + 1 + |PrintStmts(stmts, 0)|, Tok(TkRBrace, s.line), 0);
    assert stmts[0..] == stmts;
  }

  lemma {:induction false} PrintStmtsDerives(ts: seq<LToken>, i: nat, ss: seq<Stmt>, k: nat)
    requires k <= |ss| && UnwritableStmts(ss, k) == 0 && At(ts, i, PrintStmts(ss, k))
    ensures DerivesStmts(ts, i, i + |PrintStmts(ss, k)|, ss[k..])
    decreases ss, |ss| - k
  {
    hide PrintStmt, UnwritableStmt, DerivesStmtCons, At;
    if k == |ss| {
      assert ss[k..] == [];
    } else {
      AtSplit(ts, i, PrintStmt(ss[k]), PrintStmts(ss, k + 1));
      PrintStmtDerives(ts, i, ss[k]);
      var m := i + |PrintStmt(ss[k])|;
      PrintStmtsDerives(ts, m, ss, k + 1);
      assert ss[k..] == [ss[k]] + ss[k + 1..];
      StmtConsDerives(ts, i, m + |PrintStmts(ss, k + 1)|, m, ss[k], ss[k + 1..]);
    }
  }

  lemma StmtConsDerives(ts: seq<LToken>, i: nat, j: nat, m: nat, s: Stmt, ss: seq<Stmt>)
    requires i <= m <= j <= |ts| && DerivesStmt(ts, i, m, s) && DerivesStmts(ts, m, j, ss)
    ensures DerivesStmts(ts, i, j, [s] + ss)
  {
    StmtFirstToken(ts, i, m, s);
    hide DerivesStmt;
    assert ([s] + ss)[1..] == ss;
    assert DerivesStmtCons(ts, i, j, m, [s] + ss);
  }

  /** A condition, then a statement and the rest. */
  lemma {:induction false} ConditionThen(ts: seq<LToken>, i: nat, e: Expr, line: int, rest: seq<LToken>)
    requires Unwritable(e) == 0 && At(ts, i, PrintCondition(e, line) + rest)
    ensures i + |PrintCondition(e, line)| <= |ts|
    ensures DerivesCondition(ts, i, i + |PrintCondition(e, line)|, e) && At(ts, i + |PrintCondition(e, line)|, rest)
  {
    hide PrintCondition, DerivesCondition, Unwritable;
    AtSplit(ts, i, PrintCondition(e, line), rest);
    ConditionDerives(ts, i, e, line);
  }

  lemma {:induction false} StmtThen(ts: seq<LToken>, i: nat, parent: Stmt, s: Stmt, rest: seq<LToken>)
    requires s < parent && UnwritableStmt(s) == 0 && At(ts, i, PrintStmt(s) + rest)
    ensures i < i + |PrintStmt(s)| <= |ts|
    ensures DerivesStmt(ts, i, i + |PrintStmt(s)|, s) && At(ts, i + |PrintStmt(s)|, rest)
    decreases parent, 0
  {
    hide PrintStmt, DerivesStmt, UnwritableStmt;
    AtSplit(ts, i, PrintStmt(s), rest);
    PrintStmtDerives(ts, i, s);
    StmtFirstToken(ts, i, i + |PrintStmt(s)|, s);
  }

  function ElseTail(els: Option<Stmt>, line: int): seq<LToken> {
    if els.Some? then Tok(TkElse, line) + PrintStmt(els.value) else []
  }

  lemma IfPrinted(s: Stmt)
    requires s.kind.If? && UnwritableStmt(s) == 0
    ensures PrintStmt(s) ==
      Tok(TkIf, s.line) + (PrintCondition(s.kind.cond, s.line) + (PrintStmt(s.kind.thn) + ElseTail(s.kind.els, s.line)))
    ensures Unwritable(s.kind.cond) == 0 && UnwritableStmt(s.kind.thn) == 0
    ensures s.kind.els.Some? ==> UnwritableStmt(s.kind.els.value) == 0 && !Open(s.kind.thn)
  {
    hide PrintCondition, Unwritable;
  }

  lemma IfDerived(ts: seq<LToken>, i: nat, j: nat, m: nat, n: nat, s: Stmt)
    requires s.kind.If? && i < j <= |ts| && ts[i] == LToken(TkIf, s.line)
    requires DerivesIf(ts, i, j, m, n, s.kind.cond, s.kind.thn, s.kind.els)
    ensures DerivesStmt(ts, i, j, s)
  {
    hide DerivesIf;
  }

  lemma {:induction false} PrintIfDerives(ts: seq<LToken>, i: nat, s: Stmt)
    requires s.kind.If? && UnwritableStmt(s) == 0 && At(ts, i, PrintStmt(s))
    ensures DerivesStmt(ts, i, i + |PrintStmt(s)|, s)
    decreases s, 1
  {
    hide PrintCondition, DerivesCondition, Unwritable, At, PrintStmt, DerivesStmt, UnwritableStmt, Open;
    var If(cond, thn, els) := s.kind;
    var tail := ElseTail(els, s.line);
    IfPrinted(s);
    TokenThen(ts, i, TkIf, s.line, PrintCondition(cond, s.line) + (PrintStmt(thn) + tail));
    ConditionThen(ts, i + 1, cond, s.line, PrintStmt(thn) + tail);
    var m := i + 1 + |PrintCondition(cond, s.line)|;
    StmtThen(ts, m, s, thn, tail);
    var n := m + |PrintStmt(thn)|;
    if els.Some? {
      TokenThen(ts, n, TkElse, s.line, PrintStmt(els.value));
      assert PrintStmt(els.value) == PrintStmt(els.value) + [];
      StmtThen(ts, n + 1, s, els.value, []);
    }
    IfDerived(ts, i, i + |PrintStmt(s)|, m, n, s);
  }

  lemma {:induction false} PrintWhileDerives(ts: seq<LToken>, i: nat, s: Stmt)
    requires s.kind.While? && UnwritableStmt(s) == 0 && At(ts, i, PrintStmt(s))
    ensures DerivesStmt(ts, i, i + |PrintStmt(s)|, s)
    decreases s, 1
  {
    hide PrintCondition, DerivesCondition, Unwritable, At;
    var While(cond, body) := s.kind;
    TokenThen(ts, i, TkWhile, s.line, PrintCondition(cond, s.line) + PrintStmt(body));
    ConditionThen(ts, i + 1, cond, s.line, PrintStmt(body));
    var m := i + 1 + |PrintCondition(cond, s.line)|;
    assert PrintStmt(body) == PrintStmt(body) + [];
    StmtThen(ts, m, s, body, []);
    assert DerivesWhile(ts, i, i + |PrintStmt(s)|, m, cond, body);
  }

  lemma {:induction false} PrintDoDerives(ts: seq<LToken>, i: nat, s: Stmt)
    requires s.kind.DoWhile? && UnwritableStmt(s) == 0 && At(ts, i, PrintStmt(s))
    ensures DerivesStmt(ts, i, i + |PrintStmt(s)|, s)
    decreases s, 1
  {
    hide PrintCondition, DerivesCondition, Unwritable, At;
    var DoWhile(body, cond) := s.kind;
    var semi := Tok(TkSemi, s.line);
    var rest := Tok(TkWhile, s.line) + (PrintCondition(cond, s.line) + semi);
    TokenThen(ts, i, TkDo, s.line, PrintStmt(body) + rest);
    StmtThen(ts, i + 1, s, body, rest);
    var m := i + 1 + |PrintStmt(body)|;
    TokenThen(ts, m, TkWhile, s.line, PrintCondition(cond, s.line) + semi);
    ConditionThen(ts, m + 1, cond, s.line, semi);
    assert semi == semi + [];
    TokenThen(ts, m + 1 + |PrintCondition(cond, s.line)|, TkSemi, s.line, []);
    assert DerivesDo(ts, i, i + |PrintStmt(s)|, m, body, cond);
  }

  /** A list of expressions, then a token and the rest. */
  lemma {:induction false} ListThen(ts: seq<LToken>, i: nat, es: seq<Expr>, t: Token, line: int, rest: seq<LToken>)
    requires UnwritableAll(es, 0) == 0 && At(ts, i, PrintList(es, 0, line) + (Tok(t, line) + rest))
    ensures var m := i + |PrintList(es, 0, line)|;
            m < |ts| && DerivesList(ts, i, m, es) && ts[m].tok == t && At(ts, m + 1, rest)
  {
    hide PrintList, DerivesList, UnwritableAll;
    AtSplit(ts, i, PrintList(es, 0, line), Tok(t, line) + rest);
    PrintListDerives(ts, i, es, 0, line);
    TokenThen(ts, i + |PrintList(es, 0, line)|, t, line, rest);
    assert es[0..] == es;
  }

  /** An optional expression, then a semicolon and the rest. */
  lemma {:induction false} OptThen(ts: seq<LToken>, i: nat, e: Option<Expr>, line: int, rest: seq<LToken>)
    requires UnwritableOpt(e) == 0 && At(ts, i, PrintOpt(e, line) + (Tok(TkSemi, line) + rest))
    ensures var m := i + |PrintOpt(e, line)|;
            m < |ts| && DerivesOpt(ts, i, m, e) && ts[m].tok == TkSemi && At(ts, m + 1, rest)
  {
    hide PrintOpt, DerivesOpt, UnwritableOpt;
    AtSplit(ts, i, PrintOpt(e, line), Tok(TkSemi, line) + rest);
    OptDerives(ts, i, e, line);
    TokenThen(ts, i + |PrintOpt(e, line)|, TkSemi, line, rest);
  }

  lemma ForPrinted(s: Stmt)
    requires s.kind.For? && UnwritableStmt(s) == 0
    ensures PrintStmt(s) ==
      Tok(TkFor, s.line) +
      (Tok(TkLParen, s.line) +
       (PrintList(s.kind.inits, 0, s.line) +
        (Tok(TkSemi, s.line) +
         (PrintOpt(s.kind.test, s.line) +
          (Tok(TkSemi, s.line) +
           (PrintList(s.kind.posts, 0, s.line) + (Tok(TkRParen, s.line) + PrintStmt(s.kind.body))))))))
    ensures UnwritableAll(s.kind.inits, 0) == 0 && UnwritableOpt(s.kind.test) == 0
    ensures UnwritableAll(s.kind.posts, 0) == 0 && UnwritableStmt(s.kind.body) == 0
  {
    hide PrintList, PrintOpt, UnwritableAll, UnwritableOpt, PrintCondition;
  }

  lemma ForDerived(ts: seq<LToken>, i: nat, j: nat, a: nat, b: nat, c: nat, s: Stmt)
    requires s.kind.For? && i < j <= |ts| && ts[i] == LToken(TkFor, s.line)
    requires DerivesFor(ts, i, j, a, b, c, s.kind.inits, s.kind.test, s.kind.posts, s.kind.body)
    ensures DerivesStmt(ts, i, j, s)
  {
    hide DerivesFor;
  }

  lemma {:induction false} PrintForDerives(ts: seq<LToken>, i: nat, s: Stmt)
    requires s.kind.For? && UnwritableStmt(s) == 0 && At(ts, i, PrintStmt(s))
    ensures DerivesStmt(ts, i, i + |PrintStmt(s)|, s)
    decreases s, 1
  {
    hide PrintStmt, DerivesStmt, UnwritableStmt, PrintList, DerivesList, PrintOpt, DerivesOpt, UnwritableAll,
         UnwritableOpt, At;
    var For(inits, test, posts, body) := s.kind;
    var semi := Tok(TkSemi, s.line);
    var fourth := PrintStmt(body);
    var third := PrintList(posts, 0, s.line) + (Tok(TkRParen, s.line) + fourth);
    var second := PrintOpt(test, s.line) + (semi + third);
    var first := PrintList(inits, 0, s.line) + (semi + second);
    ForPrinted(s);
    TokenThen(ts, i, TkFor, s.line, Tok(TkLParen, s.line) + first);
    TokenThen(ts, i + 1, TkLParen, s.line, first);
    ListThen(ts, i + 2, inits, TkSemi, s.line, second);
    var a := i + 2 + |PrintList(inits, 0, s.line)|;
    OptThen(ts, a + 1, test, s.line, third);
    var b := a + 1 + |PrintOpt(test, s.line)|;
    ListThen(ts, b + 1, posts, TkRParen, s.line, fourth);
    var c := b + 1 + |PrintList(posts, 0, s.line)|;
    assert fourth == fourth + [];
    StmtThen(ts, c + 1, s, body, []);
    ForDerived(ts, i, i + |PrintStmt(s)|, a, b, c, s);
  }

  /** One parameter, and what the rest of the list has to be. */
  lemma ParamDerives(ts: seq<LToken>, i: nat, j: nat, ps: seq<Param>, k: nat)
    requires k < |ps| && i + 2 <= j <= |ts| && IsKeywordType(ps[k].ty)
    requires ts[i].tok == TkType(KwOfType(ps[k].ty)) && ts[i + 1].tok == TkIdent(ps[k].name)
    requires if k + 1 == |ps| then j == i + 2
             else i + 3 <= j && ts[i + 2].tok == TkComma && DerivesParams(ts, i + 3, j, ps[k + 1..])
    ensures DerivesParams(ts, i, j, ps[k..])
  {
    assert ps[k..][1..] == ps[k + 1..];
  }

  lemma ParamsPrinted(ps: seq<Param>, k: nat, line: int)
    requires k < |ps| && WritableParams(ps)
    ensures IsKeywordType(ps[k].ty)
    ensures PrintParams(ps, k, line) ==
      Tok(TkType(KwOfType(ps[k].ty)), line) + (Tok(TkIdent(ps[k].name), line) + ParamsTail(ps, k, line))
    ensures |PrintParams(ps, k, line)| == 2 + |ParamsTail(ps, k, line)|
  {
    hide KwOfType;
  }

  function ParamsTail(ps: seq<Param>, k: nat, line: int): seq<LToken>
    requires k < |ps|
  {
    if k + 1 == |ps| then [] else Tok(TkComma, line) + PrintParams(ps, k + 1, line)
  }

  lemma {:induction false} PrintParamsDerives(ts: seq<LToken>, i: nat, ps: seq<Param>, k: nat, line: int)
    requires k <= |ps| && WritableParams(ps) && At(ts, i, PrintParams(ps, k, line))
    ensures i + |PrintParams(ps, k, line)| <= |ts|
    ensures DerivesParams(ts, i, i + |PrintParams(ps, k, line)|, ps[k..])
    decreases |ps| - k, 1
  {
    hide At, DerivesParams, WritableParams;
    AtBound(ts, i, PrintParams(ps, k, line));
    if k == |ps| { NoParams(ts, i, ps[k..]); } else { PrintParamDerives(ts, i, ps, k, line); }
  }

  lemma {:induction false} PrintParamDerives(ts: seq<LToken>, i: nat, ps: seq<Param>, k: nat, line: int)
    requires k < |ps| && WritableParams(ps) && At(ts, i, PrintParams(ps, k, line))
    requires i + |PrintParams(ps, k, line)| <= |ts|
    ensures DerivesParams(ts, i, i + |PrintParams(ps, k, line)|, ps[k..])
    decreases |ps| - k, 0
  {
    hide At, DerivesParams, KwOfType, WritableParams, IsKeywordType, PrintParams;
    ParamsPrinted(ps, k, line);
    var tail := ParamsTail(ps, k, line);
    TokenThen(ts, i, TkType(KwOfType(ps[k].ty)), line, Tok(TkIdent(ps[k].name), line) + tail);
    TokenThen(ts, i + 1, TkIdent(ps[k].name), line, tail);
    if k + 1 < |ps| {
      TokenThen(ts, i + 2, TkComma, line, PrintParams(ps, k + 1, line));
      PrintParamsDerives(ts, i + 3, ps, k + 1, line);
    }
    ParamDerives(ts, i, i + |PrintParams(ps, k, line)|, ps, k);
  }

  lemma AtBound(ts: seq<LToken>, i: nat, part: seq<LToken>)
    requires At(ts, i, part)
    ensures i + |part| <= |ts|
  {
  }

  lemma NoParams(ts: seq<LToken>, i: nat, ps: seq<Param>)
    requires i <= |ts| && ps == []
    ensures DerivesParams(ts, i, i, ps)
  {
  }

  lemma PrintSignatureDerives(ts: seq<LToken>, i: nat, ps: seq<Param>, body: Stmt, line: int)
    requires WritableParams(ps) && body.kind.Block? && UnwritableStmt(body) == 0
    requires At(ts, i, PrintSignature(ps, body, line))
    ensures DerivesSignature(ts, i, i + |PrintSignature(ps, body, line)|, ps, body)
  {
    hide PrintParams, DerivesParams, PrintStmt, DerivesStmt, WritableParams, At, UnwritableStmt;
    var rest := Tok(TkRParen, line) + PrintStmt(body);
    TokenThen(ts, i, TkLParen, line, PrintParams(ps, 0, line) + rest);
    AtSplit(ts, i + 1, PrintParams(ps, 0, line), rest);
    PrintParamsDerives(ts, i + 1, ps, 0, line);
    assert ps[0..] == ps;
    var m := i + 1 + |PrintParams(ps, 0, line)|;
    TokenThen(ts, m, TkRParen, line, PrintStmt(body));
    PrintStmtDerives(ts, m + 1, body);
    assert SignatureAt(ts, i, i + |PrintSignature(ps, body, line)|, m, ps, body);
  }

  lemma PrintGlobalDerives(ts: seq<LToken>, i: nat, g: Global)
    requires WritableGlobal(g) && At(ts, i, PrintGlobal(g))
    ensures 0 < |PrintGlobal(g)| && DerivesGlobal(ts, i, i + |PrintGlobal(g)|, g)
  {
    hide PrintInit, DerivesInit, UnwritableOpt;
    TokenThen(ts, i, TkType(KwOfType(g.ty)), 1, Tok(TkIdent(g.name), 1) + (PrintInit(g.init, 1) + Tok(TkSemi, 1)));
    TokenThen(ts, i + 1, TkIdent(g.name), 1, PrintInit(g.init, 1) + Tok(TkSemi, 1));
    AtSplit(ts, i + 2, PrintInit(g.init, 1), Tok(TkSemi, 1));
    InitDerives(ts, i + 2, g.init, 1);
    AtElement(ts, i + 2 + |PrintInit(g.init, 1)|, Tok(TkSemi, 1), 0);
  }

  lemma PrintFuncParts(f: Func, sig: seq<LToken>)
    requires sig == PrintSignature(f.params, f.body, f.line)
    ensures f.hasRet ==>
              PrintFunc(f) == Tok(TkType(KwOfType(f.ret)), f.line) + (Tok(TkIdent(f.name), f.line) + sig) &&
              |PrintFunc(f)| == |sig| + 2
    ensures !f.hasRet ==> PrintFunc(f) == Tok(TkIdent(f.name), f.line) + sig && |PrintFunc(f)| == |sig| + 1
  {
    hide PrintSignature;
  }

  lemma PrintFuncDerives(ts: seq<LToken>, i: nat, f: Func)
    requires WritableFunc(f) && At(ts, i, PrintFunc(f))
    ensures 0 < |PrintFunc(f)| && DerivesFunc(ts, i, i + |PrintFunc(f)|, f)
  {
    hide PrintSignature, DerivesSignature, WritableParams, At, UnwritableStmt, PrintFunc;
    var sig := PrintSignature(f.params, f.body, f.line);
    PrintFuncParts(f, sig);
    if f.hasRet {
      TokenThen(ts, i, TkType(KwOfType(f.ret)), f.line, Tok(TkIdent(f.name), f.line) + sig);
      TokenThen(ts, i + 1, TkIdent(f.name), f.line, sig);
      PrintSignatureDerives(ts, i + 2, f.params, f.body, f.line);
      SignatureLong(ts, i + 2, i + 2 + |sig|, f.params, f.body);
    } else {
      TokenThen(ts, i, TkIdent(f.name), f.line, sig);
      PrintSignatureDerives(ts, i + 1, f.params, f.body, f.line);
    }
  }

  lemma SignatureLong(ts: seq<LToken>, i: nat, j: nat, ps: seq<Param>, body: Stmt)
    requires i <= j <= |ts| && DerivesSignature(ts, i, j, ps, body)
    ensures i < j
  {
    hide DerivesParams, DerivesStmt;
  }

  lemma PrintEventDerives(ts: seq<LToken>, i: nat, e: Event)
    requires WritableEvent(e) && At(ts, i, PrintEvent(e))
    ensures i + |PrintEvent(e)| <= |ts| && DerivesEvent(ts, i, i + |PrintEvent(e)|, e)
  {
    hide PrintSignature, DerivesSignature, WritableParams, At, UnwritableStmt;
    TokenThen(ts, i, TkIdent(e.name), e.line, PrintSignature(e.params, e.body, e.line));
    PrintSignatureDerives(ts, i + 1, e.params, e.body, e.line);
  }

  lemma {:induction false} PrintEventsDerives(ts: seq<LToken>, i: nat, es: seq<Event>, k: nat)
    requires k <= |es| && At(ts, i, PrintEvents(es, k))
    requires forall n :: 0 <= n < |es| ==> WritableEvent(es[n])
    ensures DerivesEvents(ts, i, i + |PrintEvents(es, k)|, es[k..])
    decreases |es| - k
  {
    hide PrintEvent, DerivesSignature, WritableEvent, At;
    if k == |es| {
      assert es[k..] == [];
    } else {
      AtSplit(ts, i, PrintEvent(es[k]), PrintEvents(es, k + 1));
      PrintEventDerives(ts, i, es[k]);
      var m := i + |PrintEvent(es[k])|;
      PrintEventsDerives(ts, m, es, k + 1);
      assert es[k..] == [es[k]] + es[k + 1..];
      assert es[k..][1..] == es[k + 1..];
      assert DerivesEventCons(ts, i, i + |PrintEvents(es, k)|, m, es[k..]);
    }
  }

  lemma PrintBracedEvents(ts: seq<LToken>, p: nat, s: State)
    requires WritableState(s)
    requires At(ts, p, Tok(TkLBrace, s.line) + (PrintEvents(s.events, 0) + Tok(TkRBrace, s.line)))
    ensures var j := p + 1 + |PrintEvents(s.events, 0)|;
      j < |ts| && ts[p].tok == TkLBrace && ts[j].tok == TkRBrace && DerivesEvents(ts, p + 1, j, s.events)
  {
    hide PrintEvents, DerivesEvents, WritableEvent, At;
    TokenThen(ts, p, TkLBrace, s.line, PrintEvents(s.events, 0) + Tok(TkRBrace, s.line));
    AtSplit(ts, p + 1, PrintEvents(s.events, 0), Tok(TkRBrace, s.line));
    PrintEventsDerives(ts, p + 1, s.events, 0);
    AtElement(ts, p + 1 + |PrintEvents(s.events, 0)|, Tok(TkRBrace, s.line), 0);
    assert s.events[0..] == s.events;
  }

  lemma PrintStateParts(s: State, body: seq<LToken>)
    requires body == Tok(TkLBrace, s.line) + (PrintEvents(s.events, 0) + Tok(TkRBrace, s.line))
    ensures |body| == |PrintEvents(s.events, 0)| + 2
    ensures s.isDefault ==> PrintState(s) == Tok(TkDefault, s.line) + body && |PrintState(s)| == |body| + 1
    ensures !s.isDefault ==>
              PrintState(s) == Tok(TkState, s.line) + (Tok(TkIdent(s.name), s.line) + body) &&
              |PrintState(s)| == |body| + 2
  {
    hide PrintEvents;
  }

  lemma PrintStateDerives(ts: seq<LToken>, i: nat, s: State)
    requires WritableState(s) && At(ts, i, PrintState(s))
    ensures 0 < |PrintState(s)| && DerivesState(ts, i, i + |PrintState(s)|, s)
  {
    hide PrintEvents, DerivesEvents, WritableEvent, At, PrintState;
    var body := Tok(TkLBrace, s.line) + (PrintEvents(s.events, 0) + Tok(TkRBrace, s.line));
    PrintStateParts(s, body);
    if s.isDefault {
      TokenThen(ts, i, TkDefault, s.line, body);
      PrintBracedEvents(ts, i + 1, s);
    } else {
      TokenThen(ts, i, TkState, s.line, Tok(TkIdent(s.name), s.line) + body);
      TokenThen(ts, i + 1, TkIdent(s.name), s.line, body);
      PrintBracedEvents(ts, i + 2, s);
    }
  }

  predicate WritableDecl(d: TopDecl) {
    match d
    case DGlobal(g) => WritableGlobal(g)
    case DFunc(f) => WritableFunc(f)
    case DState(s) => WritableState(s)
  }

  lemma PrintDeclDerives(ts: seq<LToken>, i: nat, d: TopDecl)
    requires WritableDecl(d) && At(ts, i, PrintDecl(d))
    ensures i < i + |PrintDecl(d)| <= |ts| && DerivesDecl(ts, i, i + |PrintDecl(d)|, d)
  {
    hide PrintGlobal, PrintFunc, PrintState, WritableGlobal, WritableFunc, WritableState, DerivesGlobal, DerivesFunc,
         DerivesState;
    match d
    case DGlobal(g) => PrintGlobalDerives(ts, i, g);
    case DFunc(f) => PrintFuncDerives(ts, i, f);
    case DState(s) => PrintStateDerives(ts, i, s);
  }

  lemma {:induction false} PrintDeclsDerives(ts: seq<LToken>, i: nat, ds: seq<TopDecl>, k: nat)
    requires k <= |ds| && At(ts, i, PrintDecls(ds, k)) && i + |PrintDecls(ds, k)| == |ts|
    requires forall n :: 0 <= n < |ds| ==> WritableDecl(ds[n])
    ensures DerivesDecls(ts, i, ds[k..])
    decreases |ds| - k
  {
    hide PrintDecl, DerivesDecl, WritableDecl, At;
    if k == |ds| {
      assert ds[k..] == [];
    } else {
      AtSplit(ts, i, PrintDecl(ds[k]), PrintDecls(ds, k + 1));
      PrintDeclDerives(ts, i, ds[k]);
      var m := i + |PrintDecl(ds[k])|;
      PrintDeclsDerives(ts, m, ds, k + 1);
      assert ds[k..] == [ds[k]] + ds[k + 1..];
      assert ds[k..][1..] == ds[k + 1..];
      assert DerivesDeclCons(ts, i, m, ds[k..]);
    }
  }

  // ------------------------------------------- the declarations of a script

  lemma {:induction false} CollectedConcat(sc: Script, a: seq<TopDecl>, b: seq<TopDecl>)
    ensures Collected(sc, a + b) == Collected(Collected(sc, a), b)
    decreases |a|
  {
    hide AddDecl;
    if a == [] {
      assert a + b == b;
    } else {
      assert (a + b)[0] == a[0] && (a + b)[1..] == a[1..] + b;
      CollectedConcat(AddDecl(sc, a[0]), a[1..], b);
    }
  }

  lemma {:induction false} CollectGlobals(sc: Script, gs: seq<Global>, ds: seq<TopDecl>)
    requires |ds| == |gs| && forall k :: 0 <= k < |gs| ==> ds[k] == DGlobal(gs[k])
    ensures Collected(sc, ds) == sc.(globals := sc.globals + gs)
    decreases |ds|
  {
    if gs == [] {
      assert sc.globals + gs == sc.globals;
    } else {
      CollectGlobals(AddDecl(sc, ds[0]), gs[1..], ds[1..]);
      assert sc.globals + [gs[0]] + gs[1..] == sc.globals + gs;
    }
  }

  lemma {:induction false} CollectFuncs(sc: Script, fs: seq<Func>, ds: seq<TopDecl>)
    requires |ds| == |fs| && forall k :: 0 <= k < |fs| ==> ds[k] == DFunc(fs[k])
    ensures Collected(sc, ds) == sc.(funcs := sc.funcs + fs)
    decreases |ds|
  {
    if fs == [] {
      assert sc.funcs + fs == sc.funcs;
    } else {
      CollectFuncs(AddDecl(sc, ds[0]), fs[1..], ds[1..]);
      assert sc.funcs + [fs[0]] + fs[1..] == sc.funcs + fs;
    }
  }

  lemma {:induction false} CollectStates(sc: Script, ss: seq<State>, ds: seq<TopDecl>)
    requires |ds| == |ss| && forall k :: 0 <= k < |ss| ==> ds[k] == DState(ss[k])
    ensures Collected(sc, ds) == sc.(states := sc.states + ss)
    decreases |ds|
  {
    if ss == [] {
      assert sc.states + ss == sc.states;
    } else {
      CollectStates(AddDecl(sc, ds[0]), ss[1..], ds[1..]);
      assert sc.states + [ss[0]] + ss[1..] == sc.states + ss;
    }
  }

  lemma DeclsOfCollected(sc: Script)
    ensures Collected(EMPTY_SCRIPT, DeclsOf(sc)) == sc
  {
    var g := seq(|sc.globals|, k requires 0 <= k < |sc.globals| => DGlobal(sc.globals[k]));
    var f := seq(|sc.funcs|, k requires 0 <= k < |sc.funcs| => DFunc(sc.funcs[k]));
    var s := seq(|sc.states|, k requires 0 <= k < |sc.states| => DState(sc.states[k]));
    CollectedConcat(EMPTY_SCRIPT, g + f, s);
    CollectedConcat(EMPTY_SCRIPT, g, f);
    CollectGlobals(EMPTY_SCRIPT, sc.globals, g);
    CollectFuncs(Script(sc.globals, [], []), sc.funcs, f);
    CollectStates(Script(sc.globals, sc.funcs, []), sc.states, s);
    hide Collected;
    assert [] + sc.globals == sc.globals && [] + sc.funcs == sc.funcs && [] + sc.states == sc.states;
  }

  /** What is printed derives the script it was printed from. */
  lemma PrintScriptDerives(sc: Script)
    requires Writable(sc)
    ensures DerivesScript(PrintScript(sc), sc)
  {
    hide PrintDecl, DerivesDecl, Collected, WritableGlobal, WritableFunc, WritableState;
    var ds, ts := DeclsOf(sc), PrintScript(sc);
    forall n | 0 <= n < |ds|
      ensures WritableDecl(ds[n])
    {
      var g, f := |sc.globals|, |sc.funcs|;
      if n < g { assert ds[n] == DGlobal(sc.globals[n]); }
      else if n < g + f { assert ds[n] == DFunc(sc.funcs[n - g]); }
      else { assert ds[n] == DState(sc.states[n - g - f]); }
    }
    assert At(ts, 0, PrintDecls(ds, 0));
    PrintDeclsDerives(ts, 0, ds, 0);
    assert ds[0..] == ds;
    DeclsOfCollected(sc);
  }
}
