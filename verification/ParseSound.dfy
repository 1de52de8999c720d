/** Soundness of the parser: if it reports no error, the tokens it consumed derive
    the tree it returns. */
module ParseSound {
  import opened Syntax
  import opened ParseSpec
  import opened Grammar

  // ------------------------------------------------------------ expressions

  /** A derivation at a tight level is one at every looser level. */
  lemma DerivesLooser(ts: seq<LToken>, i: nat, j: nat, k: nat, tight: nat, e: Expr)
    requires i <= j <= |ts| && k <= tight && Derives(ts, i, j, tight, e)
    ensures Derives(ts, i, j, k, e)
  {
    hide DerivesInfix, DerivesCall, DerivesVector, DerivesRot, DerivesList, DerivesParens;
  }

  lemma {:induction false} AssignSound(ts: seq<LToken>, i: nat)
    requires i <= |ts| && ParseLevel(ts, i, 0).errs == 0
    ensures Derives(ts, i, ParseLevel(ts, i, 0).next, 0, ParseLevel(ts, i, 0).v)
    decreases |ts| - i, 14, 0
  {
    hide DerivesCall, DerivesVector, DerivesRot, DerivesList, DerivesParens, LevelTail, PostfixTail, ParsePrimary,
         BinaryLevel;
    LevelSound(ts, i, 1);
    var l := ParseLevel(ts, i, 1);
    if AtAssignOp(ts, l.next) {
      LevelSound(ts, l.next + 1, 0);
      var r := ParseLevel(ts, l.next + 1, 0);
      assert DerivesInfix(ts, i, r.next, l.next, ts[l.next].tok.op, l.v, r.v);
    } else {
      DerivesLooser(ts, i, l.next, 0, 1, l.v);
    }
  }

  lemma {:induction false} PrefixSound(ts: seq<LToken>, i: nat)
    requires i <= |ts| && ParseLevel(ts, i, 11).errs == 0
    ensures Derives(ts, i, ParseLevel(ts, i, 11).next, 11, ParseLevel(ts, i, 11).v)
    decreases |ts| - i, 3, 0
  {
    hide DerivesCall, DerivesVector, DerivesRot, DerivesList, DerivesParens, DerivesInfix, LevelTail, PostfixTail,
         ParsePrimary, BinaryLevel, IsUnaryOp, IsAssignOp, IsPostfixOp;
    if AtUnaryOp(ts, i) {
      LevelSound(ts, i + 1, 11);
    } else if AtTok(ts, i, TkLParen) && AtType(ts, i + 1) {
      LevelSound(ts, i + 3, 11);
    } else {
      LevelSound(ts, i, 12);
      DerivesLooser(ts, i, ParseLevel(ts, i, 12).next, 11, 12, ParseLevel(ts, i, 12).v);
    }
  }

  lemma {:induction false} LevelSound(ts: seq<LToken>, i: nat, k: nat)
    requires i <= |ts| && k <= 12 && ParseLevel(ts, i, k).errs == 0
    ensures Derives(ts, i, ParseLevel(ts, i, k).next, k, ParseLevel(ts, i, k).v)
    decreases |ts| - i, 14 - k, 1
  {
    hide Derives, LevelTail, PostfixTail, ParsePrimary, BinaryLevel, IsUnaryOp, IsAssignOp;
    if k == 0 {
      AssignSound(ts, i);
    } else if k < 11 {
      LevelSound(ts, i, k + 1);
      var l := ParseLevel(ts, i, k + 1);
      DerivesLooser(ts, i, l.next, k, k + 1, l.v);
      LevelTailSound(ts, i, l.next, k, l.v);
    } else if k == 11 {
      PrefixSound(ts, i);
    } else {
      PrimarySound(ts, i);
      var p := ParsePrimary(ts, i);
      PostfixTailSound(ts, i, p.next, p.v);
    }
  }

  lemma {:induction false} LevelTailSound(ts: seq<LToken>, i: nat, j: nat, k: nat, l: Expr)
    requires i <= j <= |ts| && 1 <= k <= 10 && Derives(ts, i, j, k, l) && LevelTail(ts, j, k, l).errs == 0
    ensures Derives(ts, i, LevelTail(ts, j, k, l).next, k, LevelTail(ts, j, k, l).v)
    decreases |ts| - j, 0
  {
    hide DerivesCall, DerivesVector, DerivesRot, DerivesList, DerivesParens, ParseLevel;
    if AtBinary(ts, j, k) {
      var r := ParseLevel(ts, j + 1, k + 1);
      LevelSound(ts, j + 1, k + 1);
      assert DerivesInfix(ts, i, r.next, j, ts[j].tok.op, l, r.v);
      LevelTailSound(ts, i, r.next, k, Fresh(Binary(ts[j].tok.op, l, r.v)));
    }
  }

  lemma {:induction false} PostfixTailSound(ts: seq<LToken>, i: nat, j: nat, base: Expr)
    requires i <= j <= |ts| && Derives(ts, i, j, 12, base) && PostfixTail(ts, j, base).errs == 0
    ensures Derives(ts, i, PostfixTail(ts, j, base).next, 12, PostfixTail(ts, j, base).v)
    decreases |ts| - j, 0
  {
    hide DerivesVector, DerivesRot, DerivesList, DerivesParens, ParseListUntil;
    if AtTok(ts, j, TkLParen) && base.kind.Ident? {
      var args := ParseListUntil(ts, j + 1, TkRParen);
      ListUntilSound(ts, j + 1, TkRParen);
      IdentIsFresh(ts, i, j, 12, base);
      assert DerivesCall(ts, i, args.next + 1, j, base.kind.name, args.v);
      PostfixTailSound(ts, i, args.next + 1, Fresh(Call(base.kind.name, args.v)));
    } else if AtTok(ts, j, TkDot) {
      var id := ts[j + 1].tok.id;
      assert id == [id[0]];
      PostfixTailSound(ts, i, j + 2, Fresh(Member(base, id[0])));
    } else if AtPostfixOp(ts, j) {
      PostfixTailSound(ts, i, j + 1, Fresh(Postfix(ts[j].tok.op, base)));
    }
  }

  lemma {:induction false} IdentIsFresh(ts: seq<LToken>, i: nat, j: nat, k: nat, e: Expr)
    requires i <= j <= |ts| && e.kind.Ident? && Derives(ts, i, j, k, e)
    ensures e == Fresh(Ident(e.kind.name))
    decreases j - i
  {
    if DerivesParens(ts, i, j, e) { IdentIsFresh(ts, i + 1, j - 1, 0, e); }
  }

  lemma {:induction false} PrimarySound(ts: seq<LToken>, i: nat)
    requires i <= |ts| && ParsePrimary(ts, i).errs == 0
    ensures Derives(ts, i, ParsePrimary(ts, i).next, 12, ParsePrimary(ts, i).v)
    decreases |ts| - i, 1
  {
    hide DerivesVector, DerivesRot, DerivesList, DerivesCall, DerivesInfix, ParseLevel, ParseVector, ParseListUntil;
    if AtTok(ts, i, TkLParen) {
      LevelSound(ts, i + 1, 0);
      assert DerivesParens(ts, i, ParsePrimary(ts, i).next, ParsePrimary(ts, i).v);
    } else if AtTok(ts, i, TkOp(OpLt)) {
      VectorSound(ts, i);
    } else if AtTok(ts, i, TkLBrack) {
      ListUntilSound(ts, i + 1, TkRBrack);
    }
  }

  lemma {:induction false} VectorSound(ts: seq<LToken>, i: nat)
    requires AtTok(ts, i, TkOp(OpLt)) && ParseVector(ts, i).errs == 0
    ensures Derives(ts, i, ParseVector(ts, i).next, 12, ParseVector(ts, i).v)
    decreases |ts| - i, 0
  {
    hide Derives, ParseLevel, Expect;
    var x := ParseLevel(ts, i + 1, 8);
    LevelSound(ts, i + 1, 8);
    var y := ParseLevel(ts, x.next + 1, 8);
    LevelSound(ts, x.next + 1, 8);
    var z := ParseLevel(ts, y.next + 1, 8);
    LevelSound(ts, y.next + 1, 8);
    DerivesNonempty(ts, i + 1, x.next, 8, x.v);
    DerivesNonempty(ts, x.next + 1, y.next, 8, y.v);
    DerivesNonempty(ts, y.next + 1, z.next, 8, z.v);
    if AtTok(ts, z.next, TkComma) {
      var w := ParseLevel(ts, z.next + 1, 8);
      LevelSound(ts, z.next + 1, 8);
      DerivesNonempty(ts, z.next + 1, w.next, 8, w.v);
      RotDerived(ts, i, w.next + 1, x.next, y.next, z.next, x.v, y.v, z.v, w.v);
    } else {
      VectorDerived(ts, i, z.next + 1, x.next, y.next, x.v, y.v, z.v);
    }
  }

  lemma DerivesNonempty(ts: seq<LToken>, i: nat, j: nat, k: nat, e: Expr)
    requires i <= j <= |ts| && Derives(ts, i, j, k, e)
    ensures i < j
  {
    hide DerivesNode, DerivesParens;
  }

  lemma VectorDerived(ts: seq<LToken>, i: nat, j: nat, m: nat, n: nat, x: Expr, y: Expr, z: Expr)
    requires i < m < n < j - 1 < |ts| && ts[i].tok == TkOp(OpLt) && ts[m].tok == TkComma && ts[n].tok == TkComma
    requires ts[j - 1].tok == TkOp(OpGt)
    requires Derives(ts, i + 1, m, 8, x) && Derives(ts, m + 1, n, 8, y) && Derives(ts, n + 1, j - 1, 8, z)
    ensures Derives(ts, i, j, 12, Node(TVector, false, VectorLit(x, y, z)))
  {
    hide DerivesParens;
    assert DerivesVector(ts, i, j, m, n, x, y, z);
  }

  lemma RotDerived(ts: seq<LToken>, i: nat, j: nat, m: nat, n: nat, o: nat, x: Expr, y: Expr, z: Expr, w: Expr)
    requires i < m < n < o < j - 1 < |ts| && ts[i].tok == TkOp(OpLt) && ts[m].tok == TkComma && ts[n].tok == TkComma
    requires ts[o].tok == TkComma && ts[j - 1].tok == TkOp(OpGt)
    requires Derives(ts, i + 1, m, 8, x) && Derives(ts, m + 1, n, 8, y) && Derives(ts, n + 1, o, 8, z)
    requires Derives(ts, o + 1, j - 1, 8, w)
    ensures Derives(ts, i, j, 12, Node(TRotation, false, RotLit(x, y, z, w)))
  {
    hide DerivesParens;
    assert DerivesRot(ts, i, j, m, n, o, x, y, z, w);
  }

  lemma {:induction false} ListSound(ts: seq<LToken>, i: nat)
    requires i <= |ts| && ParseList(ts, i).errs == 0
    ensures ParseList(ts, i).v != [] && DerivesList(ts, i, ParseList(ts, i).next, ParseList(ts, i).v)
    decreases |ts| - i, 15
  {
    hide DerivesNode, DerivesParens, ParseLevel;
    LevelSound(ts, i, 0);
    var e := ParseLevel(ts, i, 0);
    if AtTok(ts, e.next, TkComma) {
      ListSound(ts, e.next + 1);
      var es := ParseList(ts, e.next + 1);
      assert ([e.v] + es.v)[1..] == es.v;
      assert DerivesCons(ts, i, es.next, e.next, [e.v] + es.v);
    }
  }

  lemma {:induction false} ListUntilSound(ts: seq<LToken>, i: nat, close: Token)
    requires i <= |ts| && ParseListUntil(ts, i, close).errs == 0
    ensures DerivesList(ts, i, ParseListUntil(ts, i, close).next, ParseListUntil(ts, i, close).v)
    decreases |ts| - i, 16
  {
    hide ParseList, Derives, DerivesCons;
    if !AtTok(ts, i, close) { ListSound(ts, i); }
  }

  // ------------------------------------------------------------- statements

  lemma ConditionSound(ts: seq<LToken>, i: nat)
    requires i <= |ts| && ParseCondition(ts, i).errs == 0
    ensures DerivesCondition(ts, i, ParseCondition(ts, i).next, ParseCondition(ts, i).v)
  {
    hide ParseLevel, DerivesNode, DerivesParens;
    LevelSound(ts, i + 1, 0);
  }

  lemma InitSound(ts: seq<LToken>, i: nat)
    requires i <= |ts| && ParseInit(ts, i).errs == 0
    ensures DerivesInit(ts, i, ParseInit(ts, i).next, ParseInit(ts, i).v)
  {
    hide ParseLevel, DerivesNode, DerivesParens;
    if AtTok(ts, i, TkOp(OpAssign)) { LevelSound(ts, i + 1, 0); }
  }

  lemma OptSound(ts: seq<LToken>, i: nat, stop: Token)
    requires i <= |ts| && ParseOptExpr(ts, i, stop).errs == 0
    ensures DerivesOpt(ts, i, ParseOptExpr(ts, i, stop).next, ParseOptExpr(ts, i, stop).v)
  {
    hide ParseLevel, DerivesNode, DerivesParens;
    if !AtTok(ts, i, stop) { LevelSound(ts, i, 0); }
  }

  /** A parsed statement is derived, and an open one is not followed by `else`. */
  ghost predicate StmtSound(ts: seq<LToken>, i: nat, r: Parsed<Stmt>)
    requires i <= r.next <= |ts|
  {
    DerivesStmt(ts, i, r.next, r.v) && (Open(r.v) ==> !AtTok(ts, r.next, TkElse))
  }

  lemma {:induction false} ParseStmtSound(ts: seq<LToken>, i: nat)
    requires i <= |ts| && ParseStmt(ts, i).errs == 0
    ensures StmtSound(ts, i, ParseStmt(ts, i))
    decreases |ts| - i, 2
  {
    hide ParseBlock, ParseDecl, ParseIf, ParseWhile, ParseDo, ParseFor, ParseReturn, ParseExprStmt, ParsePrint,
         DerivesIf, DerivesWhile, DerivesDo, DerivesFor, DerivesStmts, DerivesInit, DerivesOpt, Derives, DerivesPrint;
    if i == |ts| {
      ExprStmtSound(ts, i);
    } else {
      match ts[i].tok
      case TkLBrace => BlockSound(ts, i);
      case TkType(_) => DeclSound(ts, i);
      case TkIf => IfSound(ts, i);
      case TkWhile => WhileSound(ts, i);
      case TkDo => DoSound(ts, i);
      case TkFor => ForSound(ts, i);
      case TkReturn => ReturnSound(ts, i);
      case TkPrint => PrintSound(ts, i);
      case TkSemi =>
      case TkJump =>
      case TkAt =>
      case TkState =>
      case _ => ExprStmtSound(ts, i);
    }
  }

  lemma ExprStmtSound(ts: seq<LToken>, i: nat)
    requires i <= |ts| && ParseExprStmt(ts, i).errs == 0
    ensures StmtSound(ts, i, ParseExprStmt(ts, i))
  {
    hide ParseLevel, DerivesNode, DerivesParens, DerivesPrint;
    LevelSound(ts, i, 0);
  }

  lemma PrintSound(ts: seq<LToken>, i: nat)
    requires AtTok(ts, i, TkPrint) && ParsePrint(ts, i).errs == 0
    ensures StmtSound(ts, i, ParsePrint(ts, i))
  {
    hide ParseCondition, Derives, DerivesCondition;
    ConditionSound(ts, i + 1);
    var e := ParseCondition(ts, i + 1);
    assert DerivesPrint(ts, i, e.next, Fresh(Call("print", [e.v])));
  }

  lemma DeclSound(ts: seq<LToken>, i: nat)
    requires AtType(ts, i) && ParseDecl(ts, i).errs == 0
    ensures StmtSound(ts, i, ParseDecl(ts, i))
  {
    hide ParseInit, DerivesInit;
    InitSound(ts, i + 2);
  }

  lemma ReturnSound(ts: seq<LToken>, i: nat)
    requires AtTok(ts, i, TkReturn) && ParseReturn(ts, i).errs == 0
    ensures StmtSound(ts, i, ParseReturn(ts, i))
  {
    hide ParseOptExpr, DerivesOpt;
    OptSound(ts, i + 1, TkSemi);
  }

  lemma {:induction false} BlockSound(ts: seq<LToken>, i: nat)
    requires AtTok(ts, i, TkLBrace) && ParseBlock(ts, i).errs == 0
    ensures StmtSound(ts, i, ParseBlock(ts, i))
    decreases |ts| - i, 0
  {
    hide ParseStmts, DerivesStmts;
    StmtsSound(ts, i + 1);
  }

  lemma {:induction false} StmtsSound(ts: seq<LToken>, i: nat)
    requires i <= |ts| && ParseStmts(ts, i).errs == 0
    ensures DerivesStmts(ts, i, ParseStmts(ts, i).next, ParseStmts(ts, i).v)
    decreases |ts| - i, 3
  {
    hide ParseStmt, DerivesStmt;
    if i < |ts| && !AtTok(ts, i, TkRBrace) {
      ParseStmtSound(ts, i);
      var s := ParseStmt(ts, i);
      StmtsSound(ts, s.next);
      var ss := ParseStmts(ts, s.next);
      assert ([s.v] + ss.v)[1..] == ss.v;
      assert DerivesStmtCons(ts, i, ss.next, s.next, [s.v] + ss.v);
    }
  }

  lemma {:induction false} IfSound(ts: seq<LToken>, i: nat)
    requires AtTok(ts, i, TkIf) && ParseIf(ts, i).errs == 0
    ensures StmtSound(ts, i, ParseIf(ts, i))
    decreases |ts| - i, 0
  {
    hide ParseCondition, ParseStmt, Derives;
    ConditionSound(ts, i + 1);
    var cond := ParseCondition(ts, i + 1);
    ParseStmtSound(ts, cond.next);
    var thn := ParseStmt(ts, cond.next);
    assert cond.next < thn.next;
    if AtTok(ts, thn.next, TkElse) {
      ParseStmtSound(ts, thn.next + 1);
      var els := ParseStmt(ts, thn.next + 1);
      assert DerivesIf(ts, i, els.next, cond.next, thn.next, cond.v, thn.v, Some(els.v));
    } else {
      assert DerivesIf(ts, i, thn.next, cond.next, thn.next, cond.v, thn.v, None);
    }
  }

  lemma {:induction false} WhileSound(ts: seq<LToken>, i: nat)
    requires AtTok(ts, i, TkWhile) && ParseWhile(ts, i).errs == 0
    ensures StmtSound(ts, i, ParseWhile(ts, i))
    decreases |ts| - i, 0
  {
    hide ParseCondition, ParseStmt, Derives;
    ConditionSound(ts, i + 1);
    var cond := ParseCondition(ts, i + 1);
    ParseStmtSound(ts, cond.next);
    var body := ParseStmt(ts, cond.next);
    assert DerivesWhile(ts, i, body.next, cond.next, cond.v, body.v);
  }

  lemma {:induction false} DoSound(ts: seq<LToken>, i: nat)
    requires AtTok(ts, i, TkDo) && ParseDo(ts, i).errs == 0
    ensures StmtSound(ts, i, ParseDo(ts, i))
    decreases |ts| - i, 0
  {
    hide ParseCondition, ParseStmt, Derives;
    ParseStmtSound(ts, i + 1);
    var body := ParseStmt(ts, i + 1);
    ConditionSound(ts, body.next + 1);
    var cond := ParseCondition(ts, body.next + 1);
    assert DerivesDo(ts, i, cond.next + 1, body.next, body.v, cond.v);
  }

  lemma {:induction false} ForSound(ts: seq<LToken>, i: nat)
    requires AtTok(ts, i, TkFor) && ParseFor(ts, i).errs == 0
    ensures StmtSound(ts, i, ParseFor(ts, i))
    decreases |ts| - i, 0
  {
    hide ParseListUntil, ParseOptExpr, ParseStmt, Derives, DerivesList, DerivesOpt;
    var inits := ParseListUntil(ts, i + 2, TkSemi);
    ListUntilSound(ts, i + 2, TkSemi);
    var test := ParseOptExpr(ts, inits.next + 1, TkSemi);
    OptSound(ts, inits.next + 1, TkSemi);
    var posts := ParseListUntil(ts, test.next + 1, TkRParen);
    ListUntilSound(ts, test.next + 1, TkRParen);
    ParseStmtSound(ts, posts.next + 1);
    var body := ParseStmt(ts, posts.next + 1);
    assert DerivesFor(ts, i, body.next, inits.next, test.next, posts.next, inits.v, test.v, posts.v, body.v);
  }

  // ----------------------------------------------------------------- scripts

  lemma {:induction false} ParamsSound(ts: seq<LToken>, i: nat)
    requires i <= |ts| && ParseParams(ts, i).errs == 0
    ensures ParseParams(ts, i).v != [] && DerivesParams(ts, i, ParseParams(ts, i).next, ParseParams(ts, i).v)
    decreases |ts| - i
  {
    if AtTok(ts, i + 2, TkComma) {
      ParamsSound(ts, i + 3);
      var ps := ParseParams(ts, i + 3);
      assert ParseParams(ts, i).v[1..] == ps.v;
    }
  }

  /** `( params ) block`, from just after the opening parenthesis. */
  lemma SignatureSound(ts: seq<LToken>, i: nat)
    requires AtTok(ts, i, TkLParen)
    requires var ps := ParseParamsUntilParen(ts, i + 1);
             ps.errs == 0 && AtTok(ts, ps.next, TkRParen) && AtTok(ts, ps.next + 1, TkLBrace) &&
             ParseBlock(ts, ps.next + 1).errs == 0
    ensures var ps := ParseParamsUntilParen(ts, i + 1);
            var body := ParseBlock(ts, ps.next + 1);
            DerivesSignature(ts, i, body.next, ps.v, body.v)
  {
    hide ParseParams, DerivesParams, ParseStmts, DerivesStmts;
    if AtTok(ts, i + 1, TkRParen) {
      assert DerivesParams(ts, i + 1, i + 1, []) by { EmptyParams(ts, i + 1); }
    } else {
      ParamsSound(ts, i + 1);
    }
    var ps := ParseParamsUntilParen(ts, i + 1);
    var body := ParseBlock(ts, ps.next + 1);
    BlockSound(ts, ps.next + 1);
    assert SignatureAt(ts, i, body.next, ps.next, ps.v, body.v);
  }

  lemma EmptyParams(ts: seq<LToken>, i: nat)
    requires i <= |ts|
    ensures DerivesParams(ts, i, i, [])
  {
  }

  lemma EventSound(ts: seq<LToken>, i: nat)
    requires i <= |ts| && ParseEvent(ts, i).errs == 0
    ensures ParseEvent(ts, i).v.Some? && DerivesEvent(ts, i, ParseEvent(ts, i).next, ParseEvent(ts, i).v.value)
  {
    hide ParseParamsUntilParen, ParseBlock, DerivesSignature;
    SignatureSound(ts, i + 1);
  }

  lemma {:induction false} EventsSound(ts: seq<LToken>, i: nat)
    requires i <= |ts| && ParseEvents(ts, i).errs == 0
    ensures DerivesEvents(ts, i, ParseEvents(ts, i).next, ParseEvents(ts, i).v)
    decreases |ts| - i
  {
    hide ParseEvent, DerivesEvent;
    if i < |ts| && !AtTok(ts, i, TkRBrace) {
      EventSound(ts, i);
      var e := ParseEvent(ts, i);
      EventsSound(ts, e.next);
      var es := ParseEvents(ts, e.next);
      assert ParseEvents(ts, i).v == [e.v.value] + es.v;
      assert ([e.v.value] + es.v)[1..] == es.v;
      assert DerivesEventCons(ts, i, es.next, e.next, [e.v.value] + es.v);
    }
  }

  lemma StateSound(ts: seq<LToken>, i: nat)
    requires AtTok(ts, i, TkDefault) || AtTok(ts, i, TkState)
    requires ParseState(ts, i).errs == 0
    ensures ParseState(ts, i).v.Some? && DerivesState(ts, i, ParseState(ts, i).next, ParseState(ts, i).v.value)
  {
    hide ParseEvents, DerivesEvents;
    EventsSound(ts, if ts[i].tok == TkDefault then i + 2 else i + 3);
  }

  lemma DeclarationSound(ts: seq<LToken>, i: nat)
    requires i < |ts| && ParseDeclaration(ts, i).errs == 0
    ensures ParseDeclaration(ts, i).v.Some?
    ensures DerivesDecl(ts, i, ParseDeclaration(ts, i).next, ParseDeclaration(ts, i).v.value)
  {
    hide ParseState, DerivesState, ParseParamsUntilParen, ParseBlock, DerivesSignature, ParseInit, DerivesInit;
    match ts[i].tok
    case TkDefault => StateSound(ts, i);
    case TkState => StateSound(ts, i);
    case TkType(_) => if AtTok(ts, i + 2, TkLParen) { SignatureSound(ts, i + 2); } else { InitSound(ts, i + 2); }
    case TkIdent(_) => SignatureSound(ts, i + 1);
    case _ =>
  }

  lemma {:induction false} TopSound(ts: seq<LToken>, i: nat, sc: Script, maxErrors: int) returns (ds: seq<TopDecl>)
    requires i <= |ts| && 0 < maxErrors && ParseTop(ts, i, sc, 0, maxErrors).errs == 0
    ensures DerivesDecls(ts, i, ds) && ParseTop(ts, i, sc, 0, maxErrors).v == Collected(sc, ds)
    decreases |ts| - i
  {
    hide ParseDeclaration, DerivesDecl, AddDecl;
    if i == |ts| {
      ds := [];
    } else {
      DeclarationSound(ts, i);
      var d := ParseDeclaration(ts, i);
      var rest := TopSound(ts, d.next, AddDecl(sc, d.v.value), maxErrors);
      ds := [d.v.value] + rest;
      assert ds[1..] == rest;
      assert DerivesDeclCons(ts, i, d.next, ds);
    }
  }

  /** If parsing a script reports no error, the whole token sequence is a script of
      the grammar and the tree is its derivation. */
  lemma ScriptSound(ts: seq<LToken>, maxErrors: int)
    requires 0 < maxErrors && ParseScript(ts, maxErrors).errs == 0
    ensures DerivesScript(ts, ParseScript(ts, maxErrors).v)
  {
    hide ParseTop, DerivesDecls, Collected;
    var ds := TopSound(ts, 0, EMPTY_SCRIPT, maxErrors);
  }
}
