/** Whatever the tokens, and even after errors, the parser's trees meet what the checker
    assumes of its input. */
module ParsedProper {
  import opened Syntax
  import opened ParseSpec
  import opened Typing
  import opened Judgement

  lemma {:induction false} LevelProper(ts: seq<LToken>, i: nat, k: nat)
    requires i <= |ts| && k <= 12
    ensures Proper(ParseLevel(ts, i, k).v)
    decreases |ts| - i, 14 - k
  {
    hide AllProper, ParsePrimary, LevelTail, PostfixTail;
    if k == LEVEL_ASSIGN {
      LevelProper(ts, i, 1);
      var l := ParseLevel(ts, i, 1);
      if AtAssignOp(ts, l.next) { LevelProper(ts, l.next + 1, 0); }
    } else if k < LEVEL_UNARY {
      LevelProper(ts, i, k + 1);
      var l := ParseLevel(ts, i, k + 1);
      TailProper(ts, l.next, k, l.v);
    } else if k == LEVEL_UNARY {
      if AtUnaryOp(ts, i) {
        LevelProper(ts, i + 1, 11);
      } else if AtTok(ts, i, TkLParen) && AtType(ts, i + 1) {
        LevelProper(ts, Expect(ts, i + 2, TkRParen).next, 11);
      } else {
        LevelProper(ts, i, 12);
      }
    } else {
      PrimaryProper(ts, i);
      var p := ParsePrimary(ts, i);
      PostfixTailProper(ts, p.next, p.v);
    }
  }

  lemma {:induction false} TailProper(ts: seq<LToken>, i: nat, k: nat, l: Expr)
    requires i <= |ts| && 1 <= k <= 10 && Proper(l)
    ensures Proper(LevelTail(ts, i, k, l).v)
    decreases |ts| - i, 0
  {
    hide AllProper, ParseLevel;
    if AtBinary(ts, i, k) {
      LevelProper(ts, i + 1, k + 1);
      var r := ParseLevel(ts, i + 1, k + 1);
      TailProper(ts, r.next, k, Fresh(Binary(ts[i].tok.op, l, r.v)));
    }
  }

  lemma {:induction false} PostfixTailProper(ts: seq<LToken>, i: nat, base: Expr)
    requires i <= |ts| && Proper(base)
    ensures Proper(PostfixTail(ts, i, base).v)
    decreases |ts| - i, 0
  {
    hide AllProper, ParseListUntil;
    if AtTok(ts, i, TkLParen) && base.kind.Ident? {
      ListUntilProper(ts, i + 1, TkRParen);
      var args := ParseListUntil(ts, i + 1, TkRParen);
      var close := Expect(ts, args.next, TkRParen);
      PostfixTailProper(ts, close.next, Fresh(Call(base.kind.name, args.v)));
    } else if AtTok(ts, i, TkDot) {
      if AtIdent(ts, i + 1) {
        var id := ts[i + 1].tok.id;
        var bad := |id| != 1 || id[0] == '\0';
        PostfixTailProper(ts, i + 2, Fresh(Member(base, if bad then '\0' else id[0])));
      }
    } else if AtPostfixOp(ts, i) {
      PostfixTailProper(ts, i + 1, Fresh(Postfix(ts[i].tok.op, base)));
    }
  }

  lemma {:induction false} PrimaryProper(ts: seq<LToken>, i: nat)
    requires i <= |ts|
    ensures Proper(ParsePrimary(ts, i).v)
    decreases |ts| - i, 1
  {
    hide AllProper, ParseLevel, ParseListUntil, ParseVector;
    if i < |ts| {
      if ts[i].tok == TkLParen {
        LevelProper(ts, i + 1, 0);
      } else if ts[i].tok == TkOp(OpLt) {
        VectorProper(ts, i);
      } else if ts[i].tok == TkLBrack {
        ListUntilProper(ts, i + 1, TkRBrack);
      }
    }
  }

  lemma VectorIsProper(e: Expr)
    requires e.kind.VectorLit? || e.kind.RotLit?
    requires !e.lv && Proper(e.kind.x) && Proper(e.kind.y) && Proper(e.kind.z) && (e.kind.RotLit? ==> Proper(e.kind.w))
    ensures Proper(e)
  {
  }

  lemma {:induction false} VectorProper(ts: seq<LToken>, i: nat)
    requires AtTok(ts, i, TkOp(OpLt))
    ensures Proper(ParseVector(ts, i).v)
    decreases |ts| - i, 0
  {
    hide Proper, ParseLevel, Expect;
    LevelProper(ts, i + 1, 8);
    var c1 := Expect(ts, ParseLevel(ts, i + 1, 8).next, TkComma);
    LevelProper(ts, c1.next, 8);
    var c2 := Expect(ts, ParseLevel(ts, c1.next, 8).next, TkComma);
    LevelProper(ts, c2.next, 8);
    var z := ParseLevel(ts, c2.next, 8);
    if AtTok(ts, z.next, TkComma) { LevelProper(ts, z.next + 1, 8); }
    VectorIsProper(ParseVector(ts, i).v);
  }

  lemma {:induction false} ListProper(ts: seq<LToken>, i: nat)
    requires i <= |ts|
    ensures AllProper(ParseList(ts, i).v)
    decreases |ts| - i, 15
  {
    hide ParseLevel, Proper;
    LevelProper(ts, i, 0);
    var e := ParseLevel(ts, i, 0);
    if AtTok(ts, e.next, TkComma) { ListProper(ts, e.next + 1); }
  }

  lemma {:induction false} ListUntilProper(ts: seq<LToken>, i: nat, close: Token)
    requires i <= |ts|
    ensures AllProper(ParseListUntil(ts, i, close).v)
    decreases |ts| - i, 16
  {
    hide ParseList, Proper;
    if !AtTok(ts, i, close) { ListProper(ts, i); }
  }

  // ------------------------------------------------------------------ statements

  lemma ConditionProper(ts: seq<LToken>, i: nat)
    requires i <= |ts|
    ensures Proper(ParseCondition(ts, i).v)
  {
    hide ParseLevel, Proper;
    LevelProper(ts, Expect(ts, i, TkLParen).next, 0);
  }

  lemma OptExprProper(ts: seq<LToken>, i: nat, stop: Token)
    requires i <= |ts|
    ensures ProperOption(ParseOptExpr(ts, i, stop).v)
  {
    hide ParseLevel, Proper;
    if !AtTok(ts, i, stop) { LevelProper(ts, i, 0); }
  }

  lemma InitProper(ts: seq<LToken>, i: nat)
    requires i <= |ts|
    ensures ProperOption(ParseInit(ts, i).v)
  {
    hide ParseLevel, Proper;
    if AtTok(ts, i, TkOp(OpAssign)) { LevelProper(ts, i + 1, 0); }
  }

  lemma {:induction false} BlockProper(ts: seq<LToken>, i: nat)
    requires AtTok(ts, i, TkLBrace)
    ensures ProperBody(ParseBlock(ts, i).v)
    decreases |ts| - i, 0
  {
    hide ParseStmts, ProperStmts;
    StmtsProper(ts, i + 1);
  }

  lemma {:induction false} StmtsProper(ts: seq<LToken>, i: nat)
    requires i <= |ts|
    ensures ProperStmts(ParseStmts(ts, i).v)
    decreases |ts| - i, 3
  {
    hide ParseStmt, ProperStmt;
    if !(i == |ts| || AtTok(ts, i, TkRBrace)) {
      StmtProper(ts, i);
      StmtsProper(ts, ParseStmt(ts, i).next);
    }
  }

  lemma ForIsProper(s: Stmt)
    requires s.kind.For? && AllProper(s.kind.inits) && ProperOption(s.kind.test) && AllProper(s.kind.posts)
    requires ProperStmt(s.kind.body)
    ensures ProperStmt(s)
  {
    hide AllProper, ProperOption;
  }

  lemma {:induction false} ForProper(ts: seq<LToken>, i: nat)
    requires AtTok(ts, i, TkFor)
    ensures ProperStmt(ParseFor(ts, i).v)
    decreases |ts| - i, 0
  {
    hide ParseListUntil, ParseOptExpr, ParseStmt, AllProper, ProperOption, ProperStmt, Expect;
    var open := Expect(ts, i + 1, TkLParen);
    ListUntilProper(ts, open.next, TkSemi);
    var semi1 := Expect(ts, ParseListUntil(ts, open.next, TkSemi).next, TkSemi);
    OptExprProper(ts, semi1.next, TkSemi);
    var semi2 := Expect(ts, ParseOptExpr(ts, semi1.next, TkSemi).next, TkSemi);
    ListUntilProper(ts, semi2.next, TkRParen);
    var close := Expect(ts, ParseListUntil(ts, semi2.next, TkRParen).next, TkRParen);
    StmtProper(ts, close.next);
    ForIsProper(ParseFor(ts, i).v);
  }

  lemma {:induction false} IfProper(ts: seq<LToken>, i: nat)
    requires AtTok(ts, i, TkIf)
    ensures ProperStmt(ParseIf(ts, i).v)
    decreases |ts| - i, 0
  {
    hide ParseCondition, ParseStmt, Proper;
    ConditionProper(ts, i + 1);
    var cond := ParseCondition(ts, i + 1);
    StmtProper(ts, cond.next);
    var thn := ParseStmt(ts, cond.next);
    if AtTok(ts, thn.next, TkElse) { StmtProper(ts, thn.next + 1); }
  }

  lemma {:induction false} LoopProper(ts: seq<LToken>, i: nat)
    requires AtTok(ts, i, TkWhile) || AtTok(ts, i, TkDo)
    ensures ts[i].tok == TkWhile ==> ProperStmt(ParseWhile(ts, i).v)
    ensures ts[i].tok == TkDo ==> ProperStmt(ParseDo(ts, i).v)
    decreases |ts| - i, 0
  {
    hide ParseCondition, ParseStmt, Proper;
    if ts[i].tok == TkWhile {
      ConditionProper(ts, i + 1);
      StmtProper(ts, ParseCondition(ts, i + 1).next);
    } else {
      StmtProper(ts, i + 1);
      ConditionProper(ts, Expect(ts, ParseStmt(ts, i + 1).next, TkWhile).next);
    }
  }

  lemma SimpleProper(ts: seq<LToken>, i: nat)
    requires i <= |ts|
    ensures ProperStmt(ParseExprStmt(ts, i).v)
    ensures AtType(ts, i) ==> ProperStmt(ParseDecl(ts, i).v)
    ensures AtTok(ts, i, TkReturn) ==> ProperStmt(ParseReturn(ts, i).v)
  {
    hide ParseLevel, ParseInit, ParseOptExpr, Proper, ProperOption, SkipTo, Expect, ParseName;
    LevelProper(ts, i, 0);
    if AtType(ts, i) && AtIdent(ts, i + 1) { InitProper(ts, i + 2); }
    if AtType(ts, i) { NamedType(ts[i].tok.kw); }
    if AtTok(ts, i, TkReturn) { OptExprProper(ts, i + 1, TkSemi); }
  }

  lemma PrintProper(ts: seq<LToken>, i: nat)
    requires AtTok(ts, i, TkPrint)
    ensures ProperStmt(ParsePrint(ts, i).v)
  {
    hide ParseCondition;
    ConditionProper(ts, i + 1);
    var e := ParseCondition(ts, i + 1).v;
    assert AllProper([e]);
    assert Proper(Fresh(Call("print", [e])));
  }

  lemma NamedType(kw: TypeKw)
    ensures IsValueType(TypeOfKw(kw))
  {
  }

  lemma {:induction false} StmtProper(ts: seq<LToken>, i: nat)
    requires i <= |ts|
    ensures ProperStmt(ParseStmt(ts, i).v)
    decreases |ts| - i, 2
  {
    hide ParseBlock, ParseDecl, ParseIf, ParseWhile, ParseDo, ParseFor, ParseReturn, ParsePrint, ParseExprStmt,
         Proper, AllProper, ProperStmts, ProperOption;
    SimpleProper(ts, i);
    if i < |ts| {
      match ts[i].tok
      case TkLBrace => BlockProper(ts, i);
      case TkIf => IfProper(ts, i);
      case TkWhile => LoopProper(ts, i);
      case TkDo => LoopProper(ts, i);
      case TkFor => ForProper(ts, i);
      case TkPrint => PrintProper(ts, i);
      case _ =>
    }
  }

  // ------------------------------------------------------------------- top level

  lemma {:induction false} ParamsProper(ts: seq<LToken>, i: nat)
    requires i <= |ts|
    ensures ProperParams(ParseParams(ts, i).v)
    decreases |ts| - i
  {
    if AtType(ts, i) && AtIdent(ts, i + 1) {
      NamedType(ts[i].tok.kw);
      if AtTok(ts, i + 2, TkComma) { ParamsProper(ts, i + 3); }
    }
  }

  predicate ProperEvents(es: seq<Event>) {
    forall j :: 0 <= j < |es| ==> ProperParams(es[j].params) && ProperBody(es[j].body)
  }

  lemma {:induction false} EventsProper(ts: seq<LToken>, i: nat)
    requires i <= |ts|
    ensures ProperEvents(ParseEvents(ts, i).v)
    decreases |ts| - i
  {
    hide ProperParams, ProperBody, ParseParams, ParseBlock;
    if !(i == |ts| || AtTok(ts, i, TkRBrace)) {
      var e := ParseEvent(ts, i);
      if e.v.Some? {
        var open := Expect(ts, i + 1, TkLParen);
        if !AtTok(ts, open.next, TkRParen) { ParamsProper(ts, open.next); }
        NoParams();
        var params := ParseParamsUntilParen(ts, open.next);
        BlockProper(ts, Expect(ts, params.next, TkRParen).next);
        EventsProper(ts, e.next);
      }
    }
  }

  lemma NoParams()
    ensures ProperParams([])
  {
  }

  predicate ProperDecl(d: TopDecl) {
    match d
    case DGlobal(g) => IsValueType(g.ty) && ProperOption(g.init)
    case DFunc(f) => (f.ret == TVoid || IsValueType(f.ret)) && ProperParams(f.params) && ProperBody(f.body)
    case DState(s) => ProperEvents(s.events)
  }

  lemma FuncRestProper(ts: seq<LToken>, i: nat, ret: Type, hasRet: bool, name: string, line: int)
    requires i <= |ts| && (ret == TVoid || IsValueType(ret))
    ensures var d := ParseFuncRest(ts, i, ret, hasRet, name, line).v; d.Some? ==> ProperDecl(d.value)
  {
    hide ProperParams, ProperBody, ParseParams, ParseBlock;
    if !AtTok(ts, i, TkRParen) { ParamsProper(ts, i); }
    NoParams();
    var close := Expect(ts, ParseParamsUntilParen(ts, i).next, TkRParen);
    if AtTok(ts, close.next, TkLBrace) { BlockProper(ts, close.next); }
  }

  lemma StateProper(ts: seq<LToken>, i: nat)
    requires AtTok(ts, i, TkDefault) || AtTok(ts, i, TkState)
    ensures var s := ParseState(ts, i).v; s.Some? ==> ProperEvents(s.value.events)
  {
    hide ProperEvents, ParseEvents;
    var isDefault := ts[i].tok == TkDefault;
    if isDefault || AtIdent(ts, i + 1) {
      EventsProper(ts, Expect(ts, if isDefault then i + 1 else i + 2, TkLBrace).next);
    }
  }

  lemma DeclarationProper(ts: seq<LToken>, i: nat)
    requires i < |ts|
    ensures var d := ParseDeclaration(ts, i).v; d.Some? ==> ProperDecl(d.value)
  {
    hide ProperParams, ProperBody, ProperOption, ParseFuncRest, ParseState, ParseInit, ProperEvents;
    match ts[i].tok
    case TkDefault => StateProper(ts, i);
    case TkState => StateProper(ts, i);
    case TkType(kw) =>
      NamedType(kw);
      if AtIdent(ts, i + 1) {
        if AtTok(ts, i + 2, TkLParen) {
          FuncRestProper(ts, i + 3, TypeOfKw(kw), true, ts[i + 1].tok.id, LineAt(ts, i));
        } else {
          InitProper(ts, i + 2);
        }
      }
    case TkIdent(name) =>
      if AtTok(ts, i + 1, TkLParen) { FuncRestProper(ts, i + 2, TVoid, false, name, LineAt(ts, i)); }
    case _ =>
  }

  lemma AddProper(sc: Script, d: TopDecl)
    requires ProperScript(sc) && ProperDecl(d)
    ensures ProperScript(AddDecl(sc, d))
  {
    hide ProperParams, ProperBody, ProperOption;
  }

  lemma {:induction false} TopProper(ts: seq<LToken>, i: nat, sc: Script, errs: nat, maxErrors: int)
    requires i <= |ts| && ProperScript(sc)
    ensures ProperScript(ParseTop(ts, i, sc, errs, maxErrors).v)
    decreases |ts| - i
  {
    hide ProperScript, ProperDecl, ParseDeclaration, AddDecl;
    if i < |ts| && errs < maxErrors {
      DeclarationProper(ts, i);
      var d := ParseDeclaration(ts, i);
      if d.v.Some? { AddProper(sc, d.v.value); }
      TopProper(ts, d.next, if d.v.Some? then AddDecl(sc, d.v.value) else sc, errs + d.errs, maxErrors);
    }
  }

  /** The checker may be given the parser's output whatever the input was. */
  lemma ParsedScriptProper(ts: seq<LToken>, maxErrors: int)
    ensures ProperScript(ParseScript(ts, maxErrors).v)
  {
    hide ParseTop;
    TopProper(ts, 0, EMPTY_SCRIPT, 0, maxErrors);
  }
}
