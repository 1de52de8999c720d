/** On statements and bodies the checker accepts exactly the well-formed ones. */
module CheckBodies {
  import opened Syntax
  import opened Seqs
  import opened Builtins
  import opened Types
  import opened Typing
  import opened Judgement
  import opened CheckSpec
  import opened CheckExact

  ghost predicate CtxOk(ctx: Ctx) {
    TablesOk(ctx.bi) && (ctx.ret.Some? ==> ctx.ret.value != TError)
  }

  lemma EnvOfOk(ctx: Ctx, scopes: Scopes)
    requires CtxOk(ctx) && ScopesOk(scopes)
    ensures EnvOk(EnvOf(ctx, scopes))
  {
  }

  lemma BindOk(scopes: Scopes, name: string, sym: Sym)
    requires ScopesOk(scopes) && SymOk(sym)
    ensures ScopesOk(Bind(scopes, name, sym))
  {
  }

  lemma PushOk(scopes: Scopes)
    requires ScopesOk(scopes)
    ensures ScopesOk(Push(scopes))
  {
  }

  lemma {:induction false} AfterOk(scopes: Scopes, s: Stmt)
    requires ScopesOk(scopes) && ProperStmt(s)
    ensures ScopesOk(After(scopes, s))
    decreases s
  {
    hide ScopesOk, Bind, Proper, AllProper;
    match s.kind
    case Decl(ty, name, _) => BindOk(scopes, name, LocalSym(ty));
    case If(_, thn, els) =>
      AfterOk(scopes, thn);
      if els.Some? { AfterOk(After(scopes, thn), els.value); }
    case While(_, body) => AfterOk(scopes, body);
    case DoWhile(body, _) => AfterOk(scopes, body);
    case For(_, _, _, body) => AfterOk(scopes, body);
    case _ =>
  }

  // ---------------------------------------------------------------- expressions

  lemma InitSound(env: Env, ty: Type, e: Expr)
    requires EnvOk(env) && Proper(e) && ty != TError
    requires CheckInit(env, ty, e).errs == 0
    ensures WellInit(env, ty, CheckInit(env, ty, e).v)
  {
    hide CheckExpr, Typed, EnvOk, Proper, Converts, ImplicitAssignable;
    CheckSound(env, e);
    ConvertsExact(CheckExpr(env, e).v.ty, ty);
  }

  lemma InitComplete(env: Env, ty: Type, e: Expr, a: Expr)
    requires EnvOk(env) && Proper(e) && ty != TError
    requires WellInit(env, ty, a) && Strip(e) == Strip(a)
    ensures CheckInit(env, ty, e) == Checked(a, 0)
  {
    hide CheckExpr, Typed, EnvOk, Proper, Converts, ImplicitAssignable, Strip;
    CheckComplete(env, e, a);
    ConvertsExact(a.ty, ty);
  }

  lemma ReturnSound(ctx: Ctx, scopes: Scopes, result: Option<Expr>)
    requires CtxOk(ctx) && ScopesOk(scopes) && ProperOption(result)
    requires CheckReturn(ctx, scopes, result).errs == 0
    ensures WellReturn(ctx, scopes, CheckReturn(ctx, scopes, result).v)
  {
    hide ScopesOk, EnvOk, CheckInit, WellInit, CheckExpr, Proper, TablesOk;
    EnvOfOk(ctx, scopes);
    if ctx.ret.Some? && ctx.ret.value != TVoid && result.Some? {
      InitSound(EnvOf(ctx, scopes), ctx.ret.value, result.value);
    }
  }

  lemma ReturnComplete(ctx: Ctx, scopes: Scopes, result: Option<Expr>, a: Option<Expr>)
    requires CtxOk(ctx) && ScopesOk(scopes) && ProperOption(result)
    requires WellReturn(ctx, scopes, a) && StripOption(result) == StripOption(a)
    ensures CheckReturn(ctx, scopes, result) == Checked(a, 0)
  {
    hide ScopesOk, EnvOk, CheckInit, WellInit, CheckExpr, Proper, TablesOk, Strip;
    EnvOfOk(ctx, scopes);
    if a.Some? {
      InitComplete(EnvOf(ctx, scopes), ctx.ret.value, result.value, a.value);
    }
  }

  // ------------------------------------------------------------------ soundness

  lemma DeclSound(ctx: Ctx, scopes: Scopes, s: Stmt)
    requires CtxOk(ctx) && ScopesOk(scopes) && ProperStmt(s) && s.kind.Decl?
    requires CheckStmt(ctx, scopes, s).errs == 0
    ensures WellStmt(ctx, scopes, CheckStmt(ctx, scopes, s).v)
    ensures CheckStmt(ctx, scopes, s).scopes == After(scopes, s)
  {
    hide ScopesOk, EnvOk, CheckInit, WellInit, Proper, Bind, CtxOk;
    var scopes' := Bind(scopes, s.kind.name, LocalSym(s.kind.ty));
    BindOk(scopes, s.kind.name, LocalSym(s.kind.ty));
    EnvOfOk(ctx, scopes');
    if s.kind.init.Some? {
      InitSound(EnvOf(ctx, scopes'), s.kind.ty, s.kind.init.value);
    }
  }

  lemma {:induction false} ForSound(ctx: Ctx, scopes: Scopes, s: Stmt)
    requires CtxOk(ctx) && ScopesOk(scopes) && ProperStmt(s) && s.kind.For?
    requires CheckStmt(ctx, scopes, s).errs == 0
    ensures WellStmt(ctx, scopes, CheckStmt(ctx, scopes, s).v)
    ensures CheckStmt(ctx, scopes, s).scopes == After(scopes, s)
    decreases s, 0
  {
    hide ScopesOk, EnvOk, CtxOk, CheckAll, CheckExpr, AllTyped, Typed, AllProper, Proper, TypesOf;
    var env := EnvOf(ctx, scopes);
    EnvOfOk(ctx, scopes);
    AllSound(env, s.kind.inits);
    if s.kind.test.Some? { CheckSound(env, s.kind.test.value); }
    AllSound(env, s.kind.posts);
    StmtSound(ctx, scopes, s.kind.body);
  }

  lemma {:induction false} IfSound(ctx: Ctx, scopes: Scopes, s: Stmt)
    requires CtxOk(ctx) && ScopesOk(scopes) && ProperStmt(s) && s.kind.If?
    requires CheckStmt(ctx, scopes, s).errs == 0
    ensures WellStmt(ctx, scopes, CheckStmt(ctx, scopes, s).v)
    ensures CheckStmt(ctx, scopes, s).scopes == After(scopes, s)
    decreases s, 0
  {
    hide ScopesOk, EnvOk, CtxOk, CheckExpr, Typed, Proper;
    EnvOfOk(ctx, scopes);
    CheckSound(EnvOf(ctx, scopes), s.kind.cond);
    StmtSound(ctx, scopes, s.kind.thn);
    if s.kind.els.Some? {
      AfterOk(scopes, s.kind.thn);
      StmtSound(ctx, After(scopes, s.kind.thn), s.kind.els.value);
    }
  }

  lemma {:induction false} StmtSound(ctx: Ctx, scopes: Scopes, s: Stmt)
    requires CtxOk(ctx) && ScopesOk(scopes) && ProperStmt(s)
    requires CheckStmt(ctx, scopes, s).errs == 0
    ensures WellStmt(ctx, scopes, CheckStmt(ctx, scopes, s).v)
    ensures CheckStmt(ctx, scopes, s).scopes == After(scopes, s)
    ensures After(scopes, CheckStmt(ctx, scopes, s).v) == After(scopes, s)
    decreases s, 1
  {
    hide ScopesOk, EnvOk, CtxOk, CheckExpr, Typed, Proper, AllProper, CheckAll, AllTyped, CheckReturn, WellReturn,
         CheckInit, WellInit, Bind, Push;
    AfterAnnotated(ctx, scopes, s);
    EnvOfOk(ctx, scopes);
    match s.kind
    case Empty =>
    case ExprStmt(e) => CheckSound(EnvOf(ctx, scopes), e);
    case Decl(_, _, _) => DeclSound(ctx, scopes, s);
    case Block(stmts) =>
      PushOk(scopes);
      StmtsSound(ctx, Push(scopes), stmts);
    case If(_, _, _) => IfSound(ctx, scopes, s);
    case While(cond, body) =>
      CheckSound(EnvOf(ctx, scopes), cond);
      StmtSound(ctx, scopes, body);
    case DoWhile(body, cond) =>
      StmtSound(ctx, scopes, body);
      AfterOk(scopes, body);
      EnvOfOk(ctx, After(scopes, body));
      CheckSound(EnvOf(ctx, After(scopes, body)), cond);
    case For(_, _, _, _) => ForSound(ctx, scopes, s);
    case Return(result) => ReturnSound(ctx, scopes, result);
    case Jump(_) =>
    case Label(_) =>
    case StateChange(_) =>
  }

  lemma {:induction false} StmtsSound(ctx: Ctx, scopes: Scopes, ss: seq<Stmt>)
    requires CtxOk(ctx) && ScopesOk(scopes) && ProperStmts(ss)
    requires CheckStmts(ctx, scopes, ss).errs == 0
    ensures WellStmts(ctx, scopes, CheckStmts(ctx, scopes, ss).v)
    decreases ss, 0
  {
    hide ScopesOk, CtxOk, CheckStmt, WellStmt, After, ProperStmt;
    if ss != [] {
      StmtSound(ctx, scopes, ss[0]);
      AfterOk(scopes, ss[0]);
      StmtsSound(ctx, After(scopes, ss[0]), ss[1..]);
    }
  }

  /** Annotating a statement does not change what it declares. */
  lemma {:induction false} AfterAnnotated(ctx: Ctx, scopes: Scopes, s: Stmt)
    ensures forall outer: Scopes :: After(outer, CheckStmt(ctx, scopes, s).v) == After(outer, s)
    decreases s
  {
    hide CheckExpr, CheckAll, CheckReturn, CheckInit, Bind, CheckBlock, Declare;
    match s.kind
    case If(_, thn, els) =>
      AfterAnnotated(ctx, scopes, thn);
      if els.Some? { AfterAnnotated(ctx, CheckStmt(ctx, scopes, thn).scopes, els.value); }
    case While(_, body) => AfterAnnotated(ctx, scopes, body);
    case DoWhile(body, _) => AfterAnnotated(ctx, scopes, body);
    case For(_, _, _, body) => AfterAnnotated(ctx, scopes, body);
    case _ =>
  }

  // --------------------------------------------------------------- completeness

  lemma DeclComplete(ctx: Ctx, scopes: Scopes, s: Stmt, a: Stmt)
    requires CtxOk(ctx) && ScopesOk(scopes) && ProperStmt(s) && s.kind.Decl?
    requires WellStmt(ctx, scopes, a) && StripStmt(s) == StripStmt(a)
    ensures CheckStmt(ctx, scopes, s) == Walked(a, After(scopes, s), 0)
  {
    hide ScopesOk, EnvOk, CheckInit, WellInit, Proper, Bind, CtxOk, Strip;
    var scopes' := Bind(scopes, s.kind.name, LocalSym(s.kind.ty));
    BindOk(scopes, s.kind.name, LocalSym(s.kind.ty));
    EnvOfOk(ctx, scopes');
    if s.kind.init.Some? {
      InitComplete(EnvOf(ctx, scopes'), s.kind.ty, s.kind.init.value, a.kind.init.value);
    }
  }

  lemma {:induction false} ForComplete(ctx: Ctx, scopes: Scopes, s: Stmt, a: Stmt)
    requires CtxOk(ctx) && ScopesOk(scopes) && ProperStmt(s) && s.kind.For?
    requires WellStmt(ctx, scopes, a) && StripStmt(s) == StripStmt(a)
    ensures CheckStmt(ctx, scopes, s) == Walked(a, After(scopes, s), 0)
    decreases s, 0
  {
    hide ScopesOk, EnvOk, CtxOk, CheckAll, CheckExpr, AllTyped, Typed, AllProper, Proper, TypesOf, Strip, StripAll;
    var env := EnvOf(ctx, scopes);
    EnvOfOk(ctx, scopes);
    AllComplete(env, s.kind.inits, a.kind.inits);
    if s.kind.test.Some? { CheckComplete(env, s.kind.test.value, a.kind.test.value); }
    AllComplete(env, s.kind.posts, a.kind.posts);
    StmtComplete(ctx, scopes, s.kind.body, a.kind.body);
  }

  lemma {:induction false} IfComplete(ctx: Ctx, scopes: Scopes, s: Stmt, a: Stmt)
    requires CtxOk(ctx) && ScopesOk(scopes) && ProperStmt(s) && s.kind.If?
    requires WellStmt(ctx, scopes, a) && StripStmt(s) == StripStmt(a)
    ensures CheckStmt(ctx, scopes, s) == Walked(a, After(scopes, s), 0)
    decreases s, 0
  {
    hide ScopesOk, EnvOk, CtxOk, CheckExpr, Typed, Proper, Strip;
    EnvOfOk(ctx, scopes);
    CheckComplete(EnvOf(ctx, scopes), s.kind.cond, a.kind.cond);
    StmtComplete(ctx, scopes, s.kind.thn, a.kind.thn);
    if s.kind.els.Some? {
      AfterOk(scopes, s.kind.thn);
      AfterStripped(scopes, s.kind.thn, a.kind.thn);
      StmtComplete(ctx, After(scopes, s.kind.thn), s.kind.els.value, a.kind.els.value);
    }
  }

  lemma {:induction false} StmtComplete(ctx: Ctx, scopes: Scopes, s: Stmt, a: Stmt)
    requires CtxOk(ctx) && ScopesOk(scopes) && ProperStmt(s)
    requires WellStmt(ctx, scopes, a) && StripStmt(s) == StripStmt(a)
    ensures CheckStmt(ctx, scopes, s) == Walked(a, After(scopes, s), 0)
    decreases s, 1
  {
    hide ScopesOk, EnvOk, CtxOk, CheckExpr, Typed, Proper, AllProper, CheckAll, AllTyped, CheckReturn, WellReturn,
         CheckInit, WellInit, Bind, Push, Strip, StripAll, StripOption;
    EnvOfOk(ctx, scopes);
    match s.kind
    case Empty =>
    case ExprStmt(e) => CheckComplete(EnvOf(ctx, scopes), e, a.kind.e);
    case Decl(_, _, _) => DeclComplete(ctx, scopes, s, a);
    case Block(stmts) =>
      PushOk(scopes);
      StmtsComplete(ctx, Push(scopes), stmts, a.kind.stmts);
    case If(_, _, _) => IfComplete(ctx, scopes, s, a);
    case While(cond, body) =>
      CheckComplete(EnvOf(ctx, scopes), cond, a.kind.cond);
      StmtComplete(ctx, scopes, body, a.kind.body);
    case DoWhile(body, cond) =>
      StmtComplete(ctx, scopes, body, a.kind.body);
      AfterOk(scopes, body);
      AfterStripped(scopes, body, a.kind.body);
      EnvOfOk(ctx, After(scopes, body));
      CheckComplete(EnvOf(ctx, After(scopes, body)), cond, a.kind.cond);
    case For(_, _, _, _) => ForComplete(ctx, scopes, s, a);
    case Return(result) => ReturnComplete(ctx, scopes, result, a.kind.result);
    case Jump(_) =>
    case Label(_) =>
    case StateChange(_) =>
  }

  lemma {:induction false} StmtsComplete(ctx: Ctx, scopes: Scopes, ss: seq<Stmt>, anns: seq<Stmt>)
    requires CtxOk(ctx) && ScopesOk(scopes) && ProperStmts(ss)
    requires WellStmts(ctx, scopes, anns) && StripStmts(ss) == StripStmts(anns)
    ensures CheckStmts(ctx, scopes, ss).v == anns
    ensures CheckStmts(ctx, scopes, ss).errs == 0
    decreases ss, 0
  {
    hide ScopesOk, CtxOk, CheckStmt, WellStmt, After, ProperStmt, StripStmt;
    assert |ss| == |StripStmts(ss)| == |anns|;
    if ss != [] {
      assert StripStmt(ss[0]) == StripStmts(ss)[0] == StripStmt(anns[0]);
      assert StripStmts(ss[1..]) == StripStmts(ss)[1..] == StripStmts(anns[1..]);
      StmtComplete(ctx, scopes, ss[0], anns[0]);
      AfterOk(scopes, ss[0]);
      AfterStripped(scopes, ss[0], anns[0]);
      StmtsComplete(ctx, After(scopes, ss[0]), ss[1..], anns[1..]);
      assert anns == [anns[0]] + anns[1..];
    }
  }

  lemma {:induction false} AfterStripped(scopes: Scopes, s: Stmt, a: Stmt)
    requires StripStmt(s) == StripStmt(a)
    ensures After(scopes, s) == After(scopes, a)
    decreases s
  {
    hide Strip, StripAll, StripOption, StripStmts, Bind;
    match s.kind
    case If(_, thn, els) =>
      AfterStripped(scopes, thn, a.kind.thn);
      if els.Some? { AfterStripped(After(scopes, thn), els.value, a.kind.els.value); }
    case While(_, body) => AfterStripped(scopes, body, a.kind.body);
    case DoWhile(body, _) => AfterStripped(scopes, body, a.kind.body);
    case For(_, _, _, body) => AfterStripped(scopes, body, a.kind.body);
    case _ =>
  }

  // -------------------------------------------------------------- same tree out

  lemma ReturnStripped(ctx: Ctx, scopes: Scopes, result: Option<Expr>)
    ensures StripOption(CheckReturn(ctx, scopes, result).v) == StripOption(result)
  {
    hide CheckExpr, Strip, ImplicitAssignable;
    if result.Some? { CheckStripped(EnvOf(ctx, scopes), result.value); }
  }

  /** Under the annotations it is still the same statement. */
  lemma {:induction false} StmtStripped(ctx: Ctx, scopes: Scopes, s: Stmt)
    ensures StripStmt(CheckStmt(ctx, scopes, s).v) == StripStmt(s)
    decreases s, 1
  {
    hide CheckExpr, CheckAll, CheckReturn, Bind, Declare, Strip, StripAll, ImplicitAssignable, Testable;
    var env := EnvOf(ctx, scopes);
    match s.kind
    case ExprStmt(e) => CheckStripped(env, e);
    case Decl(ty, name, init) =>
      if init.Some? { CheckStripped(EnvOf(ctx, Declare(scopes, name, LocalSym(ty))), init.value); }
    case Block(stmts) => StmtsStripped(ctx, Push(scopes), stmts);
    case If(cond, thn, els) =>
      CheckStripped(env, cond);
      StmtStripped(ctx, scopes, thn);
      if els.Some? { StmtStripped(ctx, CheckStmt(ctx, scopes, thn).scopes, els.value); }
    case While(cond, body) =>
      CheckStripped(env, cond);
      StmtStripped(ctx, scopes, body);
    case DoWhile(body, cond) =>
      StmtStripped(ctx, scopes, body);
      CheckStripped(EnvOf(ctx, CheckStmt(ctx, scopes, body).scopes), cond);
    case For(inits, test, posts, body) =>
      AllStripped(env, inits);
      if test.Some? { CheckStripped(env, test.value); }
      AllStripped(env, posts);
      StmtStripped(ctx, scopes, body);
    case Return(result) => ReturnStripped(ctx, scopes, result);
    case _ =>
  }

  lemma {:induction false} StmtsStripped(ctx: Ctx, scopes: Scopes, ss: seq<Stmt>)
    ensures StripStmts(CheckStmts(ctx, scopes, ss).v) == StripStmts(ss)
    decreases ss, 0
  {
    hide CheckStmt, StripStmt;
    if ss != [] {
      StmtStripped(ctx, scopes, ss[0]);
      StmtsStripped(ctx, CheckStmt(ctx, scopes, ss[0]).scopes, ss[1..]);
    }
  }

  // ------------------------------------------------------------ jumps and labels

  lemma {:induction false} LabelsStripped(s: Stmt)
    ensures Labels(StripStmt(s)) == Labels(s)
    ensures Jumps(StripStmt(s)) == Jumps(s)
    decreases s, 1
  {
    hide Strip, StripAll, StripOption;
    match s.kind
    case Block(stmts) => LabelsOfStripped(stmts);
    case If(_, thn, els) =>
      LabelsStripped(thn);
      if els.Some? { LabelsStripped(els.value); }
    case While(_, body) => LabelsStripped(body);
    case DoWhile(body, _) => LabelsStripped(body);
    case For(_, _, _, body) => LabelsStripped(body);
    case _ =>
  }

  lemma {:induction false} LabelsOfStripped(ss: seq<Stmt>)
    ensures LabelsOf(StripStmts(ss)) == LabelsOf(ss)
    ensures JumpsOf(StripStmts(ss)) == JumpsOf(ss)
    decreases ss, 0
  {
    hide StripStmt, Labels, Jumps;
    if ss != [] {
      LabelsStripped(ss[0]);
      LabelsOfStripped(ss[1..]);
      assert StripStmts(ss)[1..] == StripStmts(ss[1..]);
    }
  }

  lemma {:induction false} OccurrencesExact(names: seq<string>, name: string)
    ensures Occurrences(names, name) == 0 <==> name !in names
  {
    if names != [] {
      OccurrencesExact(names[1..], name);
      assert name in names <==> name == names[0] || name in names[1..];
    }
  }

  /** No duplicate pair is reported exactly when no name occurs twice. */
  lemma {:induction false} DuplicatesExact(names: seq<string>)
    ensures DuplicatePairs(names) == 0 <==> NoDup(names)
  {
    if names != [] {
      var rest := names[1..];
      OccurrencesExact(rest, names[0]);
      DuplicatesExact(rest);
      if NoDup(names) {
        assert forall i, j :: 0 <= i < j < |rest| ==> rest[i] == names[i + 1] && rest[j] == names[j + 1];
        assert names[0] !in rest;
      } else {
        var i, j :| 0 <= i < j < |names| && names[i] == names[j];
        assert names[j] == rest[j - 1];
        if i > 0 { assert names[i] == rest[i - 1]; }
      }
    }
  }

  lemma {:induction false} MissingExact(jumps: seq<string>, labels: seq<string>)
    ensures Missing(jumps, labels) == 0 <==> forall j :: j in jumps ==> j in labels
  {
    if jumps != [] {
      MissingExact(jumps[1..], labels);
      assert forall j :: j in jumps <==> j == jumps[0] || j in jumps[1..];
    }
  }

  // --------------------------------------------------------------------- bodies

  lemma BodySound(ctx: Ctx, scopes: Scopes, ss: seq<Stmt>)
    requires CtxOk(ctx) && ScopesOk(scopes) && ProperStmts(ss)
    requires CheckBody(ctx, scopes, ss).errs == 0
    ensures WellBody(ctx, scopes, CheckBody(ctx, scopes, ss).v)
  {
    hide CtxOk, ScopesOk, ProperStmts, CheckStmts, WellStmts, LabelsOf, JumpsOf, StripStmts, DuplicatePairs, Missing,
         Push;
    PushOk(scopes);
    StmtsSound(ctx, Push(scopes), ss);
    StmtsStripped(ctx, Push(scopes), ss);
    LabelsOfStripped(ss);
    LabelsOfStripped(CheckStmts(ctx, Push(scopes), ss).v);
    DuplicatesExact(LabelsOf(ss));
    MissingExact(JumpsOf(ss), LabelsOf(ss));
  }

  lemma BodyComplete(ctx: Ctx, scopes: Scopes, ss: seq<Stmt>, anns: seq<Stmt>)
    requires CtxOk(ctx) && ScopesOk(scopes) && ProperStmts(ss)
    requires WellBody(ctx, scopes, anns) && StripStmts(ss) == StripStmts(anns)
    ensures CheckBody(ctx, scopes, ss) == Checked(anns, 0)
  {
    hide CtxOk, ScopesOk, ProperStmts, CheckStmts, WellStmts, LabelsOf, JumpsOf, StripStmts, DuplicatePairs, Missing,
         Push;
    PushOk(scopes);
    StmtsComplete(ctx, Push(scopes), ss, anns);
    LabelsOfStripped(ss);
    LabelsOfStripped(anns);
    DuplicatesExact(LabelsOf(ss));
    MissingExact(JumpsOf(ss), LabelsOf(ss));
  }
}
