/** Functions with more than sixteen parameters.  A symbol has room for the types of sixteen,
    so in a call of such a function the checker judges the arguments from the 17th on by
    whatever memory holds.  When that makes no difference, exactly. */
module LongCalls {
  import opened Syntax
  import opened Seqs
  import opened Builtins
  import opened Typing
  import opened Fold
  import opened Judgement
  import opened CheckSpec
  import opened CheckProgram
  import opened ConstantsExact
  import Constants

  /** The rules of the language: parameters have the types they are declared with. */
  function Language(bi: Tables): Tables {
    bi.(beyond := AsDeclared)
  }

  /** The program, with this in the memory behind the stored types. */
  function Memory(bi: Tables, cell: (string, nat) -> Option<Type>): Tables {
    bi.(beyond := FromMemory(cell))
  }

  /** A memory that no argument passes, but one of type `any`, and one that all pass. */
  const HOSTILE: Beyond := FromMemory((fn: string, i: nat) => None)
  const KIND: Beyond := FromMemory((fn: string, i: nat) => Some(TAny))

  // ----------------------------------------------- calls that memory has no say in

  /** Where the arguments of a call of a user's function are judged by memory, all are of
      type `any`, which passes everywhere. */
  predicate CallCovered(top: Scope, fn: string, args: seq<Expr>) {
    fn in top && top[fn].kind == SymFunc && |top[fn].params| == |args| ==>
      forall i :: STORED_MAX <= i < |args| ==> args[i].ty.TAny?
  }

  predicate Covered(top: Scope, e: Expr)
    decreases e
  {
    match e.kind
    case VectorLit(x, y, z) => Covered(top, x) && Covered(top, y) && Covered(top, z)
    case RotLit(x, y, z, w) => Covered(top, x) && Covered(top, y) && Covered(top, z) && Covered(top, w)
    case ListLit(items) => AllCovered(top, items)
    case Call(fn, args) => AllCovered(top, args) && CallCovered(top, fn, args)
    case Member(base, _) => Covered(top, base)
    case Cast(_, x) => Covered(top, x)
    case Unary(_, x) => Covered(top, x)
    case Postfix(_, x) => Covered(top, x)
    case Binary(_, l, r) => Covered(top, l) && Covered(top, r)
    case Assign(_, l, r) => Covered(top, l) && Covered(top, r)
    case _ => true
  }

  predicate AllCovered(top: Scope, es: seq<Expr>)
    decreases es
  {
    forall i :: 0 <= i < |es| ==> Covered(top, es[i])
  }

  predicate OptionCovered(top: Scope, e: Option<Expr>) {
    e.Some? ==> Covered(top, e.value)
  }

  predicate StmtCovered(top: Scope, s: Stmt)
    decreases s
  {
    match s.kind
    case ExprStmt(e) => Covered(top, e)
    case Decl(_, _, init) => OptionCovered(top, init)
    case Block(stmts) => StmtsCovered(top, stmts)
    case If(cond, thn, els) =>
      Covered(top, cond) && StmtCovered(top, thn) && (els.Some? ==> StmtCovered(top, els.value))
    case While(cond, body) => Covered(top, cond) && StmtCovered(top, body)
    case DoWhile(body, cond) => StmtCovered(top, body) && Covered(top, cond)
    case For(inits, test, posts, body) =>
      AllCovered(top, inits) && OptionCovered(top, test) && AllCovered(top, posts) && StmtCovered(top, body)
    case Return(result) => OptionCovered(top, result)
    case _ => true
  }

  predicate StmtsCovered(top: Scope, ss: seq<Stmt>)
    decreases ss
  {
    ss != [] ==> StmtCovered(top, ss[0]) && StmtsCovered(top, ss[1..])
  }

  predicate BodyCovered(top: Scope, body: Stmt) {
    StmtsCovered(top, BodyOf(body))
  }

  predicate StateCovered(top: Scope, s: State) {
    forall i :: 0 <= i < |s.events| ==> BodyCovered(top, s.events[i].body)
  }

  /** No call in the annotated script is judged by memory. */
  predicate ScriptCovered(s: Script) {
    && (forall i :: 0 <= i < |s.funcs| ==> BodyCovered(TopScope(s), s.funcs[i].body))
    && (forall i :: 0 <= i < |s.states| ==> StateCovered(TopScope(s), s.states[i]))
  }

  // ------------------------------------------------------ from one memory to another

  /** Whatever passes under `a` passes under `b`. */
  ghost predicate Weaker(a: Beyond, b: Beyond) {
    forall fn, i, want, got :: PassRule(a, fn, i, want, got) ==> PassRule(b, fn, i, want, got)
  }

  function Under(env: Env, b: Beyond): Env {
    env.(bi := env.bi.(beyond := b))
  }

  lemma CallMoved(env: Env, b: Beyond, fn: string, args: seq<Expr>, t: Type)
    requires CallRule(env, fn, TypesOf(args), t)
    requires Weaker(env.bi.beyond, b) || CallCovered(env.scopes[0], fn, args)
    ensures CallRule(Under(env, b), fn, TypesOf(args), t)
  {
    hide FnFor, ArgRule, CellRule;
    var types := TypesOf(args);
    var user := LookupGlobal(env.scopes, fn);
    if user.Some? && user.value.kind == SymFunc {
      forall i | 0 <= i < |types|
        ensures PassRule(b, fn, i, user.value.params[i], types[i])
      {
        if !Weaker(env.bi.beyond, b) && i >= STORED_MAX { AnyPasses(b, fn, i, user.value.params[i], types[i]); }
      }
    }
  }

  lemma AnyPasses(b: Beyond, fn: string, i: nat, want: Type, got: Type)
    requires got.TAny?
    ensures PassRule(b, fn, i, want, got)
  {
  }

  /** A typing stays one under another memory, if that lets more pass or has no say. */
  lemma {:induction false} TypedMoved(env: Env, b: Beyond, e: Expr)
    requires Typed(env, e) && (Weaker(env.bi.beyond, b) || Covered(env.scopes[0], e))
    ensures Typed(Under(env, b), e)
    decreases e
  {
    hide Weaker, CallRule, BinaryRule, UnaryRule, AssignRule, CastRule, MemberRule, IsLValue, Lookup, ConstNamed,
         AllTyped, AllCovered, CallCovered, LookupGlobal;
    match e.kind
    case VectorLit(x, y, z) =>
      TypedMoved(env, b, x);
      TypedMoved(env, b, y);
      TypedMoved(env, b, z);
    case RotLit(x, y, z, w) =>
      TypedMoved(env, b, x);
      TypedMoved(env, b, y);
      TypedMoved(env, b, z);
      TypedMoved(env, b, w);
    case ListLit(items) => AllMoved(env, b, items);
    case Call(fn, args) =>
      AllMoved(env, b, args);
      CallMoved(env, b, fn, args, e.ty);
    case Member(base, _) => TypedMoved(env, b, base);
    case Cast(_, x) => TypedMoved(env, b, x);
    case Unary(_, x) => TypedMoved(env, b, x);
    case Postfix(_, x) => TypedMoved(env, b, x);
    case Binary(_, l, r) =>
      TypedMoved(env, b, l);
      TypedMoved(env, b, r);
    case Assign(_, l, r) =>
      TypedMoved(env, b, l);
      TypedMoved(env, b, r);
    case _ =>
  }

  lemma {:induction false} AllMoved(env: Env, b: Beyond, es: seq<Expr>)
    requires AllTyped(env, es) && (Weaker(env.bi.beyond, b) || AllCovered(env.scopes[0], es))
    ensures AllTyped(Under(env, b), es)
    decreases es
  {
    hide Typed, Weaker, Covered;
    forall i | 0 <= i < |es|
      ensures Typed(Under(env, b), es[i])
    {
      TypedMoved(env, b, es[i]);
    }
  }

  function InCtx(ctx: Ctx, b: Beyond): Ctx {
    ctx.(bi := ctx.bi.(beyond := b))
  }

  lemma {:induction false} AfterKeepsTop(scopes: Scopes, s: Stmt)
    requires |scopes| > 1
    ensures After(scopes, s)[0] == scopes[0]
    decreases s
  {
    match s.kind
    case If(_, thn, els) =>
      AfterKeepsTop(scopes, thn);
      if els.Some? { AfterKeepsTop(After(scopes, thn), els.value); }
    case While(_, body) => AfterKeepsTop(scopes, body);
    case DoWhile(body, _) => AfterKeepsTop(scopes, body);
    case For(_, _, _, body) => AfterKeepsTop(scopes, body);
    case _ =>
  }

  lemma {:induction false} StmtMoved(ctx: Ctx, scopes: Scopes, b: Beyond, s: Stmt)
    requires |scopes| > 1 && WellStmt(ctx, scopes, s)
    requires Weaker(ctx.bi.beyond, b) || StmtCovered(scopes[0], s)
    ensures WellStmt(InCtx(ctx, b), scopes, s)
    decreases s
  {
    hide Weaker, Typed, Covered, AllTyped, AllCovered, WellStmts, StmtsCovered, After, Converts;
    var env := EnvOf(ctx, scopes);
    match s.kind
    case ExprStmt(e) => TypedMoved(env, b, e);
    case Decl(_, _, init) =>
      AfterKeepsTop(scopes, s);
      if init.Some? { TypedMoved(EnvOf(ctx, After(scopes, s)), b, init.value); }
    case Block(stmts) => StmtsMoved(ctx, Push(scopes), b, stmts);
    case If(cond, thn, els) =>
      TypedMoved(env, b, cond);
      StmtMoved(ctx, scopes, b, thn);
      AfterKeepsTop(scopes, thn);
      if els.Some? { StmtMoved(ctx, After(scopes, thn), b, els.value); }
    case While(cond, body) =>
      TypedMoved(env, b, cond);
      StmtMoved(ctx, scopes, b, body);
    case DoWhile(body, cond) =>
      StmtMoved(ctx, scopes, b, body);
      AfterKeepsTop(scopes, body);
      TypedMoved(EnvOf(ctx, After(scopes, body)), b, cond);
    case For(inits, test, posts, body) =>
      AllMoved(env, b, inits);
      if test.Some? { TypedMoved(env, b, test.value); }
      AllMoved(env, b, posts);
      StmtMoved(ctx, scopes, b, body);
    case Return(result) =>
      if result.Some? && ctx.ret.Some? && ctx.ret.value != TVoid { TypedMoved(env, b, result.value); }
    case _ =>
  }

  lemma {:induction false} StmtsMoved(ctx: Ctx, scopes: Scopes, b: Beyond, ss: seq<Stmt>)
    requires |scopes| > 1 && WellStmts(ctx, scopes, ss)
    requires Weaker(ctx.bi.beyond, b) || StmtsCovered(scopes[0], ss)
    ensures WellStmts(InCtx(ctx, b), scopes, ss)
    decreases ss
  {
    hide Weaker, WellStmt, StmtCovered, After;
    if ss != [] {
      StmtMoved(ctx, scopes, b, ss[0]);
      AfterKeepsTop(scopes, ss[0]);
      StmtsMoved(ctx, After(scopes, ss[0]), b, ss[1..]);
    }
  }

  lemma BodyMoved(ctx: Ctx, top: Scope, params: Scope, b: Beyond, body: Stmt)
    requires WellBody(ctx, [top, params], BodyOf(body))
    requires Weaker(ctx.bi.beyond, b) || BodyCovered(top, body)
    ensures WellBody(InCtx(ctx, b), [top, params], BodyOf(body))
  {
    hide Weaker, WellStmts, StmtsCovered, LabelsOf, JumpsOf;
    StmtsMoved(ctx, Push([top, params]), b, BodyOf(body));
  }

  // ---------------------------------------------- a hostile memory finds every call

  lemma CallFound(env: Env, fn: string, args: seq<Expr>, t: Type)
    requires env.bi.beyond == HOSTILE && CallRule(env, fn, TypesOf(args), t)
    ensures CallCovered(env.scopes[0], fn, args)
  {
    hide FnFor, ArgRule;
    var types := TypesOf(args);
    var user := LookupGlobal(env.scopes, fn);
    if user.Some? && user.value.kind == SymFunc && |user.value.params| == |args| {
      forall i | STORED_MAX <= i < |args|
        ensures args[i].ty.TAny?
      {
        assert PassRule(env.bi.beyond, fn, i, user.value.params[i], types[i]);
      }
    }
  }

  lemma {:induction false} TypedFound(env: Env, e: Expr)
    requires env.bi.beyond == HOSTILE && Typed(env, e)
    ensures Covered(env.scopes[0], e)
    decreases e
  {
    hide CallRule, BinaryRule, UnaryRule, AssignRule, CastRule, MemberRule, IsLValue, Lookup, ConstNamed,
         AllTyped, AllCovered, CallCovered, LookupGlobal;
    match e.kind
    case VectorLit(x, y, z) =>
      TypedFound(env, x);
      TypedFound(env, y);
      TypedFound(env, z);
    case RotLit(x, y, z, w) =>
      TypedFound(env, x);
      TypedFound(env, y);
      TypedFound(env, z);
      TypedFound(env, w);
    case ListLit(items) => AllFound(env, items);
    case Call(fn, args) =>
      AllFound(env, args);
      CallFound(env, fn, args, e.ty);
    case Member(base, _) => TypedFound(env, base);
    case Cast(_, x) => TypedFound(env, x);
    case Unary(_, x) => TypedFound(env, x);
    case Postfix(_, x) => TypedFound(env, x);
    case Binary(_, l, r) =>
      TypedFound(env, l);
      TypedFound(env, r);
    case Assign(_, l, r) =>
      TypedFound(env, l);
      TypedFound(env, r);
    case _ =>
  }

  lemma {:induction false} AllFound(env: Env, es: seq<Expr>)
    requires env.bi.beyond == HOSTILE && AllTyped(env, es)
    ensures AllCovered(env.scopes[0], es)
    decreases es
  {
    hide Typed, Covered;
    forall i | 0 <= i < |es|
      ensures Covered(env.scopes[0], es[i])
    {
      TypedFound(env, es[i]);
    }
  }

  lemma {:induction false} StmtFound(ctx: Ctx, scopes: Scopes, s: Stmt)
    requires ctx.bi.beyond == HOSTILE && |scopes| > 1 && WellStmt(ctx, scopes, s)
    ensures StmtCovered(scopes[0], s)
    decreases s
  {
    hide Typed, Covered, AllTyped, AllCovered, WellStmts, StmtsCovered, After, Converts;
    var env := EnvOf(ctx, scopes);
    match s.kind
    case ExprStmt(e) => TypedFound(env, e);
    case Decl(_, _, init) =>
      AfterKeepsTop(scopes, s);
      if init.Some? { TypedFound(EnvOf(ctx, After(scopes, s)), init.value); }
    case Block(stmts) => StmtsFound(ctx, Push(scopes), stmts);
    case If(cond, thn, els) =>
      TypedFound(env, cond);
      StmtFound(ctx, scopes, thn);
      AfterKeepsTop(scopes, thn);
      if els.Some? { StmtFound(ctx, After(scopes, thn), els.value); }
    case While(cond, body) =>
      TypedFound(env, cond);
      StmtFound(ctx, scopes, body);
    case DoWhile(body, cond) =>
      StmtFound(ctx, scopes, body);
      AfterKeepsTop(scopes, body);
      TypedFound(EnvOf(ctx, After(scopes, body)), cond);
    case For(inits, test, posts, body) =>
      AllFound(env, inits);
      if test.Some? { TypedFound(env, test.value); }
      AllFound(env, posts);
      StmtFound(ctx, scopes, body);
    case Return(result) => if result.Some? { TypedFound(env, result.value); }
    case _ =>
  }

  lemma {:induction false} StmtsFound(ctx: Ctx, scopes: Scopes, ss: seq<Stmt>)
    requires ctx.bi.beyond == HOSTILE && |scopes| > 1 && WellStmts(ctx, scopes, ss)
    ensures StmtsCovered(scopes[0], ss)
    decreases ss
  {
    hide WellStmt, StmtCovered, After;
    if ss != [] {
      StmtFound(ctx, scopes, ss[0]);
      AfterKeepsTop(scopes, ss[0]);
      StmtsFound(ctx, After(scopes, ss[0]), ss[1..]);
    }
  }

  lemma BodyFound(ctx: Ctx, top: Scope, params: Scope, body: Stmt)
    requires ctx.bi.beyond == HOSTILE && WellBody(ctx, [top, params], BodyOf(body))
    ensures BodyCovered(top, body)
  {
    hide WellStmts, StmtsCovered, LabelsOf, JumpsOf;
    StmtsFound(ctx, Push([top, params]), BodyOf(body));
  }

  // ------------------------------------------------------------------- whole scripts

  /** Folding does not look at memory. */
  lemma {:induction false} FoldMoved(ops: FloatOps, bi: Tables, b: Beyond, e: Expr)
    ensures FoldExpr(ops, bi.(beyond := b), e) == FoldExpr(ops, bi, e)
    decreases e
  {
    hide FoldBinary, FoldUnary, FoldCast, FoldMember, FoldConst, ConstNamed;
    match e.kind
    case VectorLit(x, y, z) =>
      FoldMoved(ops, bi, b, x);
      FoldMoved(ops, bi, b, y);
      FoldMoved(ops, bi, b, z);
    case RotLit(x, y, z, w) =>
      FoldMoved(ops, bi, b, x);
      FoldMoved(ops, bi, b, y);
      FoldMoved(ops, bi, b, z);
      FoldMoved(ops, bi, b, w);
    case ListLit(items) => FoldAllMoved(ops, bi, b, items);
    case Member(base, _) => FoldMoved(ops, bi, b, base);
    case Cast(to, x) =>
      FoldMoved(ops, bi, b, x);
      CastMoved(ops, bi, b, to, FoldExpr(ops, bi, x));
    case Unary(op, x) =>
      FoldMoved(ops, bi, b, x);
      UnaryMoved(ops, bi, b, op, FoldExpr(ops, bi, x));
    case Binary(op, l, r) =>
      FoldMoved(ops, bi, b, l);
      FoldMoved(ops, bi, b, r);
      BinaryMoved(ops, bi, b, op, FoldExpr(ops, bi, l), FoldExpr(ops, bi, r));
    case _ =>
  }

  lemma OperandMoved(ops: FloatOps, bi: Tables, b: Beyond, e: Expr)
    ensures var bi' := bi.(beyond := b);
      AsInt(ops, bi', e) == AsInt(ops, bi, e) && AsFloat(ops, bi', e) == AsFloat(ops, bi, e)
      && AsString(bi', e) == AsString(bi, e) && IsIntOperand(ops, bi', e) == IsIntOperand(ops, bi, e)
  {
    hide ConstNamed;
  }

  lemma BinaryMoved(ops: FloatOps, bi: Tables, b: Beyond, op: Op, l: Expr, r: Expr)
    ensures FoldBinary(ops, bi.(beyond := b), op, l, r) == FoldBinary(ops, bi, op, l, r)
  {
    hide AsInt, AsFloat, AsString, IsIntOperand, IntBinary, FloatBinary;
    OperandMoved(ops, bi, b, l);
    OperandMoved(ops, bi, b, r);
  }

  lemma UnaryMoved(ops: FloatOps, bi: Tables, b: Beyond, op: Op, x: Expr)
    ensures FoldUnary(ops, bi.(beyond := b), op, x) == FoldUnary(ops, bi, op, x)
  {
    hide AsInt, AsFloat, AsString, IsIntOperand;
    OperandMoved(ops, bi, b, x);
  }

  lemma CastMoved(ops: FloatOps, bi: Tables, b: Beyond, to: Type, x: Expr)
    ensures FoldCast(ops, bi.(beyond := b), to, x) == FoldCast(ops, bi, to, x)
  {
    hide AsInt, AsFloat, AsString, IsIntOperand;
    OperandMoved(ops, bi, b, x);
  }

  lemma {:induction false} FoldAllMoved(ops: FloatOps, bi: Tables, b: Beyond, es: seq<Expr>)
    ensures FoldAll(ops, bi.(beyond := b), es) == FoldAll(ops, bi, es)
    decreases es
  {
    hide FoldExpr;
    if es != [] {
      FoldMoved(ops, bi, b, es[0]);
      FoldAllMoved(ops, bi, b, es[1..]);
    }
  }

  lemma {:induction false} ConstantMoved(bi: Tables, b: Beyond, e: Expr)
    ensures IsConstant(bi.(beyond := b), e) <==> IsConstant(bi, e)
    decreases e
  {
    match e.kind
    case VectorLit(x, y, z) =>
      ConstantMoved(bi, b, x);
      ConstantMoved(bi, b, y);
      ConstantMoved(bi, b, z);
    case RotLit(x, y, z, w) =>
      ConstantMoved(bi, b, x);
      ConstantMoved(bi, b, y);
      ConstantMoved(bi, b, z);
      ConstantMoved(bi, b, w);
    case ListLit(items) =>
      forall i | 0 <= i < |items|
        ensures IsConstant(bi.(beyond := b), items[i]) <==> IsConstant(bi, items[i])
      {
        ConstantMoved(bi, b, items[i]);
      }
    case Member(base, _) => ConstantMoved(bi, b, base);
    case Cast(_, x) => ConstantMoved(bi, b, x);
    case Unary(_, x) => ConstantMoved(bi, b, x);
    case Binary(_, l, r) =>
      ConstantMoved(bi, b, l);
      ConstantMoved(bi, b, r);
    case _ =>
  }

  ghost predicate NoFuncs(scope: Scope) {
    forall n :: n in scope ==> scope[n].kind != SymFunc
  }

  lemma {:induction false} CoveredAmongGlobals(scope: Scope, e: Expr)
    requires NoFuncs(scope)
    ensures Covered(scope, e)
    decreases e
  {
    match e.kind
    case VectorLit(x, y, z) =>
      CoveredAmongGlobals(scope, x);
      CoveredAmongGlobals(scope, y);
      CoveredAmongGlobals(scope, z);
    case RotLit(x, y, z, w) =>
      CoveredAmongGlobals(scope, x);
      CoveredAmongGlobals(scope, y);
      CoveredAmongGlobals(scope, z);
      CoveredAmongGlobals(scope, w);
    case ListLit(items) =>
      forall i | 0 <= i < |items| ensures Covered(scope, items[i]) { CoveredAmongGlobals(scope, items[i]); }
    case Call(_, args) =>
      forall i | 0 <= i < |args| ensures Covered(scope, args[i]) { CoveredAmongGlobals(scope, args[i]); }
    case Member(base, _) => CoveredAmongGlobals(scope, base);
    case Cast(_, x) => CoveredAmongGlobals(scope, x);
    case Unary(_, x) => CoveredAmongGlobals(scope, x);
    case Postfix(_, x) => CoveredAmongGlobals(scope, x);
    case Binary(_, l, r) =>
      CoveredAmongGlobals(scope, l);
      CoveredAmongGlobals(scope, r);
    case Assign(_, l, r) =>
      CoveredAmongGlobals(scope, l);
      CoveredAmongGlobals(scope, r);
    case _ =>
  }

  /** Where a name that is declared gets its symbol from. */
  lemma {:induction false} ExtendFrom(top: Scope, names: seq<string>, syms: seq<Sym>, n: string)
    requires |names| == |syms| && n in Extend(top, names, syms)
    ensures (n in top && Extend(top, names, syms)[n] == top[n])
      || exists i :: 0 <= i < |names| && names[i] == n && Extend(top, names, syms)[n] == syms[i]
    decreases |names|
  {
    if names != [] {
      var next := top[names[0] := syms[0]];
      ExtendFrom(next, names[1..], syms[1..], n);
      var e := Extend(top, names, syms);
      if n in next && e[n] == next[n] {
        if n == names[0] { assert names[0] == n && e[n] == syms[0]; }
      } else {
        var i :| 0 <= i < |names[1..]| && names[1..][i] == n && e[n] == syms[1..][i];
        assert names[i + 1] == n && e[n] == syms[i + 1];
      }
    }
  }

  lemma GlobalsAreNoFuncs(s: Script)
    ensures NoFuncs(GlobalScope(s))
  {
    forall n | n in GlobalScope(s)
      ensures GlobalScope(s)[n].kind != SymFunc
    {
      ExtendFrom(map[], GlobalNames(s.globals), GlobalSyms(s.globals), n);
    }
  }

  lemma GlobalMoved(ops: FloatOps, bi: Tables, lso: bool, scope: Scope, b: Beyond, g: Global)
    requires WellGlobal(ops, bi, lso, scope, g) && NoFuncs(scope)
    ensures WellGlobal(ops, bi.(beyond := b), lso, scope, g)
  {
    hide Typed, Covered, NoFuncs, FoldExpr, IsConstant, Constants.IsConstantExpr, Converts;
    if g.init.Some? {
      var e := g.init.value;
      CoveredAmongGlobals(scope, e);
      TypedMoved(Env(bi, lso, [scope]), b, e);
      FoldMoved(ops, bi, b, e);
      ConstantMoved(bi, b, FoldExpr(ops, bi, e));
      ConstantExact(Env(bi, lso, [scope]), ops, e);
      ConstantExact(Env(bi.(beyond := b), lso, [scope]), ops, e);
    }
  }

  lemma FuncMoved(bi: Tables, lso: bool, states: seq<string>, top: Scope, b: Beyond, f: Func)
    requires WellFunc(bi, lso, states, top, f) && (Weaker(bi.beyond, b) || BodyCovered(top, f.body))
    ensures WellFunc(bi.(beyond := b), lso, states, top, f)
  {
    hide WellBody, Weaker, BodyCovered;
    BodyMoved(Ctx(bi, lso, Some(f.ret), states), top, ParamScope(f.params), b, f.body);
  }

  lemma EventMoved(bi: Tables, lso: bool, states: seq<string>, top: Scope, b: Beyond, ev: Event)
    requires WellEvent(bi, lso, states, top, ev) && (Weaker(bi.beyond, b) || BodyCovered(top, ev.body))
    ensures WellEvent(bi.(beyond := b), lso, states, top, ev)
  {
    hide WellBody, Weaker, BodyCovered;
    BodyMoved(Ctx(bi, lso, None, states), top, ParamScope(ev.params), b, ev.body);
  }

  lemma StateMoved(bi: Tables, lso: bool, states: seq<string>, top: Scope, b: Beyond, s: State)
    requires WellState(bi, lso, states, top, s) && (Weaker(bi.beyond, b) || StateCovered(top, s))
    ensures WellState(bi.(beyond := b), lso, states, top, s)
  {
    hide WellEvent, Weaker, BodyCovered;
    forall i | 0 <= i < |s.events|
      ensures WellEvent(bi.(beyond := b), lso, states, top, s.events[i])
    {
      EventMoved(bi, lso, states, top, b, s.events[i]);
    }
  }

  /** A script that keeps the rules under one memory keeps them under another, if that lets
      more pass or has no say. */
  lemma ScriptMoved(ops: FloatOps, bi: Tables, lso: bool, b: Beyond, s: Script)
    requires WellScript(ops, bi, lso, s) && (Weaker(bi.beyond, b) || ScriptCovered(s))
    ensures WellScript(ops, bi.(beyond := b), lso, s)
  {
    hide WellGlobal, WellFunc, WellState, Weaker, BodyCovered, StateCovered, TopScope, GlobalScope, TopNames, NoDup;
    var names, top := StateNames(s.states), TopScope(s);
    GlobalsAreNoFuncs(s);
    forall i | 0 <= i < |s.globals|
      ensures WellGlobal(ops, bi.(beyond := b), lso, GlobalScope(s), s.globals[i])
    {
      GlobalMoved(ops, bi, lso, GlobalScope(s), b, s.globals[i]);
    }
    forall i | 0 <= i < |s.funcs|
      ensures WellFunc(bi.(beyond := b), lso, names, top, s.funcs[i])
    {
      FuncMoved(bi, lso, names, top, b, s.funcs[i]);
    }
    forall i | 0 <= i < |s.states|
      ensures WellState(bi.(beyond := b), lso, names, top, s.states[i])
    {
      StateMoved(bi, lso, names, top, b, s.states[i]);
    }
  }

  /** One that keeps them under a hostile memory has no call that memory judges. */
  lemma ScriptFound(ops: FloatOps, bi: Tables, lso: bool, s: Script)
    requires bi.beyond == HOSTILE && WellScript(ops, bi, lso, s)
    ensures ScriptCovered(s)
  {
    hide WellBody, WellGlobal, BodyCovered, TopScope, GlobalScope, TopNames, NoDup, HOSTILE;
    var names, top := StateNames(s.states), TopScope(s);
    forall i | 0 <= i < |s.funcs|
      ensures BodyCovered(top, s.funcs[i].body)
    {
      var f := s.funcs[i];
      BodyFound(Ctx(bi, lso, Some(f.ret), names), top, ParamScope(f.params), f.body);
    }
    forall i | 0 <= i < |s.states|
      ensures StateCovered(top, s.states[i])
    {
      var events := s.states[i].events;
      forall j | 0 <= j < |events|
        ensures BodyCovered(top, events[j].body)
      {
        assert WellEvent(bi, lso, names, top, events[j]);
        BodyFound(Ctx(bi, lso, None, names), top, ParamScope(events[j].params), events[j].body);
      }
    }
  }

  // --------------------------------------------------------------------- the theorems

  /** The script, suitably annotated, keeps the rules of the language. */
  ghost predicate KeepsRules(ops: FloatOps, bi: Tables, lso: bool, s: Script) {
    exists a :: StripScript(a) == StripScript(s) && WellScript(ops, Language(bi), lso, a)
  }

  predicate Accepts(ops: FloatOps, bi: Tables, lso: bool, s: Script) {
    CheckScript(ops, bi, lso, s).errs == 0
  }

  lemma AcceptedIff(ops: FloatOps, bi: Tables, lso: bool, b: Beyond, s: Script)
    requires TablesOk(bi) && ProperScript(s)
    ensures Accepts(ops, bi.(beyond := b), lso, s)
      <==> exists a :: StripScript(a) == StripScript(s) && WellScript(ops, bi.(beyond := b), lso, a)
  {
    hide ProperScript, CheckScript, StripScript, WellScript;
    ScriptAccepted(ops, bi.(beyond := b), lso, s);
  }

  /** Exactly when a script is accepted whatever memory holds: when it keeps the rules, and
      no call in it has an argument that memory judges. */
  lemma AcceptedWhateverMemory(ops: FloatOps, bi: Tables, lso: bool, s: Script)
    requires TablesOk(bi) && ProperScript(s)
    ensures (forall cell :: Accepts(ops, Memory(bi, cell), lso, s))
      <==> exists a :: StripScript(a) == StripScript(s) && WellScript(ops, Language(bi), lso, a) && ScriptCovered(a)
  {
    hide TablesOk, ProperScript, Accepts, StripScript, WellScript, ScriptCovered;
    if forall cell :: Accepts(ops, Memory(bi, cell), lso, s) {
      assert Memory(bi, HOSTILE.cell) == bi.(beyond := HOSTILE);
      AcceptedIff(ops, bi, lso, HOSTILE, s);
      var a :| StripScript(a) == StripScript(s) && WellScript(ops, bi.(beyond := HOSTILE), lso, a);
      ScriptFound(ops, bi.(beyond := HOSTILE), lso, a);
      ScriptMoved(ops, bi.(beyond := HOSTILE), lso, AsDeclared, a);
      assert bi.(beyond := HOSTILE).(beyond := AsDeclared) == Language(bi);
    }
    if a :| StripScript(a) == StripScript(s) && WellScript(ops, Language(bi), lso, a) && ScriptCovered(a) {
      forall cell
        ensures Accepts(ops, Memory(bi, cell), lso, s)
      {
        ScriptMoved(ops, Language(bi), lso, FromMemory(cell), a);
        assert Language(bi).(beyond := FromMemory(cell)) == bi.(beyond := FromMemory(cell));
        AcceptedIff(ops, bi, lso, FromMemory(cell), s);
      }
    }
  }
}
