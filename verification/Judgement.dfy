/** When annotated statements and scripts are well formed, stated without error counts. */
module Judgement {
  import opened Syntax
  import opened Seqs
  import opened Builtins
  import opened Typing
  import Fold
  import Constants

  /** What a body is checked against.  `ret` is a function's return type; an event handler
      has none, and only there may a state change happen. */
  datatype Ctx = Ctx(bi: Tables, lso: bool, ret: Option<Type>, states: seq<string>)

  function EnvOf(ctx: Ctx, scopes: Scopes): Env {
    Env(ctx.bi, ctx.lso, scopes)
  }

  function LocalSym(ty: Type): Sym {
    Sym(SymLocal, ty, [])
  }

  // -------------------------------------------------------------- statements

  /** The scopes after a statement.  A declaration that is not inside a block of its own
      reaches the statements that follow, even out of an `if` or a loop. */
  function After(scopes: Scopes, s: Stmt): (r: Scopes)
    ensures |r| == |scopes|
    decreases s
  {
    match s.kind
    case Decl(ty, name, _) => Bind(scopes, name, LocalSym(ty))
    case If(_, thn, els) =>
      var scopes' := After(scopes, thn);
      if els.Some? then After(scopes', els.value) else scopes'
    case While(_, body) => After(scopes, body)
    case DoWhile(body, _) => After(scopes, body)
    case For(_, _, _, body) => After(scopes, body)
    case _ => scopes
  }

  ghost predicate WellStmt(ctx: Ctx, scopes: Scopes, s: Stmt)
    decreases s
  {
    match s.kind
    case Empty => true
    case ExprStmt(e) => Typed(EnvOf(ctx, scopes), e)
    case Decl(ty, name, init) =>
      name !in Innermost(scopes) && (init.Some? ==> WellInit(EnvOf(ctx, After(scopes, s)), ty, init.value))
    case Block(stmts) => WellStmts(ctx, Push(scopes), stmts)
    case If(cond, thn, els) =>
      && Typed(EnvOf(ctx, scopes), cond) && cond.ty != TVoid && cond.ty != TAny
      && WellStmt(ctx, scopes, thn)
      && (els.Some? ==> WellStmt(ctx, After(scopes, thn), els.value))
    case While(cond, body) => Typed(EnvOf(ctx, scopes), cond) && WellStmt(ctx, scopes, body)
    case DoWhile(body, cond) => WellStmt(ctx, scopes, body) && Typed(EnvOf(ctx, After(scopes, body)), cond)
    case For(inits, test, posts, body) =>
      && AllTyped(EnvOf(ctx, scopes), inits)
      && (test.Some? ==> Typed(EnvOf(ctx, scopes), test.value))
      && AllTyped(EnvOf(ctx, scopes), posts)
      && WellStmt(ctx, scopes, body)
    case Return(result) => WellReturn(ctx, scopes, result)
    case Jump(_) => true
    case Label(_) => true
    case StateChange(target) => ctx.ret.None? && target.GetOr("") in ctx.states
  }

  ghost predicate WellStmts(ctx: Ctx, scopes: Scopes, ss: seq<Stmt>)
    decreases ss
  {
    ss != [] ==> WellStmt(ctx, scopes, ss[0]) && WellStmts(ctx, After(scopes, ss[0]), ss[1..])
  }

  ghost predicate WellInit(env: Env, ty: Type, init: Expr) {
    Typed(env, init) && Converts(init.ty, ty)
  }

  /** Events and functions without a return type return nothing; every other function
      returns a value of its type. */
  ghost predicate WellReturn(ctx: Ctx, scopes: Scopes, result: Option<Expr>) {
    if ctx.ret.None? || ctx.ret.value == TVoid then result.None?
    else result.Some? && WellInit(EnvOf(ctx, scopes), ctx.ret.value, result.value)
  }

  // ---------------------------------------------------------- jumps and labels

  /** The labels of a statement at any nesting, last one first. */
  function Labels(s: Stmt): seq<string>
    decreases s
  {
    match s.kind
    case Label(target) => [target.GetOr("?")]
    case Block(stmts) => LabelsOf(stmts)
    case If(_, thn, els) => (if els.Some? then Labels(els.value) else []) + Labels(thn)
    case While(_, body) => Labels(body)
    case DoWhile(body, _) => Labels(body)
    case For(_, _, _, body) => Labels(body)
    case _ => []
  }

  function LabelsOf(ss: seq<Stmt>): seq<string>
    decreases ss
  {
    if ss == [] then [] else LabelsOf(ss[1..]) + Labels(ss[0])
  }

  /** The jump targets of a statement at any nesting, last one first. */
  function Jumps(s: Stmt): seq<string>
    decreases s
  {
    match s.kind
    case Jump(target) => [target.GetOr("?")]
    case Block(stmts) => JumpsOf(stmts)
    case If(_, thn, els) => (if els.Some? then Jumps(els.value) else []) + Jumps(thn)
    case While(_, body) => Jumps(body)
    case DoWhile(body, _) => Jumps(body)
    case For(_, _, _, body) => Jumps(body)
    case _ => []
  }

  function JumpsOf(ss: seq<Stmt>): seq<string>
    decreases ss
  {
    if ss == [] then [] else JumpsOf(ss[1..]) + Jumps(ss[0])
  }

  /** A body with its own labels: each jump has exactly one label to go to. */
  ghost predicate WellBody(ctx: Ctx, scopes: Scopes, body: seq<Stmt>) {
    && WellStmts(ctx, Push(scopes), body)
    && NoDup(LabelsOf(body))
    && (forall j :: j in JumpsOf(body) ==> j in LabelsOf(body))
  }

  // ------------------------------------------------------------------ scripts

  /** `top` with each name bound to its symbol, the later ones over the earlier ones. */
  function Extend(top: Scope, names: seq<string>, syms: seq<Sym>): Scope
    requires |names| == |syms|
    decreases |names|
  {
    if names == [] then top else Extend(top[names[0] := syms[0]], names[1..], syms[1..])
  }

  function ParamNames(params: seq<Param>): (r: seq<string>)
    ensures |r| == |params|
  {
    seq(|params|, i requires 0 <= i < |params| => params[i].name)
  }

  function ParamTypes(params: seq<Param>): (r: seq<Type>)
    ensures |r| == |params|
  {
    seq(|params|, i requires 0 <= i < |params| => params[i].ty)
  }

  function ParamSyms(params: seq<Param>): (r: seq<Sym>)
    ensures |r| == |params|
  {
    seq(|params|, i requires 0 <= i < |params| => Sym(SymParam, params[i].ty, []))
  }

  function ParamScope(params: seq<Param>): Scope {
    Extend(map[], ParamNames(params), ParamSyms(params))
  }

  function BodyOf(s: Stmt): seq<Stmt> {
    if s.kind.Block? then s.kind.stmts else []
  }

  ghost predicate WellFunc(bi: Tables, lso: bool, states: seq<string>, top: Scope, f: Func) {
    && NoDup(ParamNames(f.params))
    && WellBody(Ctx(bi, lso, Some(f.ret), states), [top, ParamScope(f.params)], BodyOf(f.body))
  }

  /** The first event of this name and arity has parameters of these types. */
  ghost predicate EventRule(bi: Tables, name: string, types: seq<Type>) {
    var v := EventOfArity(bi.events, name, |types|);
    v.Some? && forall i :: 0 <= i < |types| ==> v.value.params[i] == TVoid || v.value.params[i] == types[i]
  }

  ghost predicate WellEvent(bi: Tables, lso: bool, states: seq<string>, top: Scope, ev: Event) {
    && EventRule(bi, ev.name, ParamTypes(ev.params))
    && NoDup(ParamNames(ev.params))
    && WellBody(Ctx(bi, lso, None, states), [top, ParamScope(ev.params)], BodyOf(ev.body))
  }

  function EventNames(events: seq<Event>): (r: seq<string>)
    ensures |r| == |events|
  {
    seq(|events|, i requires 0 <= i < |events| => events[i].name)
  }

  ghost predicate WellState(bi: Tables, lso: bool, states: seq<string>, top: Scope, s: State) {
    && NoDup(EventNames(s.events))
    && (forall i :: 0 <= i < |s.events| ==> WellEvent(bi, lso, states, top, s.events[i]))
  }

  // The names a script declares at top level, in the order in which they are declared.

  function GlobalNames(gs: seq<Global>): (r: seq<string>)
    ensures |r| == |gs|
  {
    seq(|gs|, i requires 0 <= i < |gs| => gs[i].name)
  }

  function FuncNames(fs: seq<Func>): (r: seq<string>)
    ensures |r| == |fs|
  {
    seq(|fs|, i requires 0 <= i < |fs| => fs[i].name)
  }

  function StateNames(ss: seq<State>): (r: seq<string>)
    ensures |r| == |ss|
  {
    seq(|ss|, i requires 0 <= i < |ss| => ss[i].name)
  }

  function GlobalSyms(gs: seq<Global>): (r: seq<Sym>)
    ensures |r| == |gs|
  {
    seq(|gs|, i requires 0 <= i < |gs| => Sym(SymGlobal, gs[i].ty, []))
  }

  function FuncSyms(fs: seq<Func>): (r: seq<Sym>)
    ensures |r| == |fs|
  {
    seq(|fs|, i requires 0 <= i < |fs| => Sym(SymFunc, fs[i].ret, ParamTypes(fs[i].params)))
  }

  function StateSyms(ss: seq<State>): (r: seq<Sym>)
    ensures |r| == |ss|
  {
    seq(|ss|, i requires 0 <= i < |ss| => Sym(SymState, TVoid, []))
  }

  /** A global may have an initialiser that sees the globals only, fits the declared type,
      and is a constant of the language. */
  ghost predicate WellGlobal(ops: Fold.FloatOps, bi: Tables, lso: bool, globals: Scope, g: Global) {
    g.init.Some? ==>
      && WellInit(Env(bi, lso, [globals]), g.ty, g.init.value)
      && Constants.IsConstantExpr(ops, bi, g.init.value)
  }

  function GlobalScope(s: Script): Scope {
    Extend(map[], GlobalNames(s.globals), GlobalSyms(s.globals))
  }

  function TopScope(s: Script): Scope {
    Extend(Extend(GlobalScope(s), FuncNames(s.funcs), FuncSyms(s.funcs)), StateNames(s.states), StateSyms(s.states))
  }

  function TopNames(s: Script): seq<string> {
    GlobalNames(s.globals) + FuncNames(s.funcs) + StateNames(s.states)
  }

  /** The annotated script keeps every rule of the language. */
  ghost predicate WellScript(ops: Fold.FloatOps, bi: Tables, lso: bool, s: Script) {
    && NoDup(TopNames(s))
    && (exists i :: 0 <= i < |s.states| && s.states[i].isDefault)
    && (forall i :: 0 <= i < |s.globals| ==> WellGlobal(ops, bi, lso, GlobalScope(s), s.globals[i]))
    && (forall i :: 0 <= i < |s.funcs| ==> WellFunc(bi, lso, StateNames(s.states), TopScope(s), s.funcs[i]))
    && (forall i :: 0 <= i < |s.states| ==> WellState(bi, lso, StateNames(s.states), TopScope(s), s.states[i]))
  }

  // ----------------------------------------------------- bare trees, proper trees

  function StripOption(e: Option<Expr>): Option<Expr> {
    if e.Some? then Some(Strip(e.value)) else None
  }

  function StripStmt(s: Stmt): Stmt
    decreases s, 0
  {
    s.(kind := match s.kind
      case ExprStmt(e) => ExprStmt(Strip(e))
      case Decl(ty, name, init) => Decl(ty, name, StripOption(init))
      case Block(stmts) => Block(StripStmts(stmts))
      case If(cond, thn, els) =>
        If(Strip(cond), StripStmt(thn), if els.Some? then Some(StripStmt(els.value)) else None)
      case While(cond, body) => While(Strip(cond), StripStmt(body))
      case DoWhile(body, cond) => DoWhile(StripStmt(body), Strip(cond))
      case For(inits, test, posts, body) =>
        For(StripAll(inits), StripOption(test), StripAll(posts), StripStmt(body))
      case Return(result) => Return(StripOption(result))
      case _ => s.kind)
  }

  function StripStmts(ss: seq<Stmt>): (r: seq<Stmt>)
    ensures |r| == |ss|
    decreases ss
  {
    if ss == [] then [] else [StripStmt(ss[0])] + StripStmts(ss[1..])
  }

  function StripEvents(es: seq<Event>): (r: seq<Event>)
    ensures |r| == |es|
  {
    seq(|es|, i requires 0 <= i < |es| => es[i].(body := StripStmt(es[i].body)))
  }

  /** The script without annotations on its expressions. */
  function StripScript(s: Script): Script {
    Script(
      seq(|s.globals|, i requires 0 <= i < |s.globals| => s.globals[i].(init := StripOption(s.globals[i].init))),
      seq(|s.funcs|, i requires 0 <= i < |s.funcs| => s.funcs[i].(body := StripStmt(s.funcs[i].body))),
      seq(|s.states|, i requires 0 <= i < |s.states| => s.states[i].(events := StripEvents(s.states[i].events))))
  }

  predicate ProperOption(e: Option<Expr>) {
    e.Some? ==> Proper(e.value)
  }

  /** What the parser produces: expressions not yet annotated, and declared types that have a name. */
  predicate ProperStmt(s: Stmt)
    decreases s, 0
  {
    match s.kind
    case ExprStmt(e) => Proper(e)
    case Decl(ty, _, init) => IsValueType(ty) && ProperOption(init)
    case Block(stmts) => ProperStmts(stmts)
    case If(cond, thn, els) => Proper(cond) && ProperStmt(thn) && (els.Some? ==> ProperStmt(els.value))
    case While(cond, body) => Proper(cond) && ProperStmt(body)
    case DoWhile(body, cond) => ProperStmt(body) && Proper(cond)
    case For(inits, test, posts, body) =>
      AllProper(inits) && ProperOption(test) && AllProper(posts) && ProperStmt(body)
    case Return(result) => ProperOption(result)
    case _ => true
  }

  predicate ProperStmts(ss: seq<Stmt>)
    decreases ss, 1
  {
    forall i :: 0 <= i < |ss| ==> ProperStmt(ss[i])
  }

  predicate ProperParams(params: seq<Param>) {
    forall i :: 0 <= i < |params| ==> IsValueType(params[i].ty)
  }

  predicate ProperBody(s: Stmt) {
    s.kind.Block? && ProperStmt(s)
  }

  predicate ProperScript(s: Script) {
    && (forall i :: 0 <= i < |s.globals| ==> IsValueType(s.globals[i].ty) && ProperOption(s.globals[i].init))
    && (forall i :: 0 <= i < |s.funcs| ==>
          && (s.funcs[i].ret == TVoid || IsValueType(s.funcs[i].ret))
          && ProperParams(s.funcs[i].params) && ProperBody(s.funcs[i].body))
    && (forall i, j :: 0 <= i < |s.states| && 0 <= j < |s.states[i].events| ==>
          ProperParams(s.states[i].events[j].params) && ProperBody(s.states[i].events[j].body))
  }
}
