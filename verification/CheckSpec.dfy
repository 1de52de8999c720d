/** What the checker computes: the annotated tree and the number of errors it reports. */
module CheckSpec {
  import opened Syntax
  import opened Builtins
  import opened Types
  import opened Typing
  import opened Fold
  import opened Judgement

  datatype Checked<+T> = Checked(v: T, errs: nat)

  /** The type a node gets and the errors reported at that node. */
  datatype Verdict = Verdict(ty: Type, errs: nat)

  function Count(bad: bool): nat {
    if bad then 1 else 0
  }

  // ---------------------------------------------------------------- node rules

  function IdentNode(env: Env, name: string): Verdict {
    var sym := Lookup(env.scopes, name);
    var c := ConstNamed(env.bi.consts, name);
    if sym.None? then
      if c.Some? then Verdict(c.value.Ty(), 0) else Verdict(TError, 1)
    else if sym.value.kind == SymFunc || sym.value.kind == SymState then Verdict(TError, 1)
    else Verdict(sym.value.ty, 0)
  }

  function MarkIdent(env: Env, name: string, lv: bool): bool {
    var sym := Lookup(env.scopes, name);
    if sym.None? then lv && ConstNamed(env.bi.consts, name).None?
    else sym.value.IsVariable() || lv
  }

  predicate BadComponent(t: Type) {
    t != TFloat && t != TInteger && t != TError
  }

  function MemberNode(base: Type, m: char): Verdict {
    if base == TError then Verdict(TError, 0)
    else if base != TVector && base != TRotation then Verdict(TError, 1)
    else
      var t := MemberType(m, base);
      Verdict(t, Count(t == TError))
  }

  function UnaryNode(op: Op, x: Type, assignable: bool): Verdict {
    if op == OpNot then Verdict(TInteger, Count(x != TInteger && x != TFloat && x != TError))
    else if op == OpTilde then Verdict(TInteger, Count(x != TInteger && x != TError))
    else if op == OpMinus || op == OpPlus then
      if x == TInteger || x == TFloat || x == TVector || x == TRotation || x == TError then Verdict(x, 0)
      else Verdict(TError, 1)
    else if op == OpInc || op == OpDec then
      Verdict(x, Count(!assignable) + Count(x != TInteger && x != TFloat && x != TError))
    else Verdict(TError, 0)
  }

  function PostfixNode(x: Type, assignable: bool): Verdict {
    Verdict(x, Count(!assignable) + Count(x != TInteger && x != TFloat && x != TError))
  }

  function BinaryNode(op: Op, l: Type, r: Type): Verdict {
    if op == OpLAnd || op == OpLOr then Verdict(TInteger, 0)
    else if IsCompareOp(op) then Verdict(TInteger, Count(!CompatibleCompare(l, r)))
    else
      var t := BinopResult(op, l, r);
      Verdict(t, Count(t == TError))
  }

  function AssignNode(op: Op, l: Type, r: Type, assignable: bool): Verdict {
    var t := BinopResult(CompoundOp(op), l, r);
    Verdict(l, Count(!assignable)
      + (if op == OpAssign then Count(!ImplicitAssignable(l, r))
         else Count(t == TError || !ImplicitAssignable(l, t))))
  }

  /** The arguments that do not fit, `anyVoid` when a void parameter takes anything. */
  function BadArgs(want: seq<Type>, got: seq<Type>, anyVoid: bool): nat
    requires |want| == |got|
  {
    if want == [] then 0
    else
      var here := Count(!(anyVoid && want[0] == TVoid) && !ParamAssignable(want[0], got[0]));
      here + BadArgs(want[1..], got[1..], anyVoid)
  }

  predicate MemoryAssignable(cell: Option<Type>, got: Type) {
    got.TAny? || got.TError? || (cell.Some? && ParamAssignable(cell.value, got))
  }

  /** Parameter `i` of a user's function takes an argument of type `got`. */
  predicate Passes(beyond: Beyond, fn: string, i: nat, want: Type, got: Type) {
    if beyond.AsDeclared? || i < STORED_MAX then ParamAssignable(want, got)
    else MemoryAssignable(beyond.cell(fn, i), got)
  }

  /** The arguments from the `i`-th on that a user's function does not take. */
  function BadUserArgs(beyond: Beyond, fn: string, want: seq<Type>, got: seq<Type>, i: nat): nat
    requires |want| == |got| && i <= |got|
    decreases |got| - i
  {
    if i == |got| then 0
    else
      var here := Count(!Passes(beyond, fn, i, want[i], got[i]));
      here + BadUserArgs(beyond, fn, want, got, i + 1)
  }

  function CallNode(env: Env, fn: string, args: seq<Type>): Verdict {
    var user := LookupGlobal(env.scopes, fn);
    var builtin := FnFor(env.bi.fns, fn, |args|);
    if user.Some? && user.value.kind == SymFunc then
      Verdict(user.value.ty,
        if |user.value.params| != |args| then 1
        else BadUserArgs(env.bi.beyond, fn, user.value.params, args, 0))
    else if builtin.Some? then
      Verdict(builtin.value.ret,
        Count(builtin.value.monoOnly && env.lso)
        + (if |builtin.value.params| != |args| then 1 else BadArgs(builtin.value.params, args, true)))
    else if |fn| >= 2 && fn[0] == 'l' && fn[1] == 'l' then Verdict(TAny, 0)
    else Verdict(TError, 1)
  }

  // ---------------------------------------------------------------- expressions

  function CheckExpr(env: Env, e: Expr): Checked<Expr>
    decreases e
  {
    match e.kind
    case IntLit(_) => Checked(e.(ty := TInteger), 0)
    case FloatLit(_) => Checked(e.(ty := TFloat), 0)
    case StringLit(_) => Checked(e.(ty := TString), 0)
    case VectorLit(a, b, c) =>
      var x, y, z := CheckExpr(env, a), CheckExpr(env, b), CheckExpr(env, c);
      Checked(Node(TVector, e.lv, VectorLit(x.v, y.v, z.v)),
        x.errs + y.errs + z.errs
        + Count(BadComponent(x.v.ty)) + Count(BadComponent(y.v.ty)) + Count(BadComponent(z.v.ty)))
    case RotLit(a, b, c, d) =>
      var x, y, z, w := CheckExpr(env, a), CheckExpr(env, b), CheckExpr(env, c), CheckExpr(env, d);
      Checked(Node(TRotation, e.lv, RotLit(x.v, y.v, z.v, w.v)), x.errs + y.errs + z.errs + w.errs)
    case ListLit(items) =>
      var xs := CheckAll(env, items);
      Checked(Node(TList, e.lv, ListLit(xs.v)), xs.errs)
    case Ident(name) =>
      var t := IdentNode(env, name);
      Checked(Node(t.ty, MarkIdent(env, name, e.lv), e.kind), t.errs)
    case Member(b, m) =>
      var base := CheckExpr(env, b);
      var t := MemberNode(base.v.ty, m);
      Checked(Node(t.ty, if t.ty == TError then e.lv else IsLValue(base.v), Member(base.v, m)),
        base.errs + t.errs)
    case Cast(to, inner) =>
      var x := CheckExpr(env, inner);
      Checked(Node(to, e.lv, Cast(to, x.v)), x.errs + Count(!ExplicitCastable(to, x.v.ty)))
    case Unary(op, inner) =>
      var x := CheckExpr(env, inner);
      var t := UnaryNode(op, x.v.ty, IsLValue(x.v));
      Checked(Node(t.ty, e.lv, Unary(op, x.v)), x.errs + t.errs)
    case Postfix(op, inner) =>
      var x := CheckExpr(env, inner);
      var t := PostfixNode(x.v.ty, IsLValue(x.v));
      Checked(Node(t.ty, e.lv, Postfix(op, x.v)), x.errs + t.errs)
    case Binary(op, l, r) =>
      var a, b := CheckExpr(env, l), CheckExpr(env, r);
      var t := BinaryNode(op, a.v.ty, b.v.ty);
      Checked(Node(t.ty, e.lv, Binary(op, a.v, b.v)), a.errs + b.errs + t.errs)
    case Assign(op, l, r) =>
      var a, b := CheckExpr(env, l), CheckExpr(env, r);
      var t := AssignNode(op, a.v.ty, b.v.ty, IsLValue(a.v));
      Checked(Node(t.ty, e.lv, Assign(op, a.v, b.v)), a.errs + b.errs + t.errs)
    case Call(fn, args) =>
      var xs := CheckAll(env, args);
      var t := CallNode(env, fn, TypesOf(xs.v));
      Checked(Node(t.ty, e.lv, Call(fn, xs.v)), xs.errs + t.errs)
  }

  function CheckAll(env: Env, es: seq<Expr>): (r: Checked<seq<Expr>>)
    ensures |r.v| == |es|
    decreases es
  {
    if es == [] then Checked([], 0)
    else
      var x := CheckExpr(env, es[0]);
      var xs := CheckAll(env, es[1..]);
      Checked([x.v] + xs.v, x.errs + xs.errs)
  }

  function CheckOption(env: Env, e: Option<Expr>): Checked<Option<Expr>> {
    if e.None? then Checked(None, 0)
    else
      var x := CheckExpr(env, e.value);
      Checked(Some(x.v), x.errs)
  }

  /** An initialiser of a variable of type `ty`, or a value returned as `ty`. */
  function CheckInit(env: Env, ty: Type, e: Expr): Checked<Expr> {
    var x := CheckExpr(env, e);
    Checked(x.v, x.errs + Count(!ImplicitAssignable(ty, x.v.ty)))
  }

  // ----------------------------------------------------------------- statements

  /** The statement with its expressions annotated, the scopes after it, and the errors. */
  datatype Walked<+T> = Walked(v: T, scopes: Scopes, errs: nat)

  predicate IsDeclared(scopes: Scopes, name: string) {
    name in Innermost(scopes)
  }

  function Declare(scopes: Scopes, name: string, sym: Sym): (r: Scopes)
    ensures |r| == |scopes|
  {
    if IsDeclared(scopes, name) then scopes else Bind(scopes, name, sym)
  }

  function CheckReturn(ctx: Ctx, scopes: Scopes, result: Option<Expr>): Checked<Option<Expr>> {
    var env := EnvOf(ctx, scopes);
    if ctx.ret.None? then Checked(result, Count(result.Some?))
    else if ctx.ret.value == TVoid && result.Some? then
      var x := CheckExpr(env, result.value);
      Checked(Some(x.v), 1 + x.errs)
    else if ctx.ret.value != TVoid && result.None? then Checked(result, 1)
    else if result.Some? then
      var x := CheckInit(env, ctx.ret.value, result.value);
      Checked(Some(x.v), x.errs)
    else Checked(result, 0)
  }

  function CheckStmt(ctx: Ctx, scopes: Scopes, s: Stmt): (r: Walked<Stmt>)
    ensures |r.scopes| == |scopes|
    decreases s
  {
    match s.kind
    case Empty => Walked(s, scopes, 0)
    case ExprStmt(e) =>
      var x := CheckExpr(EnvOf(ctx, scopes), e);
      Walked(s.(kind := ExprStmt(x.v)), scopes, x.errs)
    case Decl(ty, name, init) =>
      var twice := Count(IsDeclared(scopes, name));
      var scopes' := Declare(scopes, name, LocalSym(ty));
      if init.None? then Walked(s, scopes', twice)
      else
        var x := CheckInit(EnvOf(ctx, scopes'), ty, init.value);
        Walked(s.(kind := Decl(ty, name, Some(x.v))), scopes', twice + x.errs)
    case Block(stmts) =>
      var b := CheckBlock(ctx, scopes, stmts);
      Walked(s.(kind := Block(b.v)), scopes, b.errs)
    case If(cond, thn, els) =>
      var c := CheckExpr(EnvOf(ctx, scopes), cond);
      var t := CheckStmt(ctx, scopes, thn);
      var bad := Count(!Testable(c.v.ty));
      if els.None? then Walked(s.(kind := If(c.v, t.v, None)), t.scopes, c.errs + bad + t.errs)
      else
        var f := CheckStmt(ctx, t.scopes, els.value);
        Walked(s.(kind := If(c.v, t.v, Some(f.v))), f.scopes, c.errs + bad + t.errs + f.errs)
    case While(cond, body) =>
      var c := CheckExpr(EnvOf(ctx, scopes), cond);
      var b := CheckStmt(ctx, scopes, body);
      Walked(s.(kind := While(c.v, b.v)), b.scopes, c.errs + b.errs)
    case DoWhile(body, cond) =>
      var b := CheckStmt(ctx, scopes, body);
      var c := CheckExpr(EnvOf(ctx, b.scopes), cond);
      Walked(s.(kind := DoWhile(b.v, c.v)), b.scopes, b.errs + c.errs)
    case For(inits, test, posts, body) =>
      var env := EnvOf(ctx, scopes);
      var i, t, p := CheckAll(env, inits), CheckOption(env, test), CheckAll(env, posts);
      var b := CheckStmt(ctx, scopes, body);
      Walked(s.(kind := For(i.v, t.v, p.v, b.v)), b.scopes, i.errs + t.errs + p.errs + b.errs)
    case Return(result) =>
      var x := CheckReturn(ctx, scopes, result);
      Walked(s.(kind := Return(x.v)), scopes, x.errs)
    case Jump(_) => Walked(s, scopes, 0)
    case Label(_) => Walked(s, scopes, 0)
    case StateChange(target) =>
      Walked(s, scopes, Count(ctx.ret.Some? || target.GetOr("") !in ctx.states))
  }

  function CheckStmts(ctx: Ctx, scopes: Scopes, ss: seq<Stmt>): (r: Walked<seq<Stmt>>)
    ensures |r.scopes| == |scopes| && |r.v| == |ss|
    decreases ss, 0
  {
    if ss == [] then Walked([], scopes, 0)
    else
      var x := CheckStmt(ctx, scopes, ss[0]);
      var xs := CheckStmts(ctx, x.scopes, ss[1..]);
      Walked([x.v] + xs.v, xs.scopes, x.errs + xs.errs)
  }

  /** A block gets a scope of its own. */
  function CheckBlock(ctx: Ctx, scopes: Scopes, ss: seq<Stmt>): (r: Checked<seq<Stmt>>)
    ensures |r.v| == |ss|
    decreases ss, 1
  {
    var b := CheckStmts(ctx, Push(scopes), ss);
    Checked(b.v, b.errs)
  }

  // ---------------------------------------------------------- jumps and labels

  function Occurrences(names: seq<string>, name: string): nat {
    if names == [] then 0
    else
      var here := Count(names[0] == name);
      here + Occurrences(names[1..], name)
  }

  /** One error for each pair of equal names. */
  function DuplicatePairs(names: seq<string>): nat {
    if names == [] then 0 else Occurrences(names[1..], names[0]) + DuplicatePairs(names[1..])
  }

  function Missing(jumps: seq<string>, labels: seq<string>): nat {
    if jumps == [] then 0
    else
      var here := Count(jumps[0] !in labels);
      here + Missing(jumps[1..], labels)
  }

  function CheckBody(ctx: Ctx, scopes: Scopes, ss: seq<Stmt>): (r: Checked<seq<Stmt>>)
    ensures |r.v| == |ss|
  {
    var b := CheckBlock(ctx, scopes, ss);
    Checked(b.v, b.errs + DuplicatePairs(LabelsOf(ss)) + Missing(JumpsOf(ss), LabelsOf(ss)))
  }

  // -------------------------------------------------------------------- scripts

  /** Check one after the other. */
  function Each<T>(f: T -> Checked<T>, xs: seq<T>): (r: Checked<seq<T>>)
    ensures |r.v| == |xs|
    ensures forall i :: 0 <= i < |xs| ==> r.v[i] == f(xs[i]).v
    ensures r.errs == 0 <==> forall i :: 0 <= i < |xs| ==> f(xs[i]).errs == 0
  {
    if xs == [] then Checked([], 0)
    else
      var n := |xs| - 1;
      var init, last := Each(f, xs[..n]), f(xs[n]);
      assert forall i :: 0 <= i < n ==> xs[..n][i] == xs[i];
      Checked(init.v + [last.v], init.errs + last.errs)
  }

  datatype Declared = Declared(scope: Scope, errs: nat)

  /** Declare the names one after the other; a name that is taken is an error. */
  function DeclareAll(scope: Scope, names: seq<string>, syms: seq<Sym>): Declared
    requires |names| == |syms|
    decreases |names|
  {
    if names == [] then Declared(scope, 0)
    else if names[0] in scope then
      var d := DeclareAll(scope, names[1..], syms[1..]);
      Declared(d.scope, 1 + d.errs)
    else DeclareAll(scope[names[0] := syms[0]], names[1..], syms[1..])
  }

  function DeclareParams(params: seq<Param>): Declared {
    DeclareAll(map[], ParamNames(params), ParamSyms(params))
  }

  function CheckBodyStmt(ctx: Ctx, scopes: Scopes, body: Stmt): Checked<Stmt> {
    var b := CheckBody(ctx, scopes, BodyOf(body));
    Checked(if body.kind.Block? then body.(kind := Block(b.v)) else body, b.errs)
  }

  function CheckFunc(bi: Tables, lso: bool, states: seq<string>, top: Scope, f: Func): Checked<Func> {
    var d := DeclareParams(f.params);
    var b := CheckBodyStmt(Ctx(bi, lso, Some(f.ret), states), [top, d.scope], f.body);
    Checked(f.(body := b.v), d.errs + b.errs)
  }

  function BadParams(want: seq<Type>, got: seq<Type>): nat
    requires |want| == |got|
  {
    if want == [] then 0
    else
      var here := Count(want[0] != TVoid && got[0] != want[0]);
      here + BadParams(want[1..], got[1..])
  }

  function EventErrors(bi: Tables, name: string, types: seq<Type>): nat {
    var v := EventOfArity(bi.events, name, |types|);
    if v.None? then 1 else BadParams(v.value.params, types)
  }

  function CheckEvent(bi: Tables, lso: bool, states: seq<string>, top: Scope, ev: Event): Checked<Event> {
    var d := DeclareParams(ev.params);
    var b := CheckBodyStmt(Ctx(bi, lso, None, states), [top, d.scope], ev.body);
    Checked(ev.(body := b.v), EventErrors(bi, ev.name, ParamTypes(ev.params)) + d.errs + b.errs)
  }

  function CheckState(bi: Tables, lso: bool, states: seq<string>, top: Scope, s: State): Checked<State> {
    var es := Each(ev => CheckEvent(bi, lso, states, top, ev), s.events);
    Checked(s.(events := es.v), DuplicatePairs(EventNames(s.events)) + es.errs)
  }

  /** An initialiser is checked, then folded, and what is left must be constant. */
  function CheckGlobal(ops: FloatOps, bi: Tables, lso: bool, globals: Scope, g: Global): Checked<Global> {
    if g.init.None? then Checked(g, 0)
    else
      var x := CheckInit(Env(bi, lso, [globals]), g.ty, g.init.value);
      var folded := FoldExpr(ops, bi, x.v);
      Checked(g.(init := Some(folded)), x.errs + Count(!IsConstant(bi, folded)))
  }

  /** Is a default state among the states that get declared?  A state whose name is taken
      does not count. */
  predicate SawDefault(scope: Scope, ss: seq<State>)
    decreases |ss|
  {
    if ss == [] then false
    else if ss[0].name in scope then SawDefault(scope, ss[1..])
    else ss[0].isDefault || SawDefault(scope[ss[0].name := Sym(SymState, TVoid, [])], ss[1..])
  }

  function CheckScript(ops: FloatOps, bi: Tables, lso: bool, s: Script): Checked<Script> {
    var globals := DeclareAll(map[], GlobalNames(s.globals), GlobalSyms(s.globals));
    var funcs := DeclareAll(globals.scope, FuncNames(s.funcs), FuncSyms(s.funcs));
    var states := DeclareAll(funcs.scope, StateNames(s.states), StateSyms(s.states));
    var names := StateNames(s.states);
    var gs := Each(g => CheckGlobal(ops, bi, lso, globals.scope, g), s.globals);
    var fs := Each(f => CheckFunc(bi, lso, names, states.scope, f), s.funcs);
    var ss := Each(st => CheckState(bi, lso, names, states.scope, st), s.states);
    Checked(Script(gs.v, fs.v, ss.v),
      globals.errs + funcs.errs + states.errs + Count(!SawDefault(funcs.scope, s.states))
      + gs.errs + fs.errs + ss.errs)
  }
}
