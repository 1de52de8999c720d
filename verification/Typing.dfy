/** What it means for an annotated tree to be well typed, stated without error types,
    error counts or order of checking. */
module Typing {
  import opened Syntax
  import opened Builtins

  // ------------------------------------------------------------------ scopes

  datatype SymKind = SymGlobal | SymLocal | SymParam | SymFunc | SymState

  /** `ty` is a function's return type; `params` is empty for anything but a function. */
  datatype Sym = Sym(kind: SymKind, ty: Type, params: seq<Type>)
  {
    predicate IsVariable() {
      kind == SymGlobal || kind == SymLocal || kind == SymParam
    }
  }

  /** A symbol has room for the types of this many parameters. */
  const STORED_MAX: nat := 16

  /** What the symbol table keeps of a symbol: the number of parameters, but of their types
      only the first sixteen. */
  datatype Stored = Stored(kind: SymKind, ty: Type, arity: nat, first: seq<Type>)
  {
    predicate IsVariable() {
      kind == SymGlobal || kind == SymLocal || kind == SymParam
    }
  }

  function Store(sym: Sym): Stored {
    Stored(sym.kind, sym.ty, |sym.params|, if |sym.params| <= STORED_MAX then sym.params else sym.params[..STORED_MAX])
  }

  type Scope = map<string, Sym>

  /** Scope 0 is the global one, the last is the innermost. */
  type Scopes = s: seq<Scope> | |s| > 0 witness [map[]]

  function Innermost(scopes: Scopes): Scope {
    scopes[|scopes| - 1]
  }

  /** The innermost binding of `name`. */
  function Lookup(scopes: seq<Scope>, name: string): Option<Sym> {
    if scopes == [] then None
    else if name in scopes[|scopes| - 1] then Some(scopes[|scopes| - 1][name])
    else Lookup(scopes[..|scopes| - 1], name)
  }

  function LookupGlobal(scopes: Scopes, name: string): Option<Sym> {
    if name in scopes[0] then Some(scopes[0][name]) else None
  }

  function Bind(scopes: Scopes, name: string, sym: Sym): Scopes {
    scopes[|scopes| - 1 := Innermost(scopes)[name := sym]]
  }

  function Push(scopes: Scopes): Scopes {
    scopes + [map[]]
  }

  /** What expressions are checked against. */
  datatype Env = Env(bi: Tables, lso: bool, scopes: Scopes)

  ghost predicate SymOk(sym: Sym) {
    sym.ty != TError && TError !in sym.params
  }

  ghost predicate ScopesOk(scopes: Scopes) {
    forall i, n :: 0 <= i < |scopes| && n in scopes[i] ==> SymOk(scopes[i][n])
  }

  ghost predicate EnvOk(env: Env) {
    TablesOk(env.bi) && ScopesOk(env.scopes)
  }

  // ------------------------------------------------------------- type rules

  /** The types a declaration or a cast can name. */
  predicate IsValueType(t: Type) {
    !t.TVoid? && !t.TAny? && !t.TError?
  }

  predicate Numeric(t: Type) {
    t.TInteger? || t.TFloat?
  }

  predicate Text(t: Type) {
    t.TString? || t.TKey?
  }

  predicate Spatial(t: Type) {
    t.TVector? || t.TRotation?
  }

  /** Values of type `from` become values of type `to` without being asked. */
  predicate Converts(from: Type, to: Type) {
    from == to || to.TAny? || (from.TInteger? && to.TFloat?) || (Text(from) && Text(to))
  }

  /** The explicit casts. */
  predicate CastRule(from: Type, to: Type) {
    from == to || to.TString? || to.TList?
    || (Numeric(from) && Numeric(to))
    || (from.TString? && IsValueType(to))
  }

  /** `t` is the type arithmetic on two numbers has: float as soon as one is. */
  predicate Arithmetic(l: Type, r: Type, t: Type) {
    Numeric(l) && Numeric(r) && t == (if l.TFloat? || r.TFloat? then TFloat else TInteger)
  }

  predicate Comparable(l: Type, r: Type) {
    l == r || (Numeric(l) && Numeric(r)) || (Text(l) && Text(r))
  }

  /** `l op r` is defined and has type `t`. */
  predicate BinaryRule(op: Op, l: Type, r: Type, t: Type) {
    match op
    case OpLAnd | OpLOr => t.TInteger?
    case OpEq | OpNeq | OpLt | OpGt | OpLe | OpGe =>
      t.TInteger? && Comparable(l, r)
    case OpPlus =>
      || Arithmetic(l, r, t)
      || ((l.TList? || r.TList?) && t.TList?)
      || (l == r == t && (t.TString? || Spatial(t)))
    case OpMinus => Arithmetic(l, r, t) || (l == r == t && Spatial(t))
    case OpStar =>
      || Arithmetic(l, r, t)
      || (l.TVector? && (Numeric(r) || r.TRotation?) && t.TVector?)
      || (Numeric(l) && r.TVector? && t.TVector?)
      || (l.TVector? && r.TVector? && t.TFloat?)
      || (l.TRotation? && r.TRotation? && t.TRotation?)
    case OpSlash =>
      || Arithmetic(l, r, t)
      || (l.TVector? && (Numeric(r) || r.TRotation?) && t.TVector?)
      || (l.TRotation? && r.TRotation? && t.TRotation?)
    case OpPercent => l == r == t && (t.TVector? || t.TInteger?)
    case OpAnd | OpOr | OpXor | OpShl | OpShr => l.TInteger? && r.TInteger? && t.TInteger?
    case _ => false
  }

  /** `op x` is defined for `x` of type `x` and has type `t`. */
  predicate UnaryRule(op: Op, x: Type, t: Type) {
    || (op == OpNot && Numeric(x) && t.TInteger?)
    || (op == OpTilde && x.TInteger? && t.TInteger?)
    || ((op == OpPlus || op == OpMinus) && x == t && (Numeric(t) || Spatial(t)))
    || (IsPostfixOp(op) && x == t && Numeric(t))
  }

  /** `op` combines assignment with the operator `plain`. */
  predicate Compound(op: Op, plain: Op) {
    || (op == OpPlusAssign && plain == OpPlus)
    || (op == OpMinusAssign && plain == OpMinus)
    || (op == OpStarAssign && plain == OpStar)
    || (op == OpSlashAssign && plain == OpSlash)
    || (op == OpPercentAssign && plain == OpPercent)
  }

  /** The result of `l op r` can be stored back in `l`. */
  ghost predicate CompoundRule(op: Op, l: Type, r: Type) {
    exists plain, t :: Compound(op, plain) && BinaryRule(plain, l, r, t) && Converts(t, l)
  }

  ghost predicate AssignRule(op: Op, l: Type, r: Type) {
    if op == OpAssign then Converts(r, l) else CompoundRule(op, l, r)
  }

  predicate MemberRule(base: Type, m: char) {
    (Spatial(base) && (m == 'x' || m == 'y' || m == 'z')) || (base.TRotation? && m == 's')
  }

  predicate ArgRule(want: Type, got: Type) {
    want.TAny? || got.TAny? || Converts(got, want)
  }

  /** What memory lets pass: `any` passes everywhere, the error type lets anything pass, and
      a number that is no type nothing else. */
  predicate CellRule(cell: Option<Type>, got: Type) {
    got.TAny? || (cell.Some? && (cell.value.TError? || ArgRule(cell.value, got)))
  }

  /** An argument of type `got` may be passed to parameter `i`, declared as `want`, of the
      user's function `fn`. */
  predicate PassRule(beyond: Beyond, fn: string, i: nat, want: Type, got: Type) {
    if beyond.AsDeclared? || i < STORED_MAX then ArgRule(want, got) else CellRule(beyond.cell(fn, i), got)
  }

  /** A call of `fn` with arguments of types `args` has type `t`. */
  ghost predicate CallRule(env: Env, fn: string, args: seq<Type>, t: Type) {
    var user := LookupGlobal(env.scopes, fn);
    var builtin := FnFor(env.bi.fns, fn, |args|);
    if user.Some? && user.value.kind == SymFunc then
      && t == user.value.ty
      && |user.value.params| == |args|
      && (forall i :: 0 <= i < |args| ==> PassRule(env.bi.beyond, fn, i, user.value.params[i], args[i]))
    else if builtin.Some? then
      && t == builtin.value.ret
      && |builtin.value.params| == |args|
      && !(builtin.value.monoOnly && env.lso)
      && (forall i :: 0 <= i < |args| ==>
            builtin.value.params[i] == TVoid || ArgRule(builtin.value.params[i], args[i]))
    else "ll" <= fn && t.TAny?
  }

  // ------------------------------------------------------- annotated trees

  /** A variable, or a component of one. */
  predicate IsLValue(e: Expr)
    decreases e
  {
    match e.kind
    case Ident(_) => e.lv
    case Member(base, _) => IsLValue(base)
    case _ => false
  }

  function TypesOf(es: seq<Expr>): (r: seq<Type>)
    ensures |r| == |es|
    ensures forall i :: 0 <= i < |es| ==> r[i] == es[i].ty
  {
    seq(|es|, i requires 0 <= i < |es| => es[i].ty)
  }

  ghost predicate IdentRule(env: Env, name: string, t: Type, lv: bool) {
    var sym := Lookup(env.scopes, name);
    var c := ConstNamed(env.bi.consts, name);
    if sym.Some? then sym.value.IsVariable() && t == sym.value.ty && lv
    else c.Some? && t == c.value.Ty() && !lv
  }

  /** The annotations of `e` are right, and every rule of the language is kept. */
  ghost predicate Typed(env: Env, e: Expr)
    decreases e
  {
    && (e.lv ==> e.kind.Ident? || e.kind.Member?)
    && match e.kind
       case IntLit(_) => e.ty == TInteger
       case FloatLit(_) => e.ty == TFloat
       case StringLit(_) => e.ty == TString
       case Ident(name) => IdentRule(env, name, e.ty, e.lv)
       case VectorLit(x, y, z) =>
         && e.ty == TVector
         && Typed(env, x) && Typed(env, y) && Typed(env, z)
         && Numeric(x.ty) && Numeric(y.ty) && Numeric(z.ty)
       case RotLit(x, y, z, w) =>
         e.ty == TRotation && Typed(env, x) && Typed(env, y) && Typed(env, z) && Typed(env, w)
       case ListLit(items) => e.ty == TList && AllTyped(env, items)
       case Call(fn, args) => AllTyped(env, args) && CallRule(env, fn, TypesOf(args), e.ty)
       case Member(base, m) =>
         Typed(env, base) && MemberRule(base.ty, m) && e.ty == TFloat && e.lv == IsLValue(base)
       case Cast(to, x) => Typed(env, x) && CastRule(x.ty, to) && e.ty == to
       case Unary(op, x) =>
         Typed(env, x) && UnaryRule(op, x.ty, e.ty) && (IsPostfixOp(op) ==> IsLValue(x))
       case Postfix(_, x) => Typed(env, x) && IsLValue(x) && Numeric(x.ty) && e.ty == x.ty
       case Binary(op, l, r) => Typed(env, l) && Typed(env, r) && BinaryRule(op, l.ty, r.ty, e.ty)
       case Assign(op, l, r) =>
         Typed(env, l) && Typed(env, r) && IsLValue(l) && AssignRule(op, l.ty, r.ty) && e.ty == l.ty
  }

  ghost predicate AllTyped(env: Env, es: seq<Expr>)
    decreases es
  {
    forall i :: 0 <= i < |es| ==> Typed(env, es[i])
  }

  // ------------------------------------------------------- bare and same trees

  /** The tree without its annotations. */
  function Strip(e: Expr): Expr
    decreases e, 0
  {
    Node(TError, false,
      match e.kind
      case VectorLit(x, y, z) => VectorLit(Strip(x), Strip(y), Strip(z))
      case RotLit(x, y, z, w) => RotLit(Strip(x), Strip(y), Strip(z), Strip(w))
      case ListLit(items) => ListLit(StripAll(items))
      case Call(fn, args) => Call(fn, StripAll(args))
      case Member(base, m) => Member(Strip(base), m)
      case Cast(to, x) => Cast(to, Strip(x))
      case Unary(op, x) => Unary(op, Strip(x))
      case Postfix(op, x) => Postfix(op, Strip(x))
      case Binary(op, l, r) => Binary(op, Strip(l), Strip(r))
      case Assign(op, l, r) => Assign(op, Strip(l), Strip(r))
      case _ => e.kind)
  }

  function StripAll(es: seq<Expr>): (r: seq<Expr>)
    ensures |r| == |es|
    ensures forall i :: 0 <= i < |es| ==> r[i] == Strip(es[i])
    decreases es
  {
    if es == [] then [] else [Strip(es[0])] + StripAll(es[1..])
  }

  /** What the parser produces: no lvalue marks yet, operators in their places, and casts
      to types that have a name. */
  predicate Proper(e: Expr)
    decreases e, 0
  {
    && !e.lv
    && match e.kind
       case VectorLit(x, y, z) => Proper(x) && Proper(y) && Proper(z)
       case RotLit(x, y, z, w) => Proper(x) && Proper(y) && Proper(z) && Proper(w)
       case ListLit(items) => AllProper(items)
       case Call(_, args) => AllProper(args)
       case Member(base, _) => Proper(base)
       case Cast(to, x) => IsValueType(to) && Proper(x)
       case Unary(op, x) => IsUnaryOp(op) && Proper(x)
       case Postfix(op, x) => IsPostfixOp(op) && Proper(x)
       case Binary(op, l, r) => IsBinaryOp(op) && Proper(l) && Proper(r)
       case Assign(op, l, r) => IsAssignOp(op) && Proper(l) && Proper(r)
       case _ => true
  }

  predicate AllProper(es: seq<Expr>)
    decreases es, 1
  {
    forall i :: 0 <= i < |es| ==> Proper(es[i])
  }
}
