/** The language, stated without the parser: which stretches of tokens derive which trees.
    A tree derives `ts[i..j]` at level `k` if the grammar rule for its node does, or if
    the stretch is that tree in parentheses. */
module Grammar {
  import opened Syntax
  import opened ParseSpec

  // The operators of each rule, written out; that the parser's tables say the same is proved
  // of each.

  /** The operators of the rule for binary expressions of level `k`, the loosest first. */
  predicate InRule(k: nat, op: Op) {
    match k
    case 1 => op == OpLOr
    case 2 => op == OpLAnd
    case 3 => op == OpOr
    case 4 => op == OpXor
    case 5 => op == OpAnd
    case 6 => op == OpEq || op == OpNeq
    case 7 => op == OpLt || op == OpGt || op == OpLe || op == OpGe
    case 8 => op == OpShl || op == OpShr
    case 9 => op == OpPlus || op == OpMinus
    case 10 => op == OpStar || op == OpSlash || op == OpPercent
    case _ => false
  }

  /** The rule an operator belongs to, 0 if it is no binary operator. */
  function RuleOf(op: Op): (k: nat)
    ensures k > 0 ==> InRule(k, op)
    ensures k == BinaryLevel(op)
  {
    if InRule(1, op) then 1 else if InRule(2, op) then 2 else if InRule(3, op) then 3 else if InRule(4, op) then 4
    else if InRule(5, op) then 5 else if InRule(6, op) then 6 else if InRule(7, op) then 7
    else if InRule(8, op) then 8 else if InRule(9, op) then 9 else if InRule(10, op) then 10 else 0
  }

  predicate Assigns(op: Op)
    ensures Assigns(op) <==> IsAssignOp(op)
  {
    op in {OpAssign, OpPlusAssign, OpMinusAssign, OpStarAssign, OpSlashAssign, OpPercentAssign}
  }

  predicate Prefixes(op: Op)
    ensures Prefixes(op) <==> IsUnaryOp(op)
  {
    op in {OpMinus, OpPlus, OpNot, OpTilde, OpInc, OpDec}
  }

  predicate Suffixes(op: Op)
    ensures Suffixes(op) <==> IsPostfixOp(op)
  {
    op in {OpInc, OpDec}
  }

  predicate Names(kw: TypeKw, t: Type)
    ensures Names(kw, t) <==> TypeOfKw(kw) == t
  {
    match t
    case TInteger => kw == KwInteger
    case TFloat => kw == KwFloat
    case TString => kw == KwString
    case TKey => kw == KwKey
    case TVector => kw == KwVector
    case TRotation => kw == KwRotation || kw == KwQuaternion
    case TList => kw == KwList
    case _ => false
  }

  ghost predicate Derives(ts: seq<LToken>, i: nat, j: nat, k: nat, e: Expr)
    requires i <= j <= |ts|
    decreases j - i, 2
  {
    i < j && (DerivesParens(ts, i, j, e) || DerivesNode(ts, i, j, k, e))
  }

  ghost predicate DerivesParens(ts: seq<LToken>, i: nat, j: nat, e: Expr)
    requires i < j <= |ts|
    decreases j - i, 1
  {
    i + 1 < j && ts[i].tok == TkLParen && ts[j - 1].tok == TkRParen && Derives(ts, i + 1, j - 1, 0, e)
  }

  ghost predicate DerivesNode(ts: seq<LToken>, i: nat, j: nat, k: nat, e: Expr)
    requires i < j <= |ts|
    decreases j - i, 1
  {
    !e.lv && e.ty == ParsedType(e.kind) &&
    match e.kind
    case IntLit(n) => j == i + 1 && ts[i].tok == TkInt(n)
    case FloatLit(f) => j == i + 1 && ts[i].tok == TkFloat(f)
    case StringLit(s) => j == i + 1 && ts[i].tok == TkString(s)
    case Ident(name) => j == i + 1 && ts[i].tok == TkIdent(name)
    case VectorLit(x, y, z) =>
      exists m, n :: DerivesVector(ts, i, j, m, n, x, y, z)
    case RotLit(x, y, z, w) =>
      exists m, n, o :: DerivesRot(ts, i, j, m, n, o, x, y, z, w)
    case ListLit(items) =>
      i + 1 < j && ts[i].tok == TkLBrack && ts[j - 1].tok == TkRBrack && DerivesList(ts, i + 1, j - 1, items)
    case Call(fn, args) =>
      exists m :: DerivesCall(ts, i, j, m, fn, args)
    case Member(base, c) =>
      i + 2 < j && c != '\0' && ts[j - 2].tok == TkDot && ts[j - 1].tok == TkIdent([c]) &&
      Derives(ts, i, j - 2, 12, base)
    case Postfix(op, inner) =>
      Suffixes(op) && ts[j - 1].tok == TkOp(op) && Derives(ts, i, j - 1, 12, inner)
    case Unary(op, inner) =>
      k <= 11 && Prefixes(op) && ts[i].tok == TkOp(op) && Derives(ts, i + 1, j, 11, inner)
    case Cast(to, inner) =>
      k <= 11 && i + 3 <= j && ts[i].tok == TkLParen && ts[i + 1].tok.TkType? &&
      Names(ts[i + 1].tok.kw, to) && ts[i + 2].tok == TkRParen && Derives(ts, i + 3, j, 11, inner)
    case Binary(op, l, r) =>
      RuleOf(op) > 0 && k <= RuleOf(op) && exists m :: DerivesInfix(ts, i, j, m, op, l, r)
    case Assign(op, l, r) =>
      Assigns(op) && k == 0 && exists m :: DerivesInfix(ts, i, j, m, op, l, r)
  }

  /** The type a node carries before it is checked. */
  function ParsedType(kind: ExprKind): Type {
    match kind
    case IntLit(_) => TInteger
    case FloatLit(_) => TFloat
    case StringLit(_) => TString
    case VectorLit(_, _, _) => TVector
    case RotLit(_, _, _, _) => TRotation
    case ListLit(_) => TList
    case Cast(to, _) => to
    case _ => TError
  }

  /** Level of the operands: binary operators associate to the left, assignment to the right. */
  function LeftLevel(op: Op): nat {
    if Assigns(op) then 1 else RuleOf(op)
  }

  function RightLevel(op: Op): nat {
    if Assigns(op) then 0 else RuleOf(op) + 1
  }

  /** `l op r` with the operator at `m`. */
  ghost predicate DerivesInfix(ts: seq<LToken>, i: nat, j: nat, m: nat, op: Op, l: Expr, r: Expr)
    requires i < j <= |ts|
    decreases j - i, 0
  {
    i < m < j && ts[m].tok == TkOp(op) &&
    Derives(ts, i, m, LeftLevel(op), l) && Derives(ts, m + 1, j, RightLevel(op), r)
  }

  /** A parenthesised argument list from `m` on, after a callee that is an identifier. */
  ghost predicate DerivesCall(ts: seq<LToken>, i: nat, j: nat, m: nat, fn: string, args: seq<Expr>)
    requires i < j <= |ts|
    decreases j - i, 0
  {
    i < m < j - 1 && ts[m].tok == TkLParen && ts[j - 1].tok == TkRParen &&
    Derives(ts, i, m, 12, Fresh(Ident(fn))) && DerivesList(ts, m + 1, j - 1, args)
  }

  ghost predicate DerivesVector(ts: seq<LToken>, i: nat, j: nat, m: nat, n: nat, x: Expr, y: Expr, z: Expr)
    requires i < j <= |ts|
    decreases j - i, 0
  {
    i < m < n < j - 1 && ts[i].tok == TkOp(OpLt) && ts[m].tok == TkComma && ts[n].tok == TkComma &&
    ts[j - 1].tok == TkOp(OpGt) &&
    Derives(ts, i + 1, m, 8, x) && Derives(ts, m + 1, n, 8, y) && Derives(ts, n + 1, j - 1, 8, z)
  }

  ghost predicate DerivesRot(ts: seq<LToken>, i: nat, j: nat, m: nat, n: nat, o: nat,
                             x: Expr, y: Expr, z: Expr, w: Expr)
    requires i < j <= |ts|
    decreases j - i, 0
  {
    i < m < n < o < j - 1 && ts[i].tok == TkOp(OpLt) && ts[m].tok == TkComma && ts[n].tok == TkComma &&
    ts[o].tok == TkComma && ts[j - 1].tok == TkOp(OpGt) &&
    Derives(ts, i + 1, m, 8, x) && Derives(ts, m + 1, n, 8, y) && Derives(ts, n + 1, o, 8, z) &&
    Derives(ts, o + 1, j - 1, 8, w)
  }

  /** Expressions separated by commas; no tokens at all for an empty list. */
  ghost predicate DerivesList(ts: seq<LToken>, i: nat, j: nat, es: seq<Expr>)
    requires i <= j <= |ts|
    decreases j - i, 3
  {
    if |es| == 0 then i == j
    else if |es| == 1 then Derives(ts, i, j, 0, es[0])
    else exists m :: DerivesCons(ts, i, j, m, es)
  }

  ghost predicate DerivesCons(ts: seq<LToken>, i: nat, j: nat, m: nat, es: seq<Expr>)
    requires i <= j <= |ts| && |es| > 1
    decreases j - i, 2
  {
    i < m < j && ts[m].tok == TkComma && Derives(ts, i, m, 0, es[0]) && DerivesList(ts, m + 1, j, es[1..])
  }

  // ------------------------------------------------------------- statements

  /** A statement that ends in an `if` without `else`: a following `else` would join it. */
  predicate Open(s: Stmt) {
    match s.kind
    case If(_, _, els) => if els.Some? then Open(els.value) else true
    case While(_, body) => Open(body)
    case For(_, _, _, body) => Open(body)
    case _ => false
  }

  ghost predicate DerivesCondition(ts: seq<LToken>, i: nat, j: nat, e: Expr)
    requires i <= j <= |ts|
  {
    i + 1 < j && ts[i].tok == TkLParen && ts[j - 1].tok == TkRParen && Derives(ts, i + 1, j - 1, 0, e)
  }

  ghost predicate DerivesInit(ts: seq<LToken>, i: nat, j: nat, e: Option<Expr>)
    requires i <= j <= |ts|
  {
    match e
    case None => i == j
    case Some(x) => i < j && ts[i].tok == TkOp(OpAssign) && Derives(ts, i + 1, j, 0, x)
  }

  ghost predicate DerivesOpt(ts: seq<LToken>, i: nat, j: nat, e: Option<Expr>)
    requires i <= j <= |ts|
  {
    match e
    case None => i == j
    case Some(x) => Derives(ts, i, j, 0, x)
  }

  ghost predicate DerivesStmt(ts: seq<LToken>, i: nat, j: nat, s: Stmt)
    requires i <= j <= |ts|
    decreases j - i, 1
  {
    i < j && s.line == ts[i].line &&
    match s.kind
    case Empty => j == i + 1 && ts[i].tok == TkSemi
    case Block(stmts) =>
      i + 1 < j && ts[i].tok == TkLBrace && ts[j - 1].tok == TkRBrace && DerivesStmts(ts, i + 1, j - 1, stmts)
    case Decl(ty, name, init) =>
      i + 2 < j && ts[i].tok.TkType? && Names(ts[i].tok.kw, ty) && ts[i + 1].tok == TkIdent(name) &&
      ts[j - 1].tok == TkSemi && DerivesInit(ts, i + 2, j - 1, init)
    case If(cond, thn, els) =>
      ts[i].tok == TkIf && exists m, n :: DerivesIf(ts, i, j, m, n, cond, thn, els)
    case While(cond, body) =>
      ts[i].tok == TkWhile && exists m :: DerivesWhile(ts, i, j, m, cond, body)
    case DoWhile(body, cond) =>
      ts[i].tok == TkDo && exists m :: DerivesDo(ts, i, j, m, body, cond)
    case For(inits, test, posts, body) =>
      ts[i].tok == TkFor && exists a, b, c :: DerivesFor(ts, i, j, a, b, c, inits, test, posts, body)
    case Return(result) =>
      i + 1 < j && ts[i].tok == TkReturn && ts[j - 1].tok == TkSemi && DerivesOpt(ts, i + 1, j - 1, result)
    case Jump(target) =>
      target.Some? && j == i + 3 && ts[i].tok == TkJump && ts[i + 1].tok == TkIdent(target.value) &&
      ts[i + 2].tok == TkSemi
    case Label(target) =>
      target.Some? && j == i + 3 && ts[i].tok == TkAt && ts[i + 1].tok == TkIdent(target.value) &&
      ts[i + 2].tok == TkSemi
    case StateChange(target) =>
      target.Some? && j == i + 3 && ts[i].tok == TkState && ts[i + 2].tok == TkSemi &&
      (ts[i + 1].tok == TkIdent(target.value) || (ts[i + 1].tok == TkDefault && target.value == "default"))
    case ExprStmt(e) =>
      ts[j - 1].tok == TkSemi && (Derives(ts, i, j - 1, 0, e) || DerivesPrint(ts, i, j - 1, e))
  }

  /** `print(x)` stands for a call of a function of that name. */
  ghost predicate DerivesPrint(ts: seq<LToken>, i: nat, j: nat, e: Expr)
    requires i <= j <= |ts|
  {
    i < j && ts[i].tok == TkPrint && e.kind.Call? && |e.kind.args| == 1 &&
    e == Fresh(Call("print", e.kind.args)) && DerivesCondition(ts, i + 1, j, e.kind.args[0])
  }

  ghost predicate DerivesIf(ts: seq<LToken>, i: nat, j: nat, m: nat, n: nat, cond: Expr, thn: Stmt, els: Option<Stmt>)
    requires i < j <= |ts|
    decreases j - i, 0
  {
    i < m < n <= j && DerivesCondition(ts, i + 1, m, cond) && DerivesStmt(ts, m, n, thn) &&
    match els
    case None => n == j
    case Some(s) => n < j && ts[n].tok == TkElse && !Open(thn) && DerivesStmt(ts, n + 1, j, s)
  }

  ghost predicate DerivesWhile(ts: seq<LToken>, i: nat, j: nat, m: nat, cond: Expr, body: Stmt)
    requires i < j <= |ts|
    decreases j - i, 0
  {
    i < m < j && DerivesCondition(ts, i + 1, m, cond) && DerivesStmt(ts, m, j, body)
  }

  ghost predicate DerivesDo(ts: seq<LToken>, i: nat, j: nat, m: nat, body: Stmt, cond: Expr)
    requires i < j <= |ts|
    decreases j - i, 0
  {
    i < m < j - 1 && DerivesStmt(ts, i + 1, m, body) && ts[m].tok == TkWhile &&
    DerivesCondition(ts, m + 1, j - 1, cond) && ts[j - 1].tok == TkSemi
  }

  /** `for ( inits ; test ; posts ) body` with the separators at `a`, `b` and `c`. */
  ghost predicate DerivesFor(ts: seq<LToken>, i: nat, j: nat, a: nat, b: nat, c: nat,
                             inits: seq<Expr>, test: Option<Expr>, posts: seq<Expr>, body: Stmt)
    requires i < j <= |ts|
    decreases j - i, 0
  {
    i + 1 < a < b < c < j && ts[i + 1].tok == TkLParen && ts[a].tok == TkSemi && ts[b].tok == TkSemi &&
    ts[c].tok == TkRParen && DerivesList(ts, i + 2, a, inits) && DerivesOpt(ts, a + 1, b, test) &&
    DerivesList(ts, b + 1, c, posts) && DerivesStmt(ts, c + 1, j, body)
  }

  ghost predicate DerivesStmts(ts: seq<LToken>, i: nat, j: nat, ss: seq<Stmt>)
    requires i <= j <= |ts|
    decreases j - i, 3, |ss|
  {
    if |ss| == 0 then i == j else exists m :: DerivesStmtCons(ts, i, j, m, ss)
  }

  ghost predicate DerivesStmtCons(ts: seq<LToken>, i: nat, j: nat, m: nat, ss: seq<Stmt>)
    requires i <= j <= |ts| && |ss| > 0
    decreases j - i, 2
  {
    i < m <= j && DerivesStmt(ts, i, m, ss[0]) && DerivesStmts(ts, m, j, ss[1..])
  }

  // ----------------------------------------------------------------- scripts

  /** `type name` pairs separated by commas. */
  ghost predicate DerivesParams(ts: seq<LToken>, i: nat, j: nat, ps: seq<Param>)
    requires i <= j <= |ts|
    decreases j - i
  {
    if |ps| == 0 then i == j
    else
      i + 2 <= j && ts[i].tok.TkType? && Names(ts[i].tok.kw, ps[0].ty) && ts[i + 1].tok == TkIdent(ps[0].name) &&
      if |ps| == 1 then j == i + 2
      else i + 3 <= j && ts[i + 2].tok == TkComma && DerivesParams(ts, i + 3, j, ps[1..])
  }

  ghost predicate DerivesBlock(ts: seq<LToken>, i: nat, j: nat, s: Stmt)
    requires i <= j <= |ts|
  {
    s.kind.Block? && DerivesStmt(ts, i, j, s)
  }

  /** `( params ) block` */
  ghost predicate DerivesSignature(ts: seq<LToken>, i: nat, j: nat, ps: seq<Param>, body: Stmt)
    requires i <= j <= |ts|
  {
    exists m :: SignatureAt(ts, i, j, m, ps, body)
  }

  /** The same with the closing parenthesis at `m`. */
  ghost predicate SignatureAt(ts: seq<LToken>, i: nat, j: nat, m: nat, ps: seq<Param>, body: Stmt)
    requires i <= j <= |ts|
  {
    i < m < j && ts[i].tok == TkLParen && DerivesParams(ts, i + 1, m, ps) && ts[m].tok == TkRParen &&
    DerivesBlock(ts, m + 1, j, body)
  }

  ghost predicate DerivesGlobal(ts: seq<LToken>, i: nat, j: nat, g: Global)
    requires i <= j <= |ts|
  {
    i + 2 < j && ts[i].tok.TkType? && Names(ts[i].tok.kw, g.ty) && ts[i + 1].tok == TkIdent(g.name) &&
    ts[j - 1].tok == TkSemi && DerivesInit(ts, i + 2, j - 1, g.init)
  }

  ghost predicate DerivesFunc(ts: seq<LToken>, i: nat, j: nat, f: Func)
    requires i <= j <= |ts|
  {
    i < j && f.line == ts[i].line &&
    if f.hasRet then
      i + 2 < j && ts[i].tok.TkType? && Names(ts[i].tok.kw, f.ret) && ts[i + 1].tok == TkIdent(f.name) &&
      DerivesSignature(ts, i + 2, j, f.params, f.body)
    else
      f.ret == TVoid && ts[i].tok == TkIdent(f.name) && DerivesSignature(ts, i + 1, j, f.params, f.body)
  }

  ghost predicate DerivesEvent(ts: seq<LToken>, i: nat, j: nat, e: Event)
    requires i <= j <= |ts|
  {
    i < j && e.line == ts[i].line && ts[i].tok == TkIdent(e.name) &&
    DerivesSignature(ts, i + 1, j, e.params, e.body)
  }

  ghost predicate DerivesEvents(ts: seq<LToken>, i: nat, j: nat, es: seq<Event>)
    requires i <= j <= |ts|
    decreases |es|, 1
  {
    if |es| == 0 then i == j else exists m :: DerivesEventCons(ts, i, j, m, es)
  }

  ghost predicate DerivesEventCons(ts: seq<LToken>, i: nat, j: nat, m: nat, es: seq<Event>)
    requires i <= j <= |ts| && |es| > 0
    decreases |es|, 0
  {
    i < m <= j && DerivesEvent(ts, i, m, es[0]) && DerivesEvents(ts, m, j, es[1..])
  }

  ghost predicate DerivesState(ts: seq<LToken>, i: nat, j: nat, s: State)
    requires i <= j <= |ts|
  {
    var body := if s.isDefault then i + 1 else i + 2;
    i < j && s.line == ts[i].line && body + 1 < j &&
    (if s.isDefault then ts[i].tok == TkDefault && s.name == "default"
     else ts[i].tok == TkState && ts[i + 1].tok == TkIdent(s.name)) &&
    ts[body].tok == TkLBrace && ts[j - 1].tok == TkRBrace && DerivesEvents(ts, body + 1, j - 1, s.events)
  }

  ghost predicate DerivesDecl(ts: seq<LToken>, i: nat, j: nat, d: TopDecl)
    requires i <= j <= |ts|
  {
    match d
    case DGlobal(g) => DerivesGlobal(ts, i, j, g)
    case DFunc(f) => DerivesFunc(ts, i, j, f)
    case DState(s) => DerivesState(ts, i, j, s)
  }

  ghost predicate DerivesDecls(ts: seq<LToken>, i: nat, ds: seq<TopDecl>)
    requires i <= |ts|
    decreases |ds|, 1
  {
    if |ds| == 0 then i == |ts| else exists m :: DerivesDeclCons(ts, i, m, ds)
  }

  ghost predicate DerivesDeclCons(ts: seq<LToken>, i: nat, m: nat, ds: seq<TopDecl>)
    requires i <= |ts| && |ds| > 0
    decreases |ds|, 0
  {
    i < m <= |ts| && DerivesDecl(ts, i, m, ds[0]) && DerivesDecls(ts, m, ds[1..])
  }

  /** The three lists of a script, from its declarations in source order. */
  function Collected(sc: Script, ds: seq<TopDecl>): Script
    decreases |ds|
  {
    if |ds| == 0 then sc else Collected(AddDecl(sc, ds[0]), ds[1..])
  }

  /** The whole token sequence is a script with tree `sc`. */
  // The declarations of each kind, in the order in which they stand.

  function GlobalsAmong(ds: seq<TopDecl>): seq<Global> {
    if ds == [] then [] else (if ds[0].DGlobal? then [ds[0].g] else []) + GlobalsAmong(ds[1..])
  }

  function FuncsAmong(ds: seq<TopDecl>): seq<Func> {
    if ds == [] then [] else (if ds[0].DFunc? then [ds[0].f] else []) + FuncsAmong(ds[1..])
  }

  function StatesAmong(ds: seq<TopDecl>): seq<State> {
    if ds == [] then [] else (if ds[0].DState? then [ds[0].s] else []) + StatesAmong(ds[1..])
  }

  lemma {:induction false} CollectedInOrder(sc: Script, ds: seq<TopDecl>)
    ensures Collected(sc, ds) ==
            Script(sc.globals + GlobalsAmong(ds), sc.funcs + FuncsAmong(ds), sc.states + StatesAmong(ds))
    decreases |ds|
  {
    if ds != [] { CollectedInOrder(AddDecl(sc, ds[0]), ds[1..]); }
  }

  /** A script of these declarations. */
  function ScriptOf(ds: seq<TopDecl>): (sc: Script)
    ensures sc == Collected(EMPTY_SCRIPT, ds)
  {
    CollectedInOrder(EMPTY_SCRIPT, ds);
    Script(GlobalsAmong(ds), FuncsAmong(ds), StatesAmong(ds))
  }

  ghost predicate DerivesScript(ts: seq<LToken>, sc: Script) {
    exists ds :: DerivesDecls(ts, 0, ds) && sc == ScriptOf(ds)
  }
}
