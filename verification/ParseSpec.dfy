/** What the recursive-descent parser computes: for a token sequence and a position,
    the tree it builds, the position it stops at, and how many errors it reports. */
module ParseSpec {
  import opened Syntax

  /** `errs` counts the errors reported between the start position and `next`. */
  datatype Parsed<+T> = Parsed(v: T, next: nat, errs: nat)

  /** The current token is `t`.  Past the last token the parser sees end of file. */
  predicate AtTok(ts: seq<LToken>, i: nat, t: Token) {
    i < |ts| && ts[i].tok == t
  }

  predicate AtType(ts: seq<LToken>, i: nat) {
    i < |ts| && ts[i].tok.TkType?
  }

  predicate AtIdent(ts: seq<LToken>, i: nat) {
    i < |ts| && ts[i].tok.TkIdent?
  }

  predicate AtBinary(ts: seq<LToken>, i: nat, k: nat) {
    i < |ts| && ts[i].tok.TkOp? && BinaryLevel(ts[i].tok.op) == k
  }

  predicate AtAssignOp(ts: seq<LToken>, i: nat) {
    i < |ts| && ts[i].tok.TkOp? && IsAssignOp(ts[i].tok.op)
  }

  predicate AtUnaryOp(ts: seq<LToken>, i: nat) {
    i < |ts| && ts[i].tok.TkOp? && IsUnaryOp(ts[i].tok.op)
  }

  predicate AtPostfixOp(ts: seq<LToken>, i: nat) {
    i < |ts| && ts[i].tok.TkOp? && IsPostfixOp(ts[i].tok.op)
  }

  /** Line of the current token; a node that starts at end of file gets line 0. */
  function LineAt(ts: seq<LToken>, i: nat): int {
    if i < |ts| then ts[i].line else 0
  }

  /** One step forward; at end of file the parser stays there. */
  function Advance(ts: seq<LToken>, i: nat): nat {
    if i < |ts| then i + 1 else i
  }

  /** Consume `t`, or report an error and stay. */
  function Expect(ts: seq<LToken>, i: nat, t: Token): (r: Parsed<()>)
    requires i <= |ts|
    ensures i <= r.next <= |ts|
    ensures r.errs == 0 <==> AtTok(ts, i, t)
    ensures r.errs == 0 ==> r.next == i + 1
    ensures r.errs > 0 ==> r.next == i
  {
    if AtTok(ts, i, t) then Parsed((), i + 1, 0) else Parsed((), i, 1)
  }

  // ------------------------------------------------------- fresh tree nodes

  function Fresh(kind: ExprKind): Expr {
    Node(TError, false, kind)
  }

  const ERROR_EXPR: Expr := Node(TError, false, IntLit(0))

  // ------------------------------------------------------------ expressions

  /** An expression of level `k`: 0 is assignment, 1 to 10 the binary levels,
      11 prefix operators and casts, 12 postfix and primary expressions. */
  function ParseLevel(ts: seq<LToken>, i: nat, k: nat): (r: Parsed<Expr>)
    requires i <= |ts| && k <= 12
    ensures i <= r.next <= |ts|
    ensures i < |ts| ==> i < r.next
    decreases |ts| - i, 14 - k
  {
    if k == LEVEL_ASSIGN then
      var l := ParseLevel(ts, i, 1);
      if AtAssignOp(ts, l.next) then
        var r := ParseLevel(ts, l.next + 1, 0);
        Parsed(Fresh(Assign(ts[l.next].tok.op, l.v, r.v)), r.next, l.errs + r.errs)
      else l
    else if k < LEVEL_UNARY then
      var l := ParseLevel(ts, i, k + 1);
      var t := LevelTail(ts, l.next, k, l.v);
      Parsed(t.v, t.next, l.errs + t.errs)
    else if k == LEVEL_UNARY then
      if AtUnaryOp(ts, i) then
        var x := ParseLevel(ts, i + 1, 11);
        Parsed(Fresh(Unary(ts[i].tok.op, x.v)), x.next, x.errs)
      else if AtTok(ts, i, TkLParen) && AtType(ts, i + 1) then
        var t := TypeOfKw(ts[i + 1].tok.kw);
        var close := Expect(ts, i + 2, TkRParen);
        var x := ParseLevel(ts, close.next, 11);
        Parsed(Node(t, false, Cast(t, x.v)), x.next, close.errs + x.errs)
      else
        ParseLevel(ts, i, 12)
    else
      var p := ParsePrimary(ts, i);
      var t := PostfixTail(ts, p.next, p.v);
      Parsed(t.v, t.next, p.errs + t.errs)
  }

  /** The rest of a left-associative chain of level `k` whose first part is `l`. */
  function LevelTail(ts: seq<LToken>, i: nat, k: nat, l: Expr): (r: Parsed<Expr>)
    requires i <= |ts| && 1 <= k <= 10
    ensures i <= r.next <= |ts|
    decreases |ts| - i, 0
  {
    if AtBinary(ts, i, k) then
      var r := ParseLevel(ts, i + 1, k + 1);
      var t := LevelTail(ts, r.next, k, Fresh(Binary(ts[i].tok.op, l, r.v)));
      Parsed(t.v, t.next, r.errs + t.errs)
    else Parsed(l, i, 0)
  }

  /** The calls, member accesses and postfix operators that follow `base`. */
  function PostfixTail(ts: seq<LToken>, i: nat, base: Expr): (r: Parsed<Expr>)
    requires i <= |ts|
    ensures i <= r.next <= |ts|
    decreases |ts| - i, 0
  {
    if AtTok(ts, i, TkLParen) && base.kind.Ident? then
      var args := ParseListUntil(ts, i + 1, TkRParen);
      var close := Expect(ts, args.next, TkRParen);
      var t := PostfixTail(ts, close.next, Fresh(Call(base.kind.name, args.v)));
      Parsed(t.v, t.next, args.errs + close.errs + t.errs)
    else if AtTok(ts, i, TkDot) then
      if !AtIdent(ts, i + 1) then Parsed(base, i + 1, 1)
      else
        var id := ts[i + 1].tok.id;
        var bad := |id| != 1 || id[0] == '\0';
        var t := PostfixTail(ts, i + 2, Fresh(Member(base, if bad then '\0' else id[0])));
        Parsed(t.v, t.next, (if bad then 1 else 0) + t.errs)
    else if AtPostfixOp(ts, i) then
      PostfixTail(ts, i + 1, Fresh(Postfix(ts[i].tok.op, base)))
    else Parsed(base, i, 0)
  }

  function ParsePrimary(ts: seq<LToken>, i: nat): (r: Parsed<Expr>)
    requires i <= |ts|
    ensures i <= r.next <= |ts|
    ensures i < |ts| ==> i < r.next
    decreases |ts| - i, 1
  {
    if i == |ts| then Parsed(ERROR_EXPR, i, 1)
    else if ts[i].tok.TkInt? then Parsed(Node(TInteger, false, IntLit(ts[i].tok.i)), i + 1, 0)
    else if ts[i].tok.TkFloat? then Parsed(Node(TFloat, false, FloatLit(ts[i].tok.f)), i + 1, 0)
    else if ts[i].tok.TkString? then Parsed(Node(TString, false, StringLit(ts[i].tok.s)), i + 1, 0)
    else if ts[i].tok.TkIdent? then Parsed(Fresh(Ident(ts[i].tok.id)), i + 1, 0)
    else if ts[i].tok == TkLParen then
      var e := ParseLevel(ts, i + 1, 0);
      var close := Expect(ts, e.next, TkRParen);
      Parsed(e.v, close.next, e.errs + close.errs)
    else if ts[i].tok == TkOp(OpLt) then ParseVector(ts, i)
    else if ts[i].tok == TkLBrack then
      var items := ParseListUntil(ts, i + 1, TkRBrack);
      var close := Expect(ts, items.next, TkRBrack);
      Parsed(Node(TList, false, ListLit(items.v)), close.next, items.errs + close.errs)
    else Parsed(ERROR_EXPR, i + 1, 1)
  }

  /** `< x, y, z >` or `< x, y, z, w >`.  Components stop below the comparison
      operators, so that `>` can only close the literal. */
  function ParseVector(ts: seq<LToken>, i: nat): (r: Parsed<Expr>)
    requires AtTok(ts, i, TkOp(OpLt))
    ensures i < r.next <= |ts|
    decreases |ts| - i, 0
  {
    var x := ParseLevel(ts, i + 1, 8);
    var c1 := Expect(ts, x.next, TkComma);
    var y := ParseLevel(ts, c1.next, 8);
    var c2 := Expect(ts, y.next, TkComma);
    var z := ParseLevel(ts, c2.next, 8);
    var errs := x.errs + c1.errs + y.errs + c2.errs + z.errs;
    if AtTok(ts, z.next, TkComma) then
      var w := ParseLevel(ts, z.next + 1, 8);
      var close := Expect(ts, w.next, TkOp(OpGt));
      Parsed(Node(TRotation, false, RotLit(x.v, y.v, z.v, w.v)), close.next, errs + w.errs + close.errs)
    else
      var close := Expect(ts, z.next, TkOp(OpGt));
      Parsed(Node(TVector, false, VectorLit(x.v, y.v, z.v)), close.next, errs + close.errs)
  }

  /** One or more assignments separated by commas. */
  function ParseList(ts: seq<LToken>, i: nat): (r: Parsed<seq<Expr>>)
    requires i <= |ts|
    ensures i <= r.next <= |ts|
    ensures i < |ts| ==> i < r.next
    decreases |ts| - i, 15
  {
    var e := ParseLevel(ts, i, 0);
    if AtTok(ts, e.next, TkComma) then
      var es := ParseList(ts, e.next + 1);
      Parsed([e.v] + es.v, es.next, e.errs + es.errs)
    else Parsed([e.v], e.next, e.errs)
  }

  /** Nothing if the current token is already `close`, a list otherwise. */
  function ParseListUntil(ts: seq<LToken>, i: nat, close: Token): (r: Parsed<seq<Expr>>)
    requires i <= |ts|
    ensures i <= r.next <= |ts|
    decreases |ts| - i, 16
  {
    if AtTok(ts, i, close) then Parsed([], i, 0) else ParseList(ts, i)
  }

  // ------------------------------------------------------------- statements

  function SkipTo(ts: seq<LToken>, i: nat, t: Token): (j: nat)
    requires i <= |ts|
    ensures i <= j <= |ts|
    ensures j < |ts| ==> ts[j].tok == t
    decreases |ts| - i
  {
    if i == |ts| || ts[i].tok == t then i else SkipTo(ts, i + 1, t)
  }

  function ParseBlock(ts: seq<LToken>, i: nat): (r: Parsed<Stmt>)
    requires AtTok(ts, i, TkLBrace)
    ensures i < r.next <= |ts|
    decreases |ts| - i, 0
  {
    var body := ParseStmts(ts, i + 1);
    var close := Expect(ts, body.next, TkRBrace);
    Parsed(Stmt(LineAt(ts, i), Block(body.v)), close.next, body.errs + close.errs)
  }

  /** Statements up to a closing brace or the end of file. */
  function ParseStmts(ts: seq<LToken>, i: nat): (r: Parsed<seq<Stmt>>)
    requires i <= |ts|
    ensures i <= r.next <= |ts|
    decreases |ts| - i, 3
  {
    if i == |ts| || AtTok(ts, i, TkRBrace) then Parsed([], i, 0)
    else
      var s := ParseStmt(ts, i);
      var ss := ParseStmts(ts, s.next);
      Parsed([s.v] + ss.v, ss.next, s.errs + ss.errs)
  }

  function ParseDecl(ts: seq<LToken>, i: nat): (r: Parsed<Stmt>)
    requires AtType(ts, i)
    ensures i < r.next <= |ts|
  {
    var ty := TypeOfKw(ts[i].tok.kw);
    if !AtIdent(ts, i + 1) then
      var j := SkipTo(ts, i + 1, TkSemi);
      Parsed(Stmt(LineAt(ts, i), Empty), Advance(ts, j), 1)
    else
      var name := ts[i + 1].tok.id;
      var init := ParseInit(ts, i + 2);
      var semi := Expect(ts, init.next, TkSemi);
      Parsed(Stmt(LineAt(ts, i), Decl(ty, name, init.v)), semi.next, init.errs + semi.errs)
  }

  /** An optional `= expression`. */
  function ParseInit(ts: seq<LToken>, i: nat): (r: Parsed<Option<Expr>>)
    requires i <= |ts|
    ensures i <= r.next <= |ts|
  {
    if AtTok(ts, i, TkOp(OpAssign)) then
      var e := ParseLevel(ts, i + 1, 0);
      Parsed(Some(e.v), e.next, e.errs)
    else Parsed(None, i, 0)
  }

  /** `( expression )` */
  function ParseCondition(ts: seq<LToken>, i: nat): (r: Parsed<Expr>)
    requires i <= |ts|
    ensures i <= r.next <= |ts|
  {
    var open := Expect(ts, i, TkLParen);
    var e := ParseLevel(ts, open.next, 0);
    var close := Expect(ts, e.next, TkRParen);
    Parsed(e.v, close.next, open.errs + e.errs + close.errs)
  }

  function ParseIf(ts: seq<LToken>, i: nat): (r: Parsed<Stmt>)
    requires AtTok(ts, i, TkIf)
    ensures i < r.next <= |ts|
    decreases |ts| - i, 0
  {
    var cond := ParseCondition(ts, i + 1);
    var thn := ParseStmt(ts, cond.next);
    if AtTok(ts, thn.next, TkElse) then
      var els := ParseStmt(ts, thn.next + 1);
      Parsed(Stmt(LineAt(ts, i), If(cond.v, thn.v, Some(els.v))), els.next, cond.errs + thn.errs + els.errs)
    else
      Parsed(Stmt(LineAt(ts, i), If(cond.v, thn.v, None)), thn.next, cond.errs + thn.errs)
  }

  function ParseWhile(ts: seq<LToken>, i: nat): (r: Parsed<Stmt>)
    requires AtTok(ts, i, TkWhile)
    ensures i < r.next <= |ts|
    decreases |ts| - i, 0
  {
    var cond := ParseCondition(ts, i + 1);
    var body := ParseStmt(ts, cond.next);
    Parsed(Stmt(LineAt(ts, i), While(cond.v, body.v)), body.next, cond.errs + body.errs)
  }

  function ParseDo(ts: seq<LToken>, i: nat): (r: Parsed<Stmt>)
    requires AtTok(ts, i, TkDo)
    ensures i < r.next <= |ts|
    decreases |ts| - i, 0
  {
    var body := ParseStmt(ts, i + 1);
    var kw := Expect(ts, body.next, TkWhile);
    var cond := ParseCondition(ts, kw.next);
    var semi := Expect(ts, cond.next, TkSemi);
    Parsed(Stmt(LineAt(ts, i), DoWhile(body.v, cond.v)), semi.next,
           body.errs + kw.errs + cond.errs + semi.errs)
  }

  function ParseOptExpr(ts: seq<LToken>, i: nat, stop: Token): (r: Parsed<Option<Expr>>)
    requires i <= |ts|
    ensures i <= r.next <= |ts|
  {
    if AtTok(ts, i, stop) then Parsed(None, i, 0)
    else
      var e := ParseLevel(ts, i, 0);
      Parsed(Some(e.v), e.next, e.errs)
  }

  function ParseFor(ts: seq<LToken>, i: nat): (r: Parsed<Stmt>)
    requires AtTok(ts, i, TkFor)
    ensures i < r.next <= |ts|
    decreases |ts| - i, 0
  {
    var open := Expect(ts, i + 1, TkLParen);
    var inits := ParseListUntil(ts, open.next, TkSemi);
    var semi1 := Expect(ts, inits.next, TkSemi);
    var test := ParseOptExpr(ts, semi1.next, TkSemi);
    var semi2 := Expect(ts, test.next, TkSemi);
    var posts := ParseListUntil(ts, semi2.next, TkRParen);
    var close := Expect(ts, posts.next, TkRParen);
    var body := ParseStmt(ts, close.next);
    Parsed(Stmt(LineAt(ts, i), For(inits.v, test.v, posts.v, body.v)), body.next,
           open.errs + inits.errs + semi1.errs + test.errs + semi2.errs + posts.errs + close.errs + body.errs)
  }

  function ParseReturn(ts: seq<LToken>, i: nat): (r: Parsed<Stmt>)
    requires AtTok(ts, i, TkReturn)
    ensures i < r.next <= |ts|
  {
    var e := ParseOptExpr(ts, i + 1, TkSemi);
    var semi := Expect(ts, e.next, TkSemi);
    Parsed(Stmt(LineAt(ts, i), Return(e.v)), semi.next, e.errs + semi.errs)
  }

  /** A name, or an error and no name. */
  function ParseName(ts: seq<LToken>, i: nat): (r: Parsed<Option<string>>)
    requires i <= |ts|
    ensures i <= r.next <= |ts|
  {
    if AtIdent(ts, i) then Parsed(Some(ts[i].tok.id), i + 1, 0) else Parsed(None, i, 1)
  }

  function ParseJump(ts: seq<LToken>, i: nat): (r: Parsed<Stmt>)
    requires AtTok(ts, i, TkJump)
    ensures i < r.next <= |ts|
  {
    var name := ParseName(ts, i + 1);
    var semi := Expect(ts, name.next, TkSemi);
    Parsed(Stmt(LineAt(ts, i), Jump(name.v)), semi.next, name.errs + semi.errs)
  }

  function ParseLabel(ts: seq<LToken>, i: nat): (r: Parsed<Stmt>)
    requires AtTok(ts, i, TkAt)
    ensures i < r.next <= |ts|
  {
    var name := ParseName(ts, i + 1);
    var semi := Expect(ts, name.next, TkSemi);
    Parsed(Stmt(LineAt(ts, i), Label(name.v)), semi.next, name.errs + semi.errs)
  }

  function ParseStateChange(ts: seq<LToken>, i: nat): (r: Parsed<Stmt>)
    requires AtTok(ts, i, TkState)
    ensures i < r.next <= |ts|
  {
    var name := if AtTok(ts, i + 1, TkDefault) then Parsed(Some("default"), i + 2, 0) else ParseName(ts, i + 1);
    var semi := Expect(ts, name.next, TkSemi);
    Parsed(Stmt(LineAt(ts, i), StateChange(name.v)), semi.next, name.errs + semi.errs)
  }

  /** `print ( expression ) ;` becomes a call of `print`. */
  function ParsePrint(ts: seq<LToken>, i: nat): (r: Parsed<Stmt>)
    requires AtTok(ts, i, TkPrint)
    ensures i < r.next <= |ts|
  {
    var e := ParseCondition(ts, i + 1);
    var semi := Expect(ts, e.next, TkSemi);
    Parsed(Stmt(LineAt(ts, i), ExprStmt(Fresh(Call("print", [e.v])))), semi.next, e.errs + semi.errs)
  }

  function ParseExprStmt(ts: seq<LToken>, i: nat): (r: Parsed<Stmt>)
    requires i <= |ts|
    ensures i <= r.next <= |ts|
    ensures i < |ts| ==> i < r.next
  {
    var e := ParseLevel(ts, i, 0);
    var semi := Expect(ts, e.next, TkSemi);
    Parsed(Stmt(LineAt(ts, i), ExprStmt(e.v)), semi.next, e.errs + semi.errs)
  }

  function ParseStmt(ts: seq<LToken>, i: nat): (r: Parsed<Stmt>)
    requires i <= |ts|
    ensures i <= r.next <= |ts|
    ensures i < |ts| ==> i < r.next
    decreases |ts| - i, 2
  {
    if i == |ts| then ParseExprStmt(ts, i)
    else match ts[i].tok
      case TkLBrace => ParseBlock(ts, i)
      case TkSemi => Parsed(Stmt(LineAt(ts, i), Empty), i + 1, 0)
      case TkType(_) => ParseDecl(ts, i)
      case TkIf => ParseIf(ts, i)
      case TkWhile => ParseWhile(ts, i)
      case TkDo => ParseDo(ts, i)
      case TkFor => ParseFor(ts, i)
      case TkReturn => ParseReturn(ts, i)
      case TkJump => ParseJump(ts, i)
      case TkAt => ParseLabel(ts, i)
      case TkState => ParseStateChange(ts, i)
      case TkPrint => ParsePrint(ts, i)
      case _ => ParseExprStmt(ts, i)
  }

  // -------------------------------------------------------------- top level

  /** Parameters, stopping at the first that is not `type name`. */
  function ParseParams(ts: seq<LToken>, i: nat): (r: Parsed<seq<Param>>)
    requires i <= |ts|
    ensures i <= r.next <= |ts|
    decreases |ts| - i
  {
    if !AtType(ts, i) then Parsed([], i, 1)
    else if !AtIdent(ts, i + 1) then Parsed([], i + 1, 1)
    else
      var p := Param(TypeOfKw(ts[i].tok.kw), ts[i + 1].tok.id);
      if AtTok(ts, i + 2, TkComma) then
        var ps := ParseParams(ts, i + 3);
        Parsed([p] + ps.v, ps.next, ps.errs)
      else Parsed([p], i + 2, 0)
  }

  function ParseParamsUntilParen(ts: seq<LToken>, i: nat): (r: Parsed<seq<Param>>)
    requires i <= |ts|
    ensures i <= r.next <= |ts|
  {
    if AtTok(ts, i, TkRParen) then Parsed([], i, 0) else ParseParams(ts, i)
  }

  /** An event handler; absent where the parser gives up on it. */
  function ParseEvent(ts: seq<LToken>, i: nat): (r: Parsed<Option<Event>>)
    requires i <= |ts|
    ensures i <= r.next <= |ts|
    ensures r.v.Some? ==> i < r.next
  {
    if !AtIdent(ts, i) then Parsed(None, i, 1)
    else
      var open := Expect(ts, i + 1, TkLParen);
      var params := ParseParamsUntilParen(ts, open.next);
      var close := Expect(ts, params.next, TkRParen);
      var errs := open.errs + params.errs + close.errs;
      if !AtTok(ts, close.next, TkLBrace) then Parsed(None, close.next, errs + 1)
      else
        var body := ParseBlock(ts, close.next);
        Parsed(Some(Event(ts[i].tok.id, params.v, body.v, LineAt(ts, i))), body.next, errs + body.errs)
  }

  /** The end of the enclosing braces: the first `}` that no `{` on the way opens. */
  function SkipBraces(ts: seq<LToken>, i: nat, depth: nat): (j: nat)
    requires i <= |ts|
    ensures i <= j <= |ts|
    decreases |ts| - i
  {
    if i == |ts| then i
    else if ts[i].tok == TkLBrace then SkipBraces(ts, i + 1, depth + 1)
    else if ts[i].tok == TkRBrace then
      if depth == 0 then i else SkipBraces(ts, i + 1, depth - 1)
    else SkipBraces(ts, i + 1, depth)
  }

  function ParseEvents(ts: seq<LToken>, i: nat): (r: Parsed<seq<Event>>)
    requires i <= |ts|
    ensures i <= r.next <= |ts|
    decreases |ts| - i
  {
    if i == |ts| || AtTok(ts, i, TkRBrace) then Parsed([], i, 0)
    else
      var e := ParseEvent(ts, i);
      if e.v.None? then Parsed([], SkipBraces(ts, e.next, 0), e.errs)
      else
        var es := ParseEvents(ts, e.next);
        Parsed([e.v.value] + es.v, es.next, e.errs + es.errs)
  }

  /** A state, `default` or named; absent where its header is malformed. */
  function ParseState(ts: seq<LToken>, i: nat): (r: Parsed<Option<State>>)
    requires AtTok(ts, i, TkDefault) || AtTok(ts, i, TkState)
    ensures i < r.next <= |ts|
  {
    var isDefault := ts[i].tok == TkDefault;
    if !isDefault && !AtIdent(ts, i + 1) then Parsed(None, i + 1, 1)
    else
      var name := if isDefault then "default" else ts[i + 1].tok.id;
      var open := Expect(ts, if isDefault then i + 1 else i + 2, TkLBrace);
      if open.errs > 0 then Parsed(None, open.next, open.errs)
      else
        var events := ParseEvents(ts, open.next);
        var close := Expect(ts, events.next, TkRBrace);
        Parsed(Some(State(name, isDefault, events.v, LineAt(ts, i))), close.next, events.errs + close.errs)
  }

  datatype TopDecl = DGlobal(g: Global) | DFunc(f: Func) | DState(s: State)

  /** Parameters, `)` and a block, after a function's `(`. */
  function ParseFuncRest(ts: seq<LToken>, i: nat, ret: Type, hasRet: bool, name: string, line: int)
    : (r: Parsed<Option<TopDecl>>)
    requires i <= |ts|
    ensures i <= r.next <= |ts|
  {
    var params := ParseParamsUntilParen(ts, i);
    var close := Expect(ts, params.next, TkRParen);
    var errs := params.errs + close.errs;
    if !AtTok(ts, close.next, TkLBrace) then Parsed(None, close.next, errs + 1)
    else
      var body := ParseBlock(ts, close.next);
      Parsed(Some(DFunc(Func(ret, hasRet, name, params.v, body.v, line))), body.next, errs + body.errs)
  }

  /** One round of the top-level loop. */
  function ParseDeclaration(ts: seq<LToken>, i: nat): (r: Parsed<Option<TopDecl>>)
    requires i < |ts|
    ensures i < r.next <= |ts|
  {
    match ts[i].tok
    case TkDefault =>
      var s := ParseState(ts, i);
      Parsed(if s.v.Some? then Some(DState(s.v.value)) else None, s.next, s.errs)
    case TkState =>
      var s := ParseState(ts, i);
      Parsed(if s.v.Some? then Some(DState(s.v.value)) else None, s.next, s.errs)
    case TkType(kw) =>
      if !AtIdent(ts, i + 1) then Parsed(None, i + 1, 1)
      else
        var name := ts[i + 1].tok.id;
        if AtTok(ts, i + 2, TkLParen) then
          ParseFuncRest(ts, i + 3, TypeOfKw(kw), true, name, LineAt(ts, i))
        else
          var init := ParseInit(ts, i + 2);
          var semi := Expect(ts, init.next, TkSemi);
          Parsed(Some(DGlobal(Global(TypeOfKw(kw), name, init.v))), semi.next, init.errs + semi.errs)
    case TkIdent(name) =>
      if !AtTok(ts, i + 1, TkLParen) then Parsed(None, Advance(ts, i + 1), 1)
      else ParseFuncRest(ts, i + 2, TVoid, false, name, LineAt(ts, i))
    case _ => Parsed(None, i + 1, 1)
  }

  function AddDecl(sc: Script, d: TopDecl): Script {
    match d
    case DGlobal(g) => sc.(globals := sc.globals + [g])
    case DFunc(f) => sc.(funcs := sc.funcs + [f])
    case DState(s) => sc.(states := sc.states + [s])
  }

  /** The top-level loop from position `i` with `sc` read and `errs` errors so far;
      it gives up once `maxErrors` errors have been reported. */
  function ParseTop(ts: seq<LToken>, i: nat, sc: Script, errs: nat, maxErrors: int): (r: Parsed<Script>)
    requires i <= |ts|
    ensures i <= r.next <= |ts| && errs <= r.errs
    decreases |ts| - i
  {
    if i == |ts| || errs >= maxErrors then Parsed(sc, i, errs)
    else
      var d := ParseDeclaration(ts, i);
      ParseTop(ts, d.next, if d.v.Some? then AddDecl(sc, d.v.value) else sc, errs + d.errs, maxErrors)
  }

  const EMPTY_SCRIPT: Script := Script([], [], [])

  function ParseScript(ts: seq<LToken>, maxErrors: int): Parsed<Script> {
    ParseTop(ts, 0, EMPTY_SCRIPT, 0, maxErrors)
  }
}
