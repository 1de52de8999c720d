/** Writing a tree as tokens with as few parentheses as possible, and the proof that
    parsing undoes it. */
module Printer {
  import opened Syntax
  import opened Seqs
  import opened ParseSpec
  import opened Grammar
  import opened ParseSound
  import opened ParseComplete

  // -------------------------------------------------- trees that can be written

  predicate IsKeywordType(t: Type) {
    t in {TInteger, TFloat, TString, TKey, TVector, TRotation, TList}
  }

  /** How many nodes of an expression no source text can produce: a wrong operator,
      a member without a letter, a cast to an unnamed type, or annotations that the
      parser does not leave behind. */
  function Unwritable(e: Expr): nat {
    (if !e.lv && e.ty == ParsedType(e.kind) then 0 else 1) +
    match e.kind
    case IntLit(_) => 0
    case FloatLit(_) => 0
    case StringLit(_) => 0
    case Ident(_) => 0
    case VectorLit(x, y, z) => Unwritable(x) + Unwritable(y) + Unwritable(z)
    case RotLit(x, y, z, w) => Unwritable(x) + Unwritable(y) + Unwritable(z) + Unwritable(w)
    case ListLit(items) => UnwritableAll(items, 0)
    case Call(_, args) => UnwritableAll(args, 0)
    case Member(base, c) => Unless(c != '\0') + Unwritable(base)
    case Cast(to, inner) => Unless(IsKeywordType(to)) + Unwritable(inner)
    case Unary(op, inner) => Unless(IsUnaryOp(op)) + Unwritable(inner)
    case Postfix(op, inner) => Unless(IsPostfixOp(op)) + Unwritable(inner)
    case Binary(op, l, r) => Unless(IsBinaryOp(op)) + Unwritable(l) + Unwritable(r)
    case Assign(op, l, r) => Unless(IsAssignOp(op)) + Unwritable(l) + Unwritable(r)
  }

  function Unless(ok: bool): nat {
    if ok then 0 else 1
  }

  function UnwritableAll(es: seq<Expr>, k: nat): nat
    requires k <= |es|
    decreases es, |es| - k
  {
    if k == |es| then 0 else Unwritable(es[k]) + UnwritableAll(es, k + 1)
  }

  function UnwritableOpt(e: Option<Expr>): nat {
    match e
    case None => 0
    case Some(x) => Unwritable(x)
  }

  function UnwritableStmt(s: Stmt): nat {
    match s.kind
    case Empty => 0
    case ExprStmt(e) => Unwritable(e)
    case Decl(ty, _, init) => Unless(IsKeywordType(ty)) + UnwritableOpt(init)
    case Block(stmts) => UnwritableStmts(stmts, 0)
    case If(cond, thn, els) =>
      Unwritable(cond) + UnwritableStmt(thn) +
      (if els.Some? then Unless(!Open(thn)) + UnwritableStmt(els.value) else 0)
    case While(cond, body) => Unwritable(cond) + UnwritableStmt(body)
    case DoWhile(body, cond) => UnwritableStmt(body) + Unwritable(cond)
    case For(inits, test, posts, body) =>
      UnwritableAll(inits, 0) + UnwritableOpt(test) + UnwritableAll(posts, 0) + UnwritableStmt(body)
    case Return(result) => UnwritableOpt(result)
    case Jump(target) => Unless(target.Some?)
    case Label(target) => Unless(target.Some?)
    case StateChange(target) => Unless(target.Some?)
  }

  function UnwritableStmts(ss: seq<Stmt>, k: nat): nat
    requires k <= |ss|
    decreases ss, |ss| - k
  {
    if k == |ss| then 0 else UnwritableStmt(ss[k]) + UnwritableStmts(ss, k + 1)
  }

  predicate WritableParams(ps: seq<Param>) {
    forall k :: 0 <= k < |ps| ==> IsKeywordType(ps[k].ty)
  }

  predicate WritableGlobal(g: Global) {
    IsKeywordType(g.ty) && UnwritableOpt(g.init) == 0
  }

  predicate WritableFunc(f: Func) {
    (if f.hasRet then IsKeywordType(f.ret) else f.ret == TVoid) && WritableParams(f.params) &&
    f.body.kind.Block? && UnwritableStmt(f.body) == 0
  }

  predicate WritableEvent(e: Event) {
    WritableParams(e.params) && e.body.kind.Block? && UnwritableStmt(e.body) == 0
  }

  predicate WritableState(s: State) {
    (s.isDefault ==> s.name == "default") && forall k :: 0 <= k < |s.events| ==> WritableEvent(s.events[k])
  }

  /** The scripts that source text can produce. */
  predicate Writable(sc: Script) {
    && (forall k :: 0 <= k < |sc.globals| ==> WritableGlobal(sc.globals[k]))
    && (forall k :: 0 <= k < |sc.funcs| ==> WritableFunc(sc.funcs[k]))
    && (forall k :: 0 <= k < |sc.states| ==> WritableState(sc.states[k]))
  }

  // ----------------------------------------------------------------- printing

  function KwOfType(t: Type): TypeKw {
    match t
    case TInteger => KwInteger
    case TFloat => KwFloat
    case TString => KwString
    case TKey => KwKey
    case TVector => KwVector
    case TRotation => KwRotation
    case _ => KwList
  }

  /** The tightest level at which a node needs no parentheses. */
  function NodeLevel(kind: ExprKind): (k: nat)
    ensures k <= 12
  {
    match kind
    case Binary(op, _, _) => BinaryLevel(op)
    case Assign(_, _, _) => 0
    case Unary(_, _) => 11
    case Cast(_, _) => 11
    case _ => 12
  }

  function Tok(t: Token, line: int): seq<LToken> {
    [LToken(t, line)]
  }

  /** `e` where the grammar wants level `k`, all on one line. */
  function PrintExpr(e: Expr, k: nat, line: int): seq<LToken>
    decreases e, 1
  {
    if NodeLevel(e.kind) < k
    then Tok(TkLParen, line) + (PrintNode(e, line) + Tok(TkRParen, line))
    else PrintNode(e, line)
  }

  function PrintNode(e: Expr, line: int): seq<LToken>
    decreases e, 0
  {
    match e.kind
    case IntLit(n) => Tok(TkInt(n), line)
    case FloatLit(f) => Tok(TkFloat(f), line)
    case StringLit(s) => Tok(TkString(s), line)
    case Ident(name) => Tok(TkIdent(name), line)
    case VectorLit(x, y, z) =>
      var tail := Tok(TkComma, line) + (PrintExpr(z, 8, line) + Tok(TkOp(OpGt), line));
      Tok(TkOp(OpLt), line) + (PrintExpr(x, 8, line) + (Tok(TkComma, line) + (PrintExpr(y, 8, line) + tail)))
    case RotLit(x, y, z, w) =>
      var last := Tok(TkComma, line) + (PrintExpr(w, 8, line) + Tok(TkOp(OpGt), line));
      var tail := Tok(TkComma, line) + (PrintExpr(z, 8, line) + last);
      Tok(TkOp(OpLt), line) + (PrintExpr(x, 8, line) + (Tok(TkComma, line) + (PrintExpr(y, 8, line) + tail)))
    case ListLit(items) => Tok(TkLBrack, line) + (PrintList(items, 0, line) + Tok(TkRBrack, line))
    case Call(fn, args) =>
      Tok(TkIdent(fn), line) + (Tok(TkLParen, line) + (PrintList(args, 0, line) + Tok(TkRParen, line)))
    case Member(base, c) => PrintExpr(base, 12, line) + (Tok(TkDot, line) + Tok(TkIdent([c]), line))
    case Cast(to, inner) =>
      (Tok(TkLParen, line) + (Tok(TkType(KwOfType(to)), line) + Tok(TkRParen, line))) + PrintExpr(inner, 11, line)
    case Unary(op, inner) => Tok(TkOp(op), line) + PrintExpr(inner, 11, line)
    case Postfix(op, inner) => PrintExpr(inner, 12, line) + Tok(TkOp(op), line)
    case Binary(op, l, r) =>
      PrintExpr(l, LeftLevel(op), line) + (Tok(TkOp(op), line) + PrintExpr(r, RightLevel(op), line))
    case Assign(op, l, r) =>
      PrintExpr(l, LeftLevel(op), line) + (Tok(TkOp(op), line) + PrintExpr(r, RightLevel(op), line))
  }

  /** `es[k..]` separated by commas. */
  function PrintList(es: seq<Expr>, k: nat, line: int): seq<LToken>
    requires k <= |es|
    decreases es, |es| - k
  {
    if k == |es| then []
    else if k + 1 == |es| then PrintExpr(es[k], 0, line)
    else PrintExpr(es[k], 0, line) + (Tok(TkComma, line) + PrintList(es, k + 1, line))
  }

  // ------------------------------------------------ what is printed is derived

  lemma {:induction false} PrintExprDerives(ts: seq<LToken>, i: nat, e: Expr, k: nat, line: int)
    requires k <= 12 && Unwritable(e) == 0 && At(ts, i, PrintExpr(e, k, line))
    ensures Derives(ts, i, i + |PrintExpr(e, k, line)|, k, e)
    decreases e, 4
  {
    hide PrintNode, DerivesNode, Unwritable;
    if NodeLevel(e.kind) < k {
      AtSplit(ts, i, Tok(TkLParen, line), PrintNode(e, line) + Tok(TkRParen, line));
      AtElement(ts, i, Tok(TkLParen, line), 0);
      AtSplit(ts, i + 1, PrintNode(e, line), Tok(TkRParen, line));
      AtElement(ts, i + 1 + |PrintNode(e, line)|, Tok(TkRParen, line), 0);
      PrintNodeDerives(ts, i + 1, e, 0, line);
      assert DerivesParens(ts, i, i + |PrintExpr(e, k, line)|, e);
    } else {
      PrintNodeDerives(ts, i, e, k, line);
    }
  }

  lemma {:induction false} PrintNodeDerives(ts: seq<LToken>, i: nat, e: Expr, k: nat, line: int)
    requires k <= NodeLevel(e.kind) && Unwritable(e) == 0 && At(ts, i, PrintNode(e, line))
    ensures PrintNode(e, line) != [] && DerivesNode(ts, i, i + |PrintNode(e, line)|, k, e)
    decreases e, 3
  {
    hide PrintExpr, Derives;
    match e.kind
    case IntLit(_) => AtElement(ts, i, PrintNode(e, line), 0);
    case FloatLit(_) => AtElement(ts, i, PrintNode(e, line), 0);
    case StringLit(_) => AtElement(ts, i, PrintNode(e, line), 0);
    case Ident(_) => AtElement(ts, i, PrintNode(e, line), 0);
    case VectorLit(_, _, _) => PrintVectorDerives(ts, i, e, k, line);
    case RotLit(_, _, _, _) => PrintRotDerives(ts, i, e, k, line);
    case ListLit(_) => PrintListLitDerives(ts, i, e, k, line);
    case Call(_, _) => PrintCallDerives(ts, i, e, k, line);
    case Member(_, _) => PrintSuffixDerives(ts, i, e, k, line);
    case Postfix(_, _) => PrintSuffixDerives(ts, i, e, k, line);
    case Cast(_, _) => PrintPrefixDerives(ts, i, e, k, line);
    case Unary(_, _) => PrintPrefixDerives(ts, i, e, k, line);
    case Binary(_, _, _) => PrintInfixDerives(ts, i, e, k, line);
    case Assign(_, _, _) => PrintInfixDerives(ts, i, e, k, line);
  }

  /** One token, then the rest. */
  lemma TokenThen(ts: seq<LToken>, i: nat, t: Token, line: int, rest: seq<LToken>)
    requires At(ts, i, Tok(t, line) + rest)
    ensures i < |ts| && ts[i] == LToken(t, line) && At(ts, i + 1, rest)
  {
    AtSplit(ts, i, Tok(t, line), rest);
    AtElement(ts, i, Tok(t, line), 0);
  }

  /** An expression, then a token and the rest. */
  lemma {:induction false} ExprThen(ts: seq<LToken>, i: nat, parent: Expr, e: Expr, k: nat, line: int,
                                    rest: seq<LToken>)
    requires e < parent && k <= 12 && Unwritable(e) == 0 && At(ts, i, PrintExpr(e, k, line) + rest)
    ensures i < i + |PrintExpr(e, k, line)| <= |ts|
    ensures Derives(ts, i, i + |PrintExpr(e, k, line)|, k, e)
    ensures At(ts, i + |PrintExpr(e, k, line)|, rest)
    decreases parent, 0
  {
    hide PrintExpr, DerivesNode, DerivesParens, Unwritable;
    AtSplit(ts, i, PrintExpr(e, k, line), rest);
    PrintExprDerives(ts, i, e, k, line);
  }

  /** A component of a vector or rotation, then a token and the rest. */
  lemma {:induction false} ComponentThen(ts: seq<LToken>, i: nat, parent: Expr, e: Expr, t: Token, line: int,
                                         rest: seq<LToken>)
    requires e < parent && Unwritable(e) == 0 && At(ts, i, PrintExpr(e, 8, line) + (Tok(t, line) + rest))
    ensures var m := i + |PrintExpr(e, 8, line)|;
            i < m < |ts| && Derives(ts, i, m, 8, e) && ts[m].tok == t && At(ts, m + 1, rest)
    decreases parent, 1
  {
    hide PrintExpr, Derives, Unwritable;
    ExprThen(ts, i, parent, e, 8, line, Tok(t, line) + rest);
    TokenThen(ts, i + |PrintExpr(e, 8, line)|, t, line, rest);
  }

  lemma {:induction false} PrintVectorDerives(ts: seq<LToken>, i: nat, e: Expr, k: nat, line: int)
    requires e.kind.VectorLit? && Unwritable(e) == 0 && At(ts, i, PrintNode(e, line))
    ensures PrintNode(e, line) != [] && DerivesNode(ts, i, i + |PrintNode(e, line)|, k, e)
    decreases e, 2
  {
    hide PrintExpr, Derives, At;
    var VectorLit(x, y, z) := e.kind;
    var closing := Tok(TkOp(OpGt), line);
    var third := PrintExpr(z, 8, line) + closing;
    var second := PrintExpr(y, 8, line) + (Tok(TkComma, line) + third);
    TokenThen(ts, i, TkOp(OpLt), line, PrintExpr(x, 8, line) + (Tok(TkComma, line) + second));
    ComponentThen(ts, i + 1, e, x, TkComma, line, second);
    var m := i + 1 + |PrintExpr(x, 8, line)|;
    ComponentThen(ts, m + 1, e, y, TkComma, line, third);
    var n := m + 1 + |PrintExpr(y, 8, line)|;
    assert closing == closing + [];
    ComponentThen(ts, n + 1, e, z, TkOp(OpGt), line, []);
    assert DerivesVector(ts, i, n + 1 + |PrintExpr(z, 8, line)| + 1, m, n, x, y, z);
  }

  lemma RotParts(e: Expr, line: int)
    requires e.kind.RotLit?
    ensures var last := Tok(TkComma, line) + (PrintExpr(e.kind.w, 8, line) + Tok(TkOp(OpGt), line));
      var tail := Tok(TkComma, line) + (PrintExpr(e.kind.z, 8, line) + last);
      var rest := Tok(TkComma, line) + (PrintExpr(e.kind.y, 8, line) + tail);
      && PrintNode(e, line) == Tok(TkOp(OpLt), line) + (PrintExpr(e.kind.x, 8, line) + rest)
      && |PrintNode(e, line)| == 5 + |PrintExpr(e.kind.x, 8, line)| + |PrintExpr(e.kind.y, 8, line)| +
                                 |PrintExpr(e.kind.z, 8, line)| + |PrintExpr(e.kind.w, 8, line)|
  {
    hide PrintExpr;
  }

  lemma RotNode(ts: seq<LToken>, i: nat, j: nat, m: nat, n: nat, o: nat, e: Expr, k: nat)
    requires e.kind.RotLit? && !e.lv && e.ty == TRotation && i < j <= |ts|
    requires DerivesRot(ts, i, j, m, n, o, e.kind.x, e.kind.y, e.kind.z, e.kind.w)
    ensures DerivesNode(ts, i, j, k, e)
  {
    hide DerivesRot;
  }

  lemma {:induction false} PrintRotDerives(ts: seq<LToken>, i: nat, e: Expr, k: nat, line: int)
    requires e.kind.RotLit? && Unwritable(e) == 0 && At(ts, i, PrintNode(e, line))
    ensures PrintNode(e, line) != [] && DerivesNode(ts, i, i + |PrintNode(e, line)|, k, e)
    decreases e, 2
  {
    hide PrintExpr, PrintNode, Derives, DerivesNode, At;
    RotParts(e, line);
    var RotLit(x, y, z, w) := e.kind;
    var closing := Tok(TkOp(OpGt), line);
    var fourth := PrintExpr(w, 8, line) + closing;
    var third := PrintExpr(z, 8, line) + (Tok(TkComma, line) + fourth);
    var second := PrintExpr(y, 8, line) + (Tok(TkComma, line) + third);
    TokenThen(ts, i, TkOp(OpLt), line, PrintExpr(x, 8, line) + (Tok(TkComma, line) + second));
    ComponentThen(ts, i + 1, e, x, TkComma, line, second);
    var m := i + 1 + |PrintExpr(x, 8, line)|;
    ComponentThen(ts, m + 1, e, y, TkComma, line, third);
    var n := m + 1 + |PrintExpr(y, 8, line)|;
    ComponentThen(ts, n + 1, e, z, TkComma, line, fourth);
    var o := n + 1 + |PrintExpr(z, 8, line)|;
    assert closing == closing + [];
    ComponentThen(ts, o + 1, e, w, TkOp(OpGt), line, []);
    RotNode(ts, i, o + 1 + |PrintExpr(w, 8, line)| + 1, m, n, o, e, k);
  }

  lemma {:induction false} PrintListLitDerives(ts: seq<LToken>, i: nat, e: Expr, k: nat, line: int)
    requires e.kind.ListLit? && Unwritable(e) == 0 && At(ts, i, PrintNode(e, line))
    ensures PrintNode(e, line) != [] && DerivesNode(ts, i, i + |PrintNode(e, line)|, k, e)
    decreases e, 1
  {
    hide PrintExpr, DerivesList;
    var items := e.kind.items;
    TokenThen(ts, i, TkLBrack, line, PrintList(items, 0, line) + Tok(TkRBrack, line));
    AtSplit(ts, i + 1, PrintList(items, 0, line), Tok(TkRBrack, line));
    PrintListDerives(ts, i + 1, items, 0, line);
    AtElement(ts, i + 1 + |PrintList(items, 0, line)|, Tok(TkRBrack, line), 0);
    assert items[0..] == items;
  }

  lemma CallParts(e: Expr, line: int)
    requires e.kind.Call? && Unwritable(e) == 0
    ensures PrintNode(e, line) == Tok(TkIdent(e.kind.fn), line) +
              (Tok(TkLParen, line) + (PrintList(e.kind.args, 0, line) + Tok(TkRParen, line)))
    ensures |PrintNode(e, line)| == |PrintList(e.kind.args, 0, line)| + 3
    ensures UnwritableAll(e.kind.args, 0) == 0
  {
    hide PrintList, UnwritableAll;
  }

  lemma CallNode(ts: seq<LToken>, i: nat, j: nat, e: Expr, k: nat)
    requires e.kind.Call? && !e.lv && e.ty == TError && i + 3 <= j <= |ts|
    requires ts[i].tok == TkIdent(e.kind.fn) && ts[i + 1].tok == TkLParen && ts[j - 1].tok == TkRParen
    requires DerivesList(ts, i + 2, j - 1, e.kind.args)
    ensures DerivesNode(ts, i, j, k, e)
  {
    hide DerivesList;
    assert DerivesNode(ts, i, i + 1, 12, Fresh(Ident(e.kind.fn)));
    assert DerivesCall(ts, i, j, i + 1, e.kind.fn, e.kind.args);
  }

  lemma {:induction false} PrintCallDerives(ts: seq<LToken>, i: nat, e: Expr, k: nat, line: int)
    requires e.kind.Call? && Unwritable(e) == 0 && At(ts, i, PrintNode(e, line))
    ensures PrintNode(e, line) != [] && DerivesNode(ts, i, i + |PrintNode(e, line)|, k, e)
    decreases e, 1
  {
    hide PrintExpr, PrintNode, PrintList, DerivesList, DerivesNode, At;
    CallParts(e, line);
    var Call(fn, args) := e.kind;
    var closing := PrintList(args, 0, line) + Tok(TkRParen, line);
    TokenThen(ts, i, TkIdent(fn), line, Tok(TkLParen, line) + closing);
    TokenThen(ts, i + 1, TkLParen, line, closing);
    AtSplit(ts, i + 2, PrintList(args, 0, line), Tok(TkRParen, line));
    PrintListDerives(ts, i + 2, args, 0, line);
    AtElement(ts, i + 2 + |PrintList(args, 0, line)|, Tok(TkRParen, line), 0);
    assert args[0..] == args;
    CallNode(ts, i, i + |PrintNode(e, line)|, e, k);
  }

  lemma {:induction false} PrintSuffixDerives(ts: seq<LToken>, i: nat, e: Expr, k: nat, line: int)
    requires (e.kind.Member? || e.kind.Postfix?) && Unwritable(e) == 0 && At(ts, i, PrintNode(e, line))
    ensures PrintNode(e, line) != [] && DerivesNode(ts, i, i + |PrintNode(e, line)|, k, e)
    decreases e, 1
  {
    hide PrintExpr, Derives;
    match e.kind
    case Member(base, c) =>
      var rest := Tok(TkDot, line) + Tok(TkIdent([c]), line);
      ExprThen(ts, i, e, base, 12, line, rest);
      var m := i + |PrintExpr(base, 12, line)|;
      TokenThen(ts, m, TkDot, line, Tok(TkIdent([c]), line));
      AtElement(ts, m + 1, Tok(TkIdent([c]), line), 0);
    case Postfix(op, inner) =>
      ExprThen(ts, i, e, inner, 12, line, Tok(TkOp(op), line));
      AtElement(ts, i + |PrintExpr(inner, 12, line)|, Tok(TkOp(op), line), 0);
  }

  lemma {:induction false} PrintPrefixDerives(ts: seq<LToken>, i: nat, e: Expr, k: nat, line: int)
    requires (e.kind.Cast? || e.kind.Unary?) && k <= 11 && Unwritable(e) == 0 && At(ts, i, PrintNode(e, line))
    ensures PrintNode(e, line) != [] && DerivesNode(ts, i, i + |PrintNode(e, line)|, k, e)
    decreases e, 2
  {
    hide PrintNode, PrintExpr, DerivesNode, Derives, At, Unwritable;
    if e.kind.Cast? { PrintCastDerives(ts, i, e, k, line); } else { PrintUnaryDerives(ts, i, e, k, line); }
  }

  lemma {:induction false} PrintCastDerives(ts: seq<LToken>, i: nat, e: Expr, k: nat, line: int)
    requires e.kind.Cast? && k <= 11 && Unwritable(e) == 0 && At(ts, i, PrintNode(e, line))
    ensures PrintNode(e, line) != [] && DerivesNode(ts, i, i + |PrintNode(e, line)|, k, e)
    decreases e, 1
  {
    hide PrintExpr, Derives, At;
    var kw: Token, inner := TkType(KwOfType(e.kind.to)), e.kind.inner;
    var head := Tok(TkLParen, line) + (Tok(kw, line) + Tok(TkRParen, line));
    AtSplit(ts, i, head, PrintExpr(inner, 11, line));
    TokenThen(ts, i, TkLParen, line, Tok(kw, line) + Tok(TkRParen, line));
    TokenThen(ts, i + 1, kw, line, Tok(TkRParen, line));
    AtElement(ts, i + 2, Tok(TkRParen, line), 0);
    PrintExprDerives(ts, i + 3, inner, 11, line);
  }

  lemma {:induction false} PrintUnaryDerives(ts: seq<LToken>, i: nat, e: Expr, k: nat, line: int)
    requires e.kind.Unary? && k <= 11 && Unwritable(e) == 0 && At(ts, i, PrintNode(e, line))
    ensures PrintNode(e, line) != [] && DerivesNode(ts, i, i + |PrintNode(e, line)|, k, e)
    decreases e, 1
  {
    hide PrintExpr, Derives, At;
    TokenThen(ts, i, TkOp(e.kind.op), line, PrintExpr(e.kind.inner, 11, line));
    PrintExprDerives(ts, i + 1, e.kind.inner, 11, line);
  }

  lemma WritableOperands(e: Expr)
    requires (e.kind.Binary? || e.kind.Assign?) && Unwritable(e) == 0
    ensures Unwritable(e.kind.l) == 0 && Unwritable(e.kind.r) == 0
    ensures e.kind.Binary? ==> IsBinaryOp(e.kind.op) && e.ty == TError && !e.lv
    ensures e.kind.Assign? ==> IsAssignOp(e.kind.op) && e.ty == TError && !e.lv
  {
  }

  lemma {:induction false} PrintInfixDerives(ts: seq<LToken>, i: nat, e: Expr, k: nat, line: int)
    requires (e.kind.Binary? || e.kind.Assign?) && k <= NodeLevel(e.kind) && Unwritable(e) == 0
    requires At(ts, i, PrintNode(e, line))
    ensures PrintNode(e, line) != [] && DerivesNode(ts, i, i + |PrintNode(e, line)|, k, e)
    decreases e, 1
  {
    hide PrintExpr, Derives, At, Unwritable, RuleOf, InRule;
    WritableOperands(e);
    var op, l, r := e.kind.op, e.kind.l, e.kind.r;
    ExprThen(ts, i, e, l, LeftLevel(op), line, Tok(TkOp(op), line) + PrintExpr(r, RightLevel(op), line));
    var m := i + |PrintExpr(l, LeftLevel(op), line)|;
    TokenThen(ts, m, TkOp(op), line, PrintExpr(r, RightLevel(op), line));
    PrintExprDerives(ts, m + 1, r, RightLevel(op), line);
    DerivesNonempty(ts, m + 1, m + 1 + |PrintExpr(r, RightLevel(op), line)|, RightLevel(op), r);
    assert DerivesInfix(ts, i, i + |PrintNode(e, line)|, m, op, l, r);
  }

  lemma {:induction false} PrintListDerives(ts: seq<LToken>, i: nat, es: seq<Expr>, k: nat, line: int)
    requires k <= |es| && UnwritableAll(es, k) == 0 && At(ts, i, PrintList(es, k, line))
    ensures DerivesList(ts, i, i + |PrintList(es, k, line)|, es[k..])
    decreases es, |es| - k, 1
  {
    hide PrintExpr, Derives, Unwritable, At, DerivesCons;
    if k == |es| {
      assert es[k..] == [];
    } else if k + 1 == |es| {
      PrintExprDerives(ts, i, es[k], 0, line);
      assert es[k..] == [es[k]];
    } else {
      PrintConsDerives(ts, i, es, k, line);
    }
  }

  lemma PrintListStep(es: seq<Expr>, k: nat, line: int)
    requires k + 1 < |es|
    ensures PrintList(es, k, line) == PrintExpr(es[k], 0, line) + (Tok(TkComma, line) + PrintList(es, k + 1, line))
    ensures UnwritableAll(es, k) == Unwritable(es[k]) + UnwritableAll(es, k + 1)
  {
    hide PrintExpr, Unwritable;
  }

  lemma {:induction false} PrintConsDerives(ts: seq<LToken>, i: nat, es: seq<Expr>, k: nat, line: int)
    requires k + 1 < |es| && UnwritableAll(es, k) == 0 && At(ts, i, PrintList(es, k, line))
    ensures DerivesList(ts, i, i + |PrintList(es, k, line)|, es[k..])
    decreases es, |es| - k, 0
  {
    hide PrintExpr, Derives, Unwritable, At, DerivesList, PrintList, UnwritableAll;
    PrintListStep(es, k, line);
    var rest := Tok(TkComma, line) + PrintList(es, k + 1, line);
    AtSplit(ts, i, PrintExpr(es[k], 0, line), rest);
    PrintExprDerives(ts, i, es[k], 0, line);
    var m := i + |PrintExpr(es[k], 0, line)|;
    DerivesNonempty(ts, i, m, 0, es[k]);
    TokenThen(ts, m, TkComma, line, PrintList(es, k + 1, line));
    PrintListDerives(ts, m + 1, es, k + 1, line);
    PrintListNonempty(ts, m + 1, es, k + 1, line);
    assert es[k..] == [es[k]] + es[k + 1..];
    ConsDerives(ts, i, m + 1 + |PrintList(es, k + 1, line)|, m, es[k], es[k + 1..]);
  }

  lemma PrintListNonempty(ts: seq<LToken>, i: nat, es: seq<Expr>, k: nat, line: int)
    requires k < |es| && i + |PrintList(es, k, line)| <= |ts|
    requires DerivesList(ts, i, i + |PrintList(es, k, line)|, es[k..])
    ensures 0 < |PrintList(es, k, line)|
  {
    hide DerivesNode, DerivesParens, PrintExpr;
    assert es[k..] != [];
  }

  lemma ConsDerives(ts: seq<LToken>, i: nat, j: nat, m: nat, e: Expr, es: seq<Expr>)
    requires i < m < j <= |ts| && es != [] && ts[m].tok == TkComma
    requires Derives(ts, i, m, 0, e) && DerivesList(ts, m + 1, j, es)
    ensures DerivesList(ts, i, j, [e] + es)
  {
    hide Derives;
    assert ([e] + es)[1..] == es;
    assert DerivesCons(ts, i, j, m, [e] + es);
  }
}
