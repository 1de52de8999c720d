/** Parsing undoes printing, and only for trees that source text can produce. */
module PrintExact {
  import opened Syntax
  import opened ParseSpec
  import opened Grammar
  import opened ParseComplete
  import opened Printer
  import opened ScriptPrinter

  // ---------------------------------------------- derived trees are writable

  lemma {:induction false} DerivedWritable(ts: seq<LToken>, i: nat, j: nat, k: nat, e: Expr)
    requires i <= j <= |ts| && Derives(ts, i, j, k, e)
    ensures Unwritable(e) == 0
    decreases j - i, 2
  {
    hide DerivesNode, Unwritable;
    if DerivesParens(ts, i, j, e) {
      DerivedWritable(ts, i + 1, j - 1, 0, e);
    } else {
      NodeWritable(ts, i, j, k, e);
    }
  }

  lemma {:induction false} VectorWritable(ts: seq<LToken>, i: nat, j: nat, k: nat, e: Expr)
    requires i < j <= |ts| && DerivesNode(ts, i, j, k, e) && (e.kind.VectorLit? || e.kind.RotLit?)
    ensures Unwritable(e) == 0
    decreases j - i, 0
  {
    hide Derives, DerivesList, DerivesInfix, DerivesCall, BinaryLevel, IsAssignOp, IsUnaryOp, UnwritableAll;
    if e.kind.VectorLit? {
      var VectorLit(x, y, z) := e.kind;
      var m: nat, n: nat :| DerivesVector(ts, i, j, m, n, x, y, z);
      DerivedWritable(ts, i + 1, m, 8, x);
      DerivedWritable(ts, m + 1, n, 8, y);
      DerivedWritable(ts, n + 1, j - 1, 8, z);
    } else {
      var RotLit(x, y, z, w) := e.kind;
      var m: nat, n: nat, o: nat :| DerivesRot(ts, i, j, m, n, o, x, y, z, w);
      DerivedWritable(ts, i + 1, m, 8, x);
      DerivedWritable(ts, m + 1, n, 8, y);
      DerivedWritable(ts, n + 1, o, 8, z);
      DerivedWritable(ts, o + 1, j - 1, 8, w);
    }
  }

  lemma {:induction false} InfixWritable(ts: seq<LToken>, i: nat, j: nat, k: nat, e: Expr)
    requires i < j <= |ts| && DerivesNode(ts, i, j, k, e) && (e.kind.Binary? || e.kind.Assign?)
    ensures Unwritable(e) == 0
    decreases j - i, 0
  {
    hide Derives, DerivesList, DerivesVector, DerivesRot, DerivesCall, BinaryLevel, IsAssignOp, IsUnaryOp,
         UnwritableAll;
    var op, l, r := e.kind.op, e.kind.l, e.kind.r;
    var m: nat :| DerivesInfix(ts, i, j, m, op, l, r);
    LevelsFit(op);
    DerivedWritable(ts, i, m, LeftLevel(op), l);
    DerivedWritable(ts, m + 1, j, RightLevel(op), r);
  }

  lemma LevelsFit(op: Op)
    ensures LeftLevel(op) <= 12 && RightLevel(op) <= 12
  {
  }

  lemma {:induction false} NodeWritable(ts: seq<LToken>, i: nat, j: nat, k: nat, e: Expr)
    requires i < j <= |ts| && DerivesNode(ts, i, j, k, e)
    ensures Unwritable(e) == 0
    decreases j - i, 1
  {
    hide Derives, DerivesList, DerivesVector, DerivesRot, DerivesInfix, BinaryLevel, IsAssignOp, IsUnaryOp, IsPostfixOp,
         UnwritableAll;
    if e.kind.VectorLit? || e.kind.RotLit? {
      VectorWritable(ts, i, j, k, e);
    } else if e.kind.Binary? || e.kind.Assign? {
      InfixWritable(ts, i, j, k, e);
    } else {
      match e.kind
      case ListLit(items) => ListWritable(ts, i + 1, j - 1, items);
      case Call(fn, args) =>
        var m: nat :| DerivesCall(ts, i, j, m, fn, args);
        ListWritable(ts, m + 1, j - 1, args);
      case Member(base, _) => DerivedWritable(ts, i, j - 2, 12, base);
      case Postfix(_, inner) => DerivedWritable(ts, i, j - 1, 12, inner);
      case Unary(_, inner) => DerivedWritable(ts, i + 1, j, 11, inner);
      case Cast(to, inner) =>
        KeywordType(ts[i + 1].tok.kw);
        DerivedWritable(ts, i + 3, j, 11, inner);
      case _ =>
    }
  }

  lemma KeywordType(kw: TypeKw)
    ensures IsKeywordType(TypeOfKw(kw))
  {
  }

  lemma {:induction false} ListWritable(ts: seq<LToken>, i: nat, j: nat, es: seq<Expr>)
    requires i <= j <= |ts| && DerivesList(ts, i, j, es)
    ensures UnwritableAll(es, 0) == 0
    decreases j - i, 3
  {
    hide Derives, Unwritable;
    if |es| == 1 {
      DerivedWritable(ts, i, j, 0, es[0]);
    } else if |es| > 1 {
      var m: nat :| DerivesCons(ts, i, j, m, es);
      DerivedWritable(ts, i, m, 0, es[0]);
      ListWritable(ts, m + 1, j, es[1..]);
      UnwritableShift(es, 0);
    }
  }

  lemma {:induction false} UnwritableShift(es: seq<Expr>, k: nat)
    requires k < |es|
    ensures UnwritableAll(es, k + 1) == UnwritableAll(es[1..], k)
    decreases |es| - k
  {
    hide Unwritable;
    if k + 1 < |es| { UnwritableShift(es, k + 1); }
  }

  lemma OptWritable(ts: seq<LToken>, i: nat, j: nat, e: Option<Expr>)
    requires i <= j <= |ts| && (DerivesOpt(ts, i, j, e) || DerivesInit(ts, i, j, e))
    ensures UnwritableOpt(e) == 0
  {
    hide Derives, Unwritable;
    if e.Some? {
      if DerivesOpt(ts, i, j, e) { DerivedWritable(ts, i, j, 0, e.value); }
      else { DerivedWritable(ts, i + 1, j, 0, e.value); }
    }
  }

  lemma {:induction false} StmtWritable(ts: seq<LToken>, i: nat, j: nat, s: Stmt)
    requires i <= j <= |ts| && DerivesStmt(ts, i, j, s)
    ensures UnwritableStmt(s) == 0
    decreases j - i, 1
  {
    hide Derives, DerivesList, DerivesStmts, DerivesInit, DerivesOpt, Unwritable, UnwritableAll, UnwritableOpt;
    match s.kind
    case ExprStmt(e) =>
      if Derives(ts, i, j - 1, 0, e) { DerivedWritable(ts, i, j - 1, 0, e); }
      else { PrintWritable(ts, i, j - 1, e); }
    case Decl(_, _, init) => OptWritable(ts, i + 2, j - 1, init);
    case Block(stmts) => StmtsWritable(ts, i + 1, j - 1, stmts);
    case If(cond, thn, els) =>
      var m: nat, n: nat :| DerivesIf(ts, i, j, m, n, cond, thn, els);
      DerivedWritable(ts, i + 2, m - 1, 0, cond);
      StmtWritable(ts, m, n, thn);
      if els.Some? { StmtWritable(ts, n + 1, j, els.value); }
    case While(cond, body) =>
      var m: nat :| DerivesWhile(ts, i, j, m, cond, body);
      DerivedWritable(ts, i + 2, m - 1, 0, cond);
      StmtWritable(ts, m, j, body);
    case DoWhile(body, cond) =>
      var m: nat :| DerivesDo(ts, i, j, m, body, cond);
      StmtWritable(ts, i + 1, m, body);
      DerivedWritable(ts, m + 2, j - 2, 0, cond);
    case For(inits, test, posts, body) =>
      var a: nat, b: nat, c: nat :| DerivesFor(ts, i, j, a, b, c, inits, test, posts, body);
      ListWritable(ts, i + 2, a, inits);
      OptWritable(ts, a + 1, b, test);
      ListWritable(ts, b + 1, c, posts);
      StmtWritable(ts, c + 1, j, body);
    case Return(result) => OptWritable(ts, i + 1, j - 1, result);
    case _ =>
  }

  lemma PrintWritable(ts: seq<LToken>, i: nat, j: nat, e: Expr)
    requires i <= j <= |ts| && DerivesPrint(ts, i, j, e)
    ensures Unwritable(e) == 0
  {
    hide Derives;
    var x := e.kind.args[0];
    DerivedWritable(ts, i + 2, j - 1, 0, x);
    assert UnwritableAll(e.kind.args, 1) == 0;
    assert UnwritableAll(e.kind.args, 0) == Unwritable(x) + UnwritableAll(e.kind.args, 1);
  }

  lemma {:induction false} StmtsWritable(ts: seq<LToken>, i: nat, j: nat, ss: seq<Stmt>)
    requires i <= j <= |ts| && DerivesStmts(ts, i, j, ss)
    ensures UnwritableStmts(ss, 0) == 0
    decreases j - i, 3, |ss|
  {
    hide DerivesStmt, UnwritableStmt;
    if ss != [] {
      var m: nat :| DerivesStmtCons(ts, i, j, m, ss);
      StmtWritable(ts, i, m, ss[0]);
      StmtsWritable(ts, m, j, ss[1..]);
      UnwritableStmtsShift(ss, 0);
    }
  }

  lemma {:induction false} UnwritableStmtsShift(ss: seq<Stmt>, k: nat)
    requires k < |ss|
    ensures UnwritableStmts(ss, k + 1) == UnwritableStmts(ss[1..], k)
    decreases |ss| - k
  {
    hide UnwritableStmt;
    if k + 1 < |ss| { UnwritableStmtsShift(ss, k + 1); }
  }

  lemma {:induction false} ParamsWritable(ts: seq<LToken>, i: nat, j: nat, ps: seq<Param>)
    requires i <= j <= |ts| && DerivesParams(ts, i, j, ps)
    ensures WritableParams(ps)
    decreases j - i
  {
    if |ps| > 1 {
      ParamsWritable(ts, i + 3, j, ps[1..]);
      assert ps == [ps[0]] + ps[1..];
    }
  }

  lemma SignatureWritable(ts: seq<LToken>, i: nat, j: nat, ps: seq<Param>, body: Stmt)
    requires i <= j <= |ts| && DerivesSignature(ts, i, j, ps, body)
    ensures WritableParams(ps) && body.kind.Block? && UnwritableStmt(body) == 0
  {
    hide DerivesParams, DerivesStmt, WritableParams, UnwritableStmt;
    var m: nat :| SignatureAt(ts, i, j, m, ps, body);
    ParamsWritable(ts, i + 1, m, ps);
    StmtWritable(ts, m + 1, j, body);
  }

  lemma {:induction false} EventsWritable(ts: seq<LToken>, i: nat, j: nat, es: seq<Event>)
    requires i <= j <= |ts| && DerivesEvents(ts, i, j, es)
    ensures forall k :: 0 <= k < |es| ==> WritableEvent(es[k])
    decreases |es|
  {
    hide DerivesSignature, WritableParams, UnwritableStmt;
    if es != [] {
      var m: nat :| DerivesEventCons(ts, i, j, m, es);
      SignatureWritable(ts, i + 1, m, es[0].params, es[0].body);
      EventsWritable(ts, m, j, es[1..]);
      assert es == [es[0]] + es[1..];
    }
  }

  lemma DeclWritable(ts: seq<LToken>, i: nat, j: nat, d: TopDecl)
    requires i <= j <= |ts| && DerivesDecl(ts, i, j, d)
    ensures WritableDecl(d)
  {
    hide DerivesSignature, DerivesEvents, DerivesInit, WritableParams, UnwritableStmt, UnwritableOpt, WritableEvent;
    match d
    case DGlobal(g) => OptWritable(ts, i + 2, j - 1, g.init);
    case DFunc(f) => SignatureWritable(ts, if f.hasRet then i + 2 else i + 1, j, f.params, f.body);
    case DState(s) => EventsWritable(ts, if s.isDefault then i + 2 else i + 3, j - 1, s.events);
  }

  lemma {:induction false} DeclsWritable(ts: seq<LToken>, i: nat, ds: seq<TopDecl>, sc: Script)
    requires i <= |ts| && DerivesDecls(ts, i, ds) && Writable(sc)
    ensures Writable(Collected(sc, ds))
    decreases |ds|
  {
    hide DerivesDecl, WritableGlobal, WritableFunc, WritableState;
    if ds != [] {
      var m: nat :| DerivesDeclCons(ts, i, m, ds);
      DeclWritable(ts, i, m, ds[0]);
      DeclsWritable(ts, m, ds[1..], AddDecl(sc, ds[0]));
    }
  }

  // ------------------------------------------------------------ the result

  /** The round trip: parsing the tokens of a script returns the script, without an
      error and with no token left over, exactly when source text can produce it. */
  lemma ParseUndoesPrint(sc: Script, maxErrors: int)
    requires 0 < maxErrors
    ensures Writable(sc) <==>
            ParseScript(PrintScript(sc), maxErrors) == Parsed(sc, |PrintScript(sc)|, 0)
  {
    hide Writable, ParseScript, PrintScript, DerivesDecls, Collected;
    var ts := PrintScript(sc);
    ParserExact(ts, maxErrors, sc);
    if Writable(sc) {
      PrintScriptDerives(sc);
    }
    if DerivesScript(ts, sc) {
      var ds :| DerivesDecls(ts, 0, ds) && sc == ScriptOf(ds);
      assert Writable(EMPTY_SCRIPT) by { EmptyWritable(); }
      DeclsWritable(ts, 0, ds, EMPTY_SCRIPT);
    }
  }

  lemma EmptyWritable()
    ensures Writable(EMPTY_SCRIPT)
  {
  }

  /** The same for one expression in any context: at every level, whatever token
      follows, as long as it cannot extend the expression. */
  lemma ExprRoundTrip(ts: seq<LToken>, i: nat, e: Expr, k: nat, line: int)
    requires k <= 12 && Unwritable(e) == 0
    requires var j := i + |PrintExpr(e, k, line)|;
             j <= |ts| && ts[i..j] == PrintExpr(e, k, line) && Stops(ts, j, k)
    ensures ParseLevel(ts, i, k) == Parsed(e, i + |PrintExpr(e, k, line)|, 0)
  {
    hide PrintExpr, Derives, Unwritable, ParseLevel;
    PrintExprDerives(ts, i, e, k, line);
    LevelComplete(ts, i, i + |PrintExpr(e, k, line)|, k, e);
  }

  /** And for one statement, before any token that is not an `else` it would take. */
  lemma StmtRoundTrip(ts: seq<LToken>, i: nat, s: Stmt)
    requires UnwritableStmt(s) == 0
    requires var j := i + |PrintStmt(s)|;
             j <= |ts| && ts[i..j] == PrintStmt(s) && (Open(s) ==> !AtTok(ts, j, TkElse))
    ensures ParseStmt(ts, i) == Parsed(s, i + |PrintStmt(s)|, 0)
  {
    hide PrintStmt, DerivesStmt, UnwritableStmt, ParseStmt;
    PrintStmtDerives(ts, i, s);
    StmtComplete(ts, i, i + |PrintStmt(s)|, s);
  }
}
