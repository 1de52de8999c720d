/** Which scripts the checker decides by the rules of the language, whatever memory holds. */
module LongScripts {
  import opened Syntax
  import opened Seqs
  import opened Builtins
  import opened Typing
  import opened Fold
  import opened Judgement
  import opened CheckSpec
  import opened CheckProgram
  import opened LongCalls

  // ----------------------------------------------------- a condition on the text

  /** No function of these names is called. */
  predicate Avoids(names: seq<string>, e: Expr)
    decreases e
  {
    match e.kind
    case VectorLit(x, y, z) => Avoids(names, x) && Avoids(names, y) && Avoids(names, z)
    case RotLit(x, y, z, w) => Avoids(names, x) && Avoids(names, y) && Avoids(names, z) && Avoids(names, w)
    case ListLit(items) => AllAvoid(names, items)
    case Call(fn, args) => fn !in names && AllAvoid(names, args)
    case Member(base, _) => Avoids(names, base)
    case Cast(_, x) => Avoids(names, x)
    case Unary(_, x) => Avoids(names, x)
    case Postfix(_, x) => Avoids(names, x)
    case Binary(_, l, r) => Avoids(names, l) && Avoids(names, r)
    case Assign(_, l, r) => Avoids(names, l) && Avoids(names, r)
    case _ => true
  }

  predicate AllAvoid(names: seq<string>, es: seq<Expr>)
    decreases es
  {
    forall i :: 0 <= i < |es| ==> Avoids(names, es[i])
  }

  predicate OptionAvoids(names: seq<string>, e: Option<Expr>) {
    e.Some? ==> Avoids(names, e.value)
  }

  predicate StmtAvoids(names: seq<string>, s: Stmt)
    decreases s
  {
    match s.kind
    case ExprStmt(e) => Avoids(names, e)
    case Decl(_, _, init) => OptionAvoids(names, init)
    case Block(stmts) => StmtsAvoid(names, stmts)
    case If(cond, thn, els) =>
      Avoids(names, cond) && StmtAvoids(names, thn) && (els.Some? ==> StmtAvoids(names, els.value))
    case While(cond, body) => Avoids(names, cond) && StmtAvoids(names, body)
    case DoWhile(body, cond) => StmtAvoids(names, body) && Avoids(names, cond)
    case For(inits, test, posts, body) =>
      AllAvoid(names, inits) && OptionAvoids(names, test) && AllAvoid(names, posts) && StmtAvoids(names, body)
    case Return(result) => OptionAvoids(names, result)
    case _ => true
  }

  predicate StmtsAvoid(names: seq<string>, ss: seq<Stmt>)
    decreases ss
  {
    ss != [] ==> StmtAvoids(names, ss[0]) && StmtsAvoid(names, ss[1..])
  }

  /** The functions with more parameters than a symbol has room for. */
  function LongNames(fs: seq<Func>): seq<string> {
    if fs == [] then []
    else (if |fs[0].params| > STORED_MAX then [fs[0].name] else []) + LongNames(fs[1..])
  }

  /** Every user's function that is called has at most sixteen parameters. */
  predicate CallsFit(s: Script) {
    var long := LongNames(s.funcs);
    && (forall i :: 0 <= i < |s.funcs| ==> StmtAvoids(long, s.funcs[i].body))
    && (forall i, j :: 0 <= i < |s.states| && 0 <= j < |s.states[i].events| ==>
          StmtAvoids(long, s.states[i].events[j].body))
  }

  lemma {:induction false} AvoidsStripped(names: seq<string>, e: Expr)
    ensures Avoids(names, Strip(e)) <==> Avoids(names, e)
    decreases e
  {
    match e.kind
    case VectorLit(x, y, z) =>
      AvoidsStripped(names, x);
      AvoidsStripped(names, y);
      AvoidsStripped(names, z);
    case RotLit(x, y, z, w) =>
      AvoidsStripped(names, x);
      AvoidsStripped(names, y);
      AvoidsStripped(names, z);
      AvoidsStripped(names, w);
    case ListLit(items) => AllAvoidStripped(names, items);
    case Call(_, args) => AllAvoidStripped(names, args);
    case Member(base, _) => AvoidsStripped(names, base);
    case Cast(_, x) => AvoidsStripped(names, x);
    case Unary(_, x) => AvoidsStripped(names, x);
    case Postfix(_, x) => AvoidsStripped(names, x);
    case Binary(_, l, r) =>
      AvoidsStripped(names, l);
      AvoidsStripped(names, r);
    case Assign(_, l, r) =>
      AvoidsStripped(names, l);
      AvoidsStripped(names, r);
    case _ =>
  }

  lemma {:induction false} AllAvoidStripped(names: seq<string>, es: seq<Expr>)
    ensures AllAvoid(names, StripAll(es)) <==> AllAvoid(names, es)
    decreases es
  {
    hide Avoids, Strip;
    var bare := StripAll(es);
    forall i | 0 <= i < |es|
      ensures Avoids(names, bare[i]) <==> Avoids(names, es[i])
    {
      AvoidsStripped(names, es[i]);
    }
    if AllAvoid(names, bare) {
      forall i | 0 <= i < |es| ensures Avoids(names, es[i]) { assert Avoids(names, bare[i]); }
    }
  }

  lemma {:induction false} StmtAvoidsStripped(names: seq<string>, s: Stmt)
    ensures StmtAvoids(names, StripStmt(s)) <==> StmtAvoids(names, s)
    decreases s
  {
    hide Avoids, Strip, AllAvoid, StripAll, StmtsAvoid, StripStmts;
    match s.kind
    case ExprStmt(e) => AvoidsStripped(names, e);
    case Decl(_, _, init) => if init.Some? { AvoidsStripped(names, init.value); }
    case Block(stmts) => StmtsAvoidStripped(names, stmts);
    case If(cond, thn, els) =>
      AvoidsStripped(names, cond);
      StmtAvoidsStripped(names, thn);
      if els.Some? { StmtAvoidsStripped(names, els.value); }
    case While(cond, body) =>
      AvoidsStripped(names, cond);
      StmtAvoidsStripped(names, body);
    case DoWhile(body, cond) =>
      StmtAvoidsStripped(names, body);
      AvoidsStripped(names, cond);
    case For(inits, test, posts, body) =>
      AllAvoidStripped(names, inits);
      if test.Some? { AvoidsStripped(names, test.value); }
      AllAvoidStripped(names, posts);
      StmtAvoidsStripped(names, body);
    case Return(result) => if result.Some? { AvoidsStripped(names, result.value); }
    case _ =>
  }

  lemma {:induction false} StmtsAvoidStripped(names: seq<string>, ss: seq<Stmt>)
    ensures StmtsAvoid(names, StripStmts(ss)) <==> StmtsAvoid(names, ss)
    decreases ss
  {
    hide StmtAvoids, StripStmt;
    if ss != [] {
      StmtAvoidsStripped(names, ss[0]);
      StmtsAvoidStripped(names, ss[1..]);
      assert StripStmts(ss)[1..] == StripStmts(ss[1..]);
    }
  }

  // ---------------------------------------- then memory has no say in any annotation

  ghost predicate LongAmong(top: Scope, names: seq<string>) {
    forall n :: n in top && top[n].kind == SymFunc && |top[n].params| > STORED_MAX ==> n in names
  }

  lemma {:induction false} AvoidingCovered(top: Scope, names: seq<string>, e: Expr)
    requires LongAmong(top, names) && Avoids(names, e)
    ensures Covered(top, e)
    decreases e
  {
    match e.kind
    case VectorLit(x, y, z) =>
      AvoidingCovered(top, names, x);
      AvoidingCovered(top, names, y);
      AvoidingCovered(top, names, z);
    case RotLit(x, y, z, w) =>
      AvoidingCovered(top, names, x);
      AvoidingCovered(top, names, y);
      AvoidingCovered(top, names, z);
      AvoidingCovered(top, names, w);
    case ListLit(items) => AllAvoidingCovered(top, names, items);
    case Call(_, args) => AllAvoidingCovered(top, names, args);
    case Member(base, _) => AvoidingCovered(top, names, base);
    case Cast(_, x) => AvoidingCovered(top, names, x);
    case Unary(_, x) => AvoidingCovered(top, names, x);
    case Postfix(_, x) => AvoidingCovered(top, names, x);
    case Binary(_, l, r) =>
      AvoidingCovered(top, names, l);
      AvoidingCovered(top, names, r);
    case Assign(_, l, r) =>
      AvoidingCovered(top, names, l);
      AvoidingCovered(top, names, r);
    case _ =>
  }

  lemma {:induction false} AllAvoidingCovered(top: Scope, names: seq<string>, es: seq<Expr>)
    requires LongAmong(top, names) && AllAvoid(names, es)
    ensures AllCovered(top, es)
    decreases es
  {
    hide LongAmong, Avoids, Covered;
    forall i | 0 <= i < |es|
      ensures Covered(top, es[i])
    {
      AvoidingCovered(top, names, es[i]);
    }
  }

  lemma {:induction false} StmtAvoidingCovered(top: Scope, names: seq<string>, s: Stmt)
    requires LongAmong(top, names) && StmtAvoids(names, s)
    ensures StmtCovered(top, s)
    decreases s
  {
    hide LongAmong, Avoids, Covered, AllAvoid, AllCovered, StmtsAvoid, StmtsCovered;
    match s.kind
    case ExprStmt(e) => AvoidingCovered(top, names, e);
    case Decl(_, _, init) => if init.Some? { AvoidingCovered(top, names, init.value); }
    case Block(stmts) => StmtsAvoidingCovered(top, names, stmts);
    case If(cond, thn, els) =>
      AvoidingCovered(top, names, cond);
      StmtAvoidingCovered(top, names, thn);
      if els.Some? { StmtAvoidingCovered(top, names, els.value); }
    case While(cond, body) =>
      AvoidingCovered(top, names, cond);
      StmtAvoidingCovered(top, names, body);
    case DoWhile(body, cond) =>
      StmtAvoidingCovered(top, names, body);
      AvoidingCovered(top, names, cond);
    case For(inits, test, posts, body) =>
      AllAvoidingCovered(top, names, inits);
      if test.Some? { AvoidingCovered(top, names, test.value); }
      AllAvoidingCovered(top, names, posts);
      StmtAvoidingCovered(top, names, body);
    case Return(result) => if result.Some? { AvoidingCovered(top, names, result.value); }
    case _ =>
  }

  lemma {:induction false} StmtsAvoidingCovered(top: Scope, names: seq<string>, ss: seq<Stmt>)
    requires LongAmong(top, names) && StmtsAvoid(names, ss)
    ensures StmtsCovered(top, ss)
    decreases ss
  {
    hide LongAmong, StmtAvoids, StmtCovered;
    if ss != [] {
      StmtAvoidingCovered(top, names, ss[0]);
      StmtsAvoidingCovered(top, names, ss[1..]);
    }
  }

  lemma {:induction false} LongNamed(fs: seq<Func>, i: nat)
    requires i < |fs| && |fs[i].params| > STORED_MAX
    ensures fs[i].name in LongNames(fs)
    decreases i
  {
    if i > 0 { LongNamed(fs[1..], i - 1); }
  }

  lemma TopLongAmong(s: Script)
    ensures LongAmong(TopScope(s), LongNames(s.funcs))
  {
    hide Extend, LongNames;
    var globals, top := GlobalScope(s), TopScope(s);
    var funcs := Extend(globals, FuncNames(s.funcs), FuncSyms(s.funcs));
    GlobalsAreNoFuncs(s);
    forall n | n in top && top[n].kind == SymFunc && |top[n].params| > STORED_MAX
      ensures n in LongNames(s.funcs)
    {
      ExtendFrom(funcs, StateNames(s.states), StateSyms(s.states), n);
      ExtendFrom(globals, FuncNames(s.funcs), FuncSyms(s.funcs), n);
      var i :| 0 <= i < |s.funcs| && FuncNames(s.funcs)[i] == n && funcs[n] == FuncSyms(s.funcs)[i];
      LongNamed(s.funcs, i);
    }
  }

  lemma BodyStripped(names: seq<string>, s: Stmt, a: Stmt)
    requires StripStmt(a) == StripStmt(s) && StmtAvoids(names, s)
    ensures StmtsAvoid(names, BodyOf(a))
  {
    hide StmtsAvoid, StripStmts, Strip, StripAll, Avoids;
    StmtAvoidsStripped(names, s);
    StmtAvoidsStripped(names, a);
    if !a.kind.Block? { NoneAvoid(names); }
  }

  lemma NoneAvoid(names: seq<string>)
    ensures StmtsAvoid(names, [])
  {
  }

  lemma FittingCovered(s: Script, a: Script)
    requires CallsFit(s) && StripScript(a) == StripScript(s)
    ensures ScriptCovered(a)
  {
    hide StmtAvoids, StmtsAvoid, StmtsCovered, StripStmt, TopScope, LongNames, LongAmong, BodyOf;
    var top, long := TopScope(a), LongNames(s.funcs);
    SameExact(s, a);
    SameNames(s, a);
    TopLongAmong(s);
    forall i | 0 <= i < |a.funcs|
      ensures BodyCovered(top, a.funcs[i].body)
    {
      assert SameFunc(s.funcs[i], a.funcs[i]);
      BodyStripped(long, s.funcs[i].body, a.funcs[i].body);
      StmtsAvoidingCovered(top, long, BodyOf(a.funcs[i].body));
    }
    forall i | 0 <= i < |a.states|
      ensures StateCovered(top, a.states[i])
    {
      assert SameState(s.states[i], a.states[i]);
      var es, events := s.states[i].events, a.states[i].events;
      forall j | 0 <= j < |events|
        ensures BodyCovered(top, events[j].body)
      {
        assert StripEvents(events)[j] == StripEvents(es)[j];
        BodyStripped(long, es[j].body, events[j].body);
        StmtsAvoidingCovered(top, long, BodyOf(events[j].body));
      }
    }
  }

  /** A script that calls no function with more than sixteen parameters is accepted exactly
      when it keeps the rules of the language, whatever memory holds; and the output is its
      one annotation, with the initialisers of globals folded. */
  lemma DecidedByRules(ops: FloatOps, bi: Tables, lso: bool, s: Script)
    requires TablesOk(bi) && ProperScript(s) && CallsFit(s)
    ensures CheckScript(ops, bi, lso, s).errs == 0 <==> KeepsRules(ops, bi, lso, s)
    ensures forall a :: StripScript(a) == StripScript(s) && WellScript(ops, Language(bi), lso, a) ==>
              CheckScript(ops, bi, lso, s) == Checked(FoldInits(ops, bi, a), 0)
  {
    hide TablesOk, ProperScript, CallsFit, CheckScript, StripScript, WellScript, FoldInits, ScriptCovered;
    ScriptAccepted(ops, bi, lso, s);
    if CheckScript(ops, bi, lso, s).errs == 0 {
      var a :| StripScript(a) == StripScript(s) && WellScript(ops, bi, lso, a);
      FittingCovered(s, a);
      ScriptMoved(ops, bi, lso, AsDeclared, a);
    }
    forall a | StripScript(a) == StripScript(s) && WellScript(ops, Language(bi), lso, a)
      ensures CheckScript(ops, bi, lso, s) == Checked(FoldInits(ops, bi, a), 0)
    {
      FittingCovered(s, a);
      ScriptMoved(ops, Language(bi), lso, bi.beyond, a);
      assert Language(bi).(beyond := bi.beyond) == bi;
    }
  }

  // ------------------------------------------------------------ and when in general

  /** Two annotations of a script that keep the rules under one memory agree on what memory
      judges. */
  lemma CoveredAlike(ops: FloatOps, bi: Tables, lso: bool, s: Script, a: Script, b: Script)
    requires TablesOk(bi) && ProperScript(s)
    requires StripScript(a) == StripScript(s) && WellScript(ops, bi, lso, a)
    requires StripScript(b) == StripScript(s) && WellScript(ops, bi, lso, b)
    ensures a.funcs == b.funcs && a.states == b.states && (ScriptCovered(a) <==> ScriptCovered(b))
  {
    hide TablesOk, ProperScript, CheckScript, StripScript, WellScript, FoldInit, TopScope, SameScript, BodyCovered,
         StateCovered;
    ScriptComplete(ops, bi, lso, s, a);
    ScriptComplete(ops, bi, lso, s, b);
    assert FoldInits(ops, bi, a).funcs == a.funcs && FoldInits(ops, bi, b).funcs == b.funcs;
    assert FoldInits(ops, bi, a).states == a.states && FoldInits(ops, bi, b).states == b.states;
    SameExact(s, a);
    SameExact(s, b);
    SameNames(s, a);
    SameNames(s, b);
  }

  /** No annotation that is right up to what memory judges leaves memory anything to judge. */
  ghost predicate NothingToJudge(ops: FloatOps, bi: Tables, lso: bool, s: Script) {
    forall a :: StripScript(a) == StripScript(s) && WellScript(ops, bi.(beyond := KIND), lso, a) ==> ScriptCovered(a)
  }

  /** The exact condition: the checker decides a script by the rules of the language whatever
      memory holds if and only if there is nothing for memory to judge. */
  lemma DecidedExactly(ops: FloatOps, bi: Tables, lso: bool, s: Script)
    requires TablesOk(bi) && ProperScript(s)
    ensures (forall cell :: Accepts(ops, Memory(bi, cell), lso, s) <==> KeepsRules(ops, bi, lso, s)) <==>
            NothingToJudge(ops, bi, lso, s)
  {
    hide TablesOk, ProperScript, Accepts, KeepsRules, StripScript, WellScript, ScriptCovered;
    if NothingToJudge(ops, bi, lso, s) {
      forall cell
        ensures Accepts(ops, Memory(bi, cell), lso, s) <==> KeepsRules(ops, bi, lso, s)
      {
        DecidedUnder(ops, bi, lso, s, cell);
      }
    }
    if forall cell :: Accepts(ops, Memory(bi, cell), lso, s) <==> KeepsRules(ops, bi, lso, s) {
      forall a | StripScript(a) == StripScript(s) && WellScript(ops, bi.(beyond := KIND), lso, a)
        ensures ScriptCovered(a)
      {
        CoveredIfDecided(ops, bi, lso, s, a);
      }
    }
  }

  lemma WeakestOfAll(b: Beyond)
    ensures Weaker(b, KIND)
  {
    hide CellRule;
    forall fn, i, want, got | PassRule(b, fn, i, want, got)
      ensures PassRule(KIND, fn, i, want, got)
    {
      AnythingPasses(fn, i, got);
    }
  }

  lemma AnythingPasses(fn: string, i: nat, got: Type)
    ensures CellRule(KIND.cell(fn, i), got)
  {
  }

  lemma DecidedUnder(ops: FloatOps, bi: Tables, lso: bool, s: Script, cell: (string, nat) -> Option<Type>)
    requires TablesOk(bi) && ProperScript(s)
    requires NothingToJudge(ops, bi, lso, s)
    ensures Accepts(ops, Memory(bi, cell), lso, s) <==> KeepsRules(ops, bi, lso, s)
  {
    hide TablesOk, ProperScript, Accepts, StripScript, WellScript, ScriptCovered, Weaker;
    var memory := FromMemory(cell);
    AcceptedIff(ops, bi, lso, memory, s);
    WeakestOfAll(memory);
    WeakestOfAll(AsDeclared);
    if Accepts(ops, Memory(bi, cell), lso, s) {
      var a :| StripScript(a) == StripScript(s) && WellScript(ops, bi.(beyond := memory), lso, a);
      ScriptMoved(ops, bi.(beyond := memory), lso, KIND, a);
      ScriptMoved(ops, bi.(beyond := memory), lso, AsDeclared, a);
      assert bi.(beyond := memory).(beyond := AsDeclared) == Language(bi);
    }
    if KeepsRules(ops, bi, lso, s) {
      var a :| StripScript(a) == StripScript(s) && WellScript(ops, Language(bi), lso, a);
      ScriptMoved(ops, Language(bi), lso, KIND, a);
      assert Language(bi).(beyond := KIND) == bi.(beyond := KIND);
      ScriptMoved(ops, Language(bi), lso, memory, a);
      assert Language(bi).(beyond := memory) == bi.(beyond := memory);
    }
  }

  lemma CoveredIfDecided(ops: FloatOps, bi: Tables, lso: bool, s: Script, a: Script)
    requires TablesOk(bi) && ProperScript(s)
    requires forall cell :: Accepts(ops, Memory(bi, cell), lso, s) <==> KeepsRules(ops, bi, lso, s)
    requires StripScript(a) == StripScript(s) && WellScript(ops, bi.(beyond := KIND), lso, a)
    ensures ScriptCovered(a)
  {
    hide TablesOk, ProperScript, Accepts, KeepsRules, StripScript, WellScript, ScriptCovered, Weaker;
    AcceptedIff(ops, bi, lso, KIND, s);
    assert Memory(bi, KIND.cell) == bi.(beyond := KIND);
    AcceptedIff(ops, bi, lso, HOSTILE, s);
    assert Memory(bi, HOSTILE.cell) == bi.(beyond := HOSTILE);
    var b :| StripScript(b) == StripScript(s) && WellScript(ops, bi.(beyond := HOSTILE), lso, b);
    ScriptFound(ops, bi.(beyond := HOSTILE), lso, b);
    WeakestOfAll(HOSTILE);
    ScriptMoved(ops, bi.(beyond := HOSTILE), lso, KIND, b);
    SameTables(bi);
    CoveredAlike(ops, bi.(beyond := KIND), lso, s, a, b);
  }

  lemma SameTables(bi: Tables)
    requires TablesOk(bi)
    ensures TablesOk(bi.(beyond := KIND)) && bi.(beyond := HOSTILE).(beyond := KIND) == bi.(beyond := KIND)
  {
  }

  /** If a script that keeps the rules is accepted, then with the annotation that the rules
      give it, whatever memory holds. */
  lemma AcceptedAsRead(ops: FloatOps, bi: Tables, lso: bool, s: Script, a: Script)
    requires TablesOk(bi) && ProperScript(s) && CheckScript(ops, bi, lso, s).errs == 0
    requires StripScript(a) == StripScript(s) && WellScript(ops, Language(bi), lso, a)
    ensures CheckScript(ops, bi, lso, s) == Checked(FoldInits(ops, bi, a), 0)
  {
    hide TablesOk, ProperScript, CheckScript, StripScript, WellScript, Weaker;
    ScriptAccepted(ops, bi, lso, s);
    var b :| StripScript(b) == StripScript(s) && WellScript(ops, bi, lso, b);
    var kind := bi.(beyond := KIND);
    WeakestOfAll(bi.beyond);
    WeakestOfAll(AsDeclared);
    ScriptMoved(ops, bi, lso, KIND, b);
    ScriptMoved(ops, Language(bi), lso, KIND, a);
    assert Language(bi).(beyond := KIND) == kind;
    assert TablesOk(kind) by { SameTables(bi); }
    ScriptComplete(ops, kind, lso, s, a);
    ScriptComplete(ops, kind, lso, s, b);
    InitsMoved(ops, bi, KIND, a);
    InitsMoved(ops, bi, KIND, b);
  }

  lemma InitsMoved(ops: FloatOps, bi: Tables, b: Beyond, s: Script)
    ensures FoldInits(ops, bi.(beyond := b), s) == FoldInits(ops, bi, s)
  {
    hide FoldExpr;
    var x, y := FoldInits(ops, bi.(beyond := b), s), FoldInits(ops, bi, s);
    forall i | 0 <= i < |s.globals|
      ensures x.globals[i] == y.globals[i]
    {
      if s.globals[i].init.Some? { FoldMoved(ops, bi, b, s.globals[i].init.value); }
    }
    assert x.globals == y.globals;
  }

  // ---------------------------------------------------- a script that shows the limit

  /** A name of `k + 1` letters, so that they all differ. */
  function ParamName(k: nat): (r: string)
    ensures |r| == k + 1
  {
    seq(k + 1, _ => 'p')
  }

  function IntParams(n: nat): (r: seq<Param>)
    ensures |r| == n
  {
    seq(n, k requires 0 <= k < n => Param(TInteger, ParamName(k)))
  }

  function Zeros(n: nat): (r: seq<Expr>)
    ensures |r| == n
  {
    seq(n, k requires 0 <= k < n => Node(TInteger, false, IntLit(0)))
  }

  function CallOf(n: nat): Expr {
    Node(TVoid, false, Call("f", Zeros(n)))
  }

  /** `f(integer p, ..) { f(0, ..); } default { }` with `n` parameters, annotated. */
  function LongScript(n: nat): Script {
    Script([],
      [Func(TVoid, false, "f", IntParams(n), Stmt(1, Block([Stmt(1, ExprStmt(CallOf(n)))])), 1)],
      [State("default", true, [], 1)])
  }

  lemma LongTop(n: nat)
    ensures var top := TopScope(LongScript(n));
      "f" in top && top["f"] == Sym(SymFunc, TVoid, ParamTypes(IntParams(n)))
    ensures NoDup(TopNames(LongScript(n)))
  {
    var s := LongScript(n);
    assert FuncNames(s.funcs) == ["f"] && FuncSyms(s.funcs) == [Sym(SymFunc, TVoid, ParamTypes(IntParams(n)))];
    assert StateNames(s.states) == ["default"] && GlobalNames(s.globals) == [];
    assert TopNames(s) == ["f", "default"];
    var f := FuncSyms(s.funcs)[0];
    var d := StateSyms(s.states)[0];
    assert GlobalScope(s) == map[];
    assert Extend(map[], ["f"], [f]) == Extend(map["f" := f], ["f"][1..], [f][1..]) == map["f" := f];
    var next: Scope := map["f" := f]["default" := d];
    assert Extend(map["f" := f], ["default"], [d]) == Extend(next, ["default"][1..], [d][1..]) == next;
    assert StateSyms(s.states) == [d];
  }

  lemma LongNamesDiffer(n: nat)
    ensures NoDup(ParamNames(IntParams(n)))
  {
    forall i, j | 0 <= i < j < n
      ensures ParamNames(IntParams(n))[i] != ParamNames(IntParams(n))[j]
    {
      assert |ParamName(i)| != |ParamName(j)|;
    }
  }

  lemma ZeroTyped(env: Env)
    ensures Typed(env, Node(TInteger, false, IntLit(0)))
  {
  }

  lemma CallTyped(bi: Tables, lso: bool, n: nat, params: Scope)
    requires bi.beyond.AsDeclared?
    ensures Typed(Env(bi, lso, [TopScope(LongScript(n)), params, map[]]), CallOf(n))
  {
    hide TopScope;
    LongTop(n);
    var env := Env(bi, lso, [TopScope(LongScript(n)), params, map[]]);
    var args := Zeros(n);
    ZeroTyped(env);
    forall i | 0 <= i < n ensures Typed(env, args[i]) {}
    var types := TypesOf(args);
    forall i | 0 <= i < n
      ensures PassRule(bi.beyond, "f", i, ParamTypes(IntParams(n))[i], types[i])
    {
      assert types[i] == TInteger && ParamTypes(IntParams(n))[i] == TInteger;
    }
    assert CallRule(env, "f", types, TVoid);
  }

  /** A body that is one well-typed expression. */
  lemma OneExprWell(ctx: Ctx, scopes: Scopes, line: int, e: Expr)
    requires Typed(EnvOf(ctx, Push(scopes)), e)
    ensures WellBody(ctx, scopes, [Stmt(line, ExprStmt(e))])
  {
    hide Typed;
    var stmts := [Stmt(line, ExprStmt(e))];
    assert stmts[1..] == [];
    assert WellStmt(ctx, Push(scopes), stmts[0]);
    assert WellStmts(ctx, After(Push(scopes), stmts[0]), stmts[1..]);
    assert LabelsOf(stmts) == LabelsOf(stmts[1..]) + Labels(stmts[0]) == [];
    assert JumpsOf(stmts) == JumpsOf(stmts[1..]) + Jumps(stmts[0]) == [];
  }

  lemma LongFuncWell(bi: Tables, lso: bool, n: nat)
    requires bi.beyond.AsDeclared?
    ensures var s := LongScript(n);
      WellFunc(bi, lso, StateNames(s.states), TopScope(s), s.funcs[0])
  {
    hide TopScope, Typed, ParamScope, StateNames, WellBody, CallOf, IntParams;
    var s := LongScript(n);
    var f := s.funcs[0];
    var params := ParamScope(f.params);
    LongNamesDiffer(n);
    CallTyped(bi, lso, n, params);
    assert Push([TopScope(s), params]) == [TopScope(s), params, map[]];
    OneExprWell(Ctx(bi, lso, Some(f.ret), StateNames(s.states)), [TopScope(s), params], 1, CallOf(n));
  }

  /** It keeps the rules of the language, however many parameters there are. */
  lemma LongScriptWell(ops: FloatOps, bi: Tables, lso: bool, n: nat)
    ensures WellScript(ops, Language(bi), lso, LongScript(n)) && ProperScript(LongScript(n))
  {
    hide TopScope, WellFunc, TopNames, NoDup;
    var s := LongScript(n);
    LongTop(n);
    LongFuncWell(Language(bi), lso, n);
    assert s.states[0].isDefault;
    assert WellState(Language(bi), lso, StateNames(s.states), TopScope(s), s.states[0]) by { NoEventsWell(); }
    LongScriptProper(n);
  }

  lemma LongScriptProper(n: nat)
    ensures ProperScript(LongScript(n))
  {
    var body := LongScript(n).funcs[0].body;
    forall k | 0 <= k < n ensures Proper(Zeros(n)[k]) {}
    assert Proper(CallOf(n));
    assert ProperStmt(body.kind.stmts[0]) && ProperStmt(body);
    assert ProperParams(IntParams(n));
  }

  lemma NoEventsWell()
    ensures NoDup(EventNames([]))
  {
  }

  lemma LongScriptCovered(n: nat)
    ensures ScriptCovered(LongScript(n)) <==> n <= STORED_MAX
  {
    hide TopScope;
    var s := LongScript(n);
    var top := TopScope(s);
    LongTop(n);
    var stmts := BodyOf(s.funcs[0].body);
    assert stmts[1..] == [] && StmtsCovered(top, []);
    assert |ParamTypes(IntParams(n))| == n;
    if n > STORED_MAX { assert !Zeros(n)[STORED_MAX].ty.TAny?; }
    assert CallCovered(top, "f", Zeros(n)) <==> n <= STORED_MAX;
    assert Covered(top, CallOf(n)) <==> CallCovered(top, "f", Zeros(n)) by {
      forall i | 0 <= i < n ensures Covered(top, Zeros(n)[i]) {}
    }
    assert StmtCovered(top, stmts[0]) <==> Covered(top, CallOf(n));
    assert BodyCovered(top, s.funcs[0].body) <==> n <= STORED_MAX;
    assert StateCovered(top, s.states[0]);
  }

  /** A script that keeps the rules is accepted whatever memory holds with up to sixteen
      parameters; with more, some memory has it rejected. */
  lemma SixteenParameters(ops: FloatOps, bi: Tables, lso: bool, n: nat)
    requires TablesOk(bi)
    ensures KeepsRules(ops, bi, lso, LongScript(n))
    ensures (forall cell :: Accepts(ops, Memory(bi, cell), lso, LongScript(n))) <==> n <= 16
  {
    hide TablesOk, ProperScript, Accepts, StripScript, WellScript, ScriptCovered, LongScript;
    var s := LongScript(n);
    LongScriptWell(ops, bi, lso, n);
    LongScriptCovered(n);
    AcceptedWhateverMemory(ops, bi, lso, s);
    if a :| StripScript(a) == StripScript(s) && WellScript(ops, Language(bi), lso, a) && ScriptCovered(a) {
      assert TablesOk(Language(bi)) by { LanguageTables(bi); }
      CoveredAlike(ops, Language(bi), lso, s, a, s);
    }
  }

  lemma LanguageTables(bi: Tables)
    requires TablesOk(bi)
    ensures TablesOk(Language(bi))
  {
  }

  /** For example, with seventeen parameters it keeps the rules, and a hostile memory has it
      rejected. */
  lemma SeventeenParameters(ops: FloatOps, bi: Tables, lso: bool)
    requires TablesOk(bi)
    ensures KeepsRules(ops, bi, lso, LongScript(17))
    ensures !Accepts(ops, Memory(bi, (fn: string, i: nat) => None), lso, LongScript(17))
  {
    hide TablesOk, ProperScript, Accepts, StripScript, WellScript, ScriptCovered, LongScript;
    var s := LongScript(17);
    SixteenParameters(ops, bi, lso, 17);
    LongScriptWell(ops, bi, lso, 17);
    LongScriptCovered(17);
    if Accepts(ops, Memory(bi, (fn: string, i: nat) => None), lso, s) {
      assert Memory(bi, (fn: string, i: nat) => None) == bi.(beyond := HOSTILE);
      AcceptedIff(ops, bi, lso, HOSTILE, s);
      var a :| StripScript(a) == StripScript(s) && WellScript(ops, bi.(beyond := HOSTILE), lso, a);
      ScriptFound(ops, bi.(beyond := HOSTILE), lso, a);
      ScriptMoved(ops, bi.(beyond := HOSTILE), lso, AsDeclared, a);
      assert bi.(beyond := HOSTILE).(beyond := AsDeclared) == Language(bi);
      assert TablesOk(Language(bi)) by { LanguageTables(bi); }
      CoveredAlike(ops, Language(bi), lso, s, a, s);
      assert false;
    }
  }
}
