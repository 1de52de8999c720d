/** Fitting the field widths is not only enough for the round trip, it is needed:
    whatever the decoder returns fits, so a script that does not fit cannot come back. */
module SlbcExact {
  import opened Syntax
  import opened Seqs
  import opened Slbc
  import opened SlbcProofs

  // ----------------------------------------- what the decoder returns fits

  ghost predicate GoodExpr(pool: seq<string>, e: Expr) {
    ExprMisfits(e) == 0 && Covers(pool, ExprStrings(e))
  }

  ghost predicate GoodExprs(pool: seq<string>, es: seq<Expr>, k: nat)
    requires k <= |es|
  {
    ExprsMisfits(es, k) == 0 && Covers(pool, ExprsStrings(es, k))
  }

  ghost predicate GoodOptExpr(pool: seq<string>, e: Option<Expr>) {
    OptExprMisfits(e) == 0 && Covers(pool, OptExprStrings(e))
  }

  ghost predicate GoodStmt(pool: seq<string>, s: Stmt) {
    StmtMisfits(s) == 0 && Covers(pool, StmtStrings(s))
  }

  ghost predicate GoodStmts(pool: seq<string>, ss: seq<Stmt>, k: nat)
    requires k <= |ss|
  {
    StmtsMisfits(ss, k) == 0 && Covers(pool, StmtsStrings(ss, k))
  }

  lemma {:induction false} ReadExprGood(bs: seq<Byte>, i: nat, pool: seq<string>)
    requires ReadExpr(bs, i, pool).Got?
    ensures GoodExpr(pool, ReadExpr(bs, i, pool).value)
    decreases |bs| - i, 0
  {
    hide ReadKind;
    var (tag, i1) := ReadByte(bs, i).Extract();
    var (ty, i2) := ReadType(bs, i1).Extract();
    var (lv, p) := ReadFlag(bs, i2).Extract();
    ReadKindGood(bs, p, pool, tag, ty, lv);
  }

  /** As many expressions as are there, up to four in a row, are good. */
  lemma {:induction false} ReadPartsGood(bs: seq<Byte>, i: nat, pool: seq<string>)
    requires i <= |bs|
    ensures var x := ReadExpr(bs, i, pool);
      && (x.Got? ==> GoodExpr(pool, x.value))
      && (x.Got? ==>
            var y := ReadExpr(bs, x.next, pool);
            && (y.Got? ==> GoodExpr(pool, y.value))
            && (y.Got? ==>
                  var z := ReadExpr(bs, y.next, pool);
                  && (z.Got? ==> GoodExpr(pool, z.value))
                  && (z.Got? ==>
                        var w := ReadExpr(bs, z.next, pool);
                        w.Got? ==> GoodExpr(pool, w.value))))
    decreases |bs| - i, 1
  {
    hide ReadExpr, GoodExpr;
    var x := ReadExpr(bs, i, pool);
    if x.Got? {
      ReadExprGood(bs, i, pool);
      var y := ReadExpr(bs, x.next, pool);
      if y.Got? {
        ReadExprGood(bs, x.next, pool);
        var z := ReadExpr(bs, y.next, pool);
        if z.Got? {
          ReadExprGood(bs, y.next, pool);
          if ReadExpr(bs, z.next, pool).Got? { ReadExprGood(bs, z.next, pool); }
        }
      }
    }
  }

  lemma {:induction false} ReadKindGood(bs: seq<Byte>, i: nat, pool: seq<string>, tag: Byte, ty: Type, lv: bool)
    requires i <= |bs| && ReadKind(bs, i, pool, tag).Got?
    ensures GoodExpr(pool, Node(ty, lv, ReadKind(bs, i, pool, tag).value))
    decreases |bs| - i, 2
  {
    hide ReadExpr, ReadExprs;
    match tag
    case 4 => ReadPartsGood(bs, i, pool);
    case 5 => ReadPartsGood(bs, i, pool);
    case 6 =>
      ReadU32Bound(bs, i);
      ReadExprsGood(bs, i + 4, pool, ReadU32(bs, i).value);
    case 7 =>
      ReadU32Bound(bs, i + 4);
      ReadExprsGood(bs, i + 8, pool, ReadU32(bs, i + 4).value);
    case 8 => ReadExprGood(bs, i, pool);
    case 9 => ReadExprGood(bs, i + 1, pool);
    case 10 => ReadExprGood(bs, i + 1, pool);
    case 11 => ReadExprGood(bs, i + 1, pool);
    case 12 =>
      ReadExprGood(bs, i + 1, pool);
      ReadExprGood(bs, ReadExpr(bs, i + 1, pool).next, pool);
    case 13 =>
      ReadExprGood(bs, i + 1, pool);
      ReadExprGood(bs, ReadExpr(bs, i + 1, pool).next, pool);
    case _ =>
  }

  lemma {:induction false} ReadExprsGood(bs: seq<Byte>, i: nat, pool: seq<string>, n: nat)
    requires i <= |bs| && ReadExprs(bs, i, pool, n).Got?
    ensures GoodExprs(pool, ReadExprs(bs, i, pool, n).value, 0)
    decreases |bs| - i, 1
  {
    hide ReadExpr, ExprStrings, ExprMisfits;
    if n > 0 {
      var (e, j) := ReadExpr(bs, i, pool).Extract();
      ReadExprGood(bs, i, pool);
      ReadExprsGood(bs, j, pool, n - 1);
      ExprsShift(e, ReadExprs(bs, j, pool, n - 1).value, 0);
    }
  }

  lemma {:induction false} ExprsShift(e: Expr, es: seq<Expr>, k: nat)
    requires k <= |es|
    ensures ExprsStrings([e] + es, k + 1) == ExprsStrings(es, k)
    ensures ExprsMisfits([e] + es, k + 1) == ExprsMisfits(es, k)
    decreases |es| - k
  {
    hide ExprStrings, ExprMisfits;
    if k < |es| {
      assert ([e] + es)[k + 1] == es[k];
      ExprsShift(e, es, k + 1);
    }
  }

  lemma ReadOptExprGood(bs: seq<Byte>, i: nat, pool: seq<string>)
    requires ReadOptExpr(bs, i, pool).Got?
    ensures GoodOptExpr(pool, ReadOptExpr(bs, i, pool).value)
  {
    hide ReadExpr, ExprStrings, ExprMisfits;
    if ReadFlag(bs, i).value { ReadExprGood(bs, i + 1, pool); }
  }

  lemma {:induction false} ReadStmtGood(bs: seq<Byte>, i: nat, pool: seq<string>)
    requires ReadStmt(bs, i, pool).Got?
    ensures GoodStmt(pool, ReadStmt(bs, i, pool).value)
    decreases |bs| - i, 0
  {
    hide ReadStmtKind;
    ReadU32Bound(bs, i + 1);
    ReadStmtKindGood(bs, i + 5, pool, bs[i], ReadU32(bs, i + 1).value);
  }

  lemma {:induction false} ReadStmtKindGood(bs: seq<Byte>, i: nat, pool: seq<string>, tag: Byte, line: nat)
    requires i <= |bs| && line < TWO_32 && ReadStmtKind(bs, i, pool, tag).Got?
    ensures GoodStmt(pool, Stmt(line, ReadStmtKind(bs, i, pool, tag).value))
    decreases |bs| - i, 2
  {
    hide ReadStmt, ReadStmts, ReadExpr, ReadExprs, ReadOptExpr, ReadName, ReadType, OptExprStrings, OptExprMisfits;
    match tag
    case 0 => ReadExprGood(bs, i, pool);
    case 1 => ReadOptExprGood(bs, i + 5, pool);
    case 2 =>
      ReadU32Bound(bs, i);
      ReadStmtsGood(bs, i + 4, pool, ReadU32(bs, i).value);
    case 3 => ReadIfGood(bs, i, pool, line);
    case 4 =>
      ReadExprGood(bs, i, pool);
      ReadStmtGood(bs, ReadExpr(bs, i, pool).next, pool);
    case 5 =>
      ReadStmtGood(bs, i, pool);
      ReadExprGood(bs, ReadStmt(bs, i, pool).next, pool);
    case 6 => ReadForGood(bs, i, pool, line);
    case 7 => ReadOptExprGood(bs, i, pool);
    case _ =>
  }

  lemma {:induction false} ReadIfGood(bs: seq<Byte>, i: nat, pool: seq<string>, line: nat)
    requires i <= |bs| && line < TWO_32 && ReadStmtKind(bs, i, pool, 3).Got?
    ensures GoodStmt(pool, Stmt(line, ReadStmtKind(bs, i, pool, 3).value))
    decreases |bs| - i, 1
  {
    hide ReadStmt, ReadStmts, ReadExpr, ReadExprs, ReadOptExpr;
    ReadExprGood(bs, i, pool);
    var (cond, j1) := ReadExpr(bs, i, pool).Extract();
    ReadStmtGood(bs, j1, pool);
    var (thn, j2) := ReadStmt(bs, j1, pool).Extract();
    if ReadFlag(bs, j2).value { ReadStmtGood(bs, j2 + 1, pool); }
  }

  lemma {:induction false} ReadForGood(bs: seq<Byte>, i: nat, pool: seq<string>, line: nat)
    requires i <= |bs| && line < TWO_32 && ReadStmtKind(bs, i, pool, 6).Got?
    ensures GoodStmt(pool, Stmt(line, ReadStmtKind(bs, i, pool, 6).value))
    decreases |bs| - i, 1
  {
    hide ReadStmt, ReadStmts, ReadExpr, ReadExprs, ReadOptExpr, ExprsStrings, ExprsMisfits, OptExprStrings,
         OptExprMisfits;
    ReadExprsGood(bs, i + 1, pool, bs[i]);
    var (inits, j2) := ReadExprs(bs, i + 1, pool, bs[i]).Extract();
    ReadOptExprGood(bs, j2, pool);
    var (test, j3) := ReadOptExpr(bs, j2, pool).Extract();
    ReadExprsGood(bs, j3 + 1, pool, bs[j3]);
    ReadStmtGood(bs, ReadExprs(bs, j3 + 1, pool, bs[j3]).next, pool);
  }

  lemma {:induction false} ReadStmtsGood(bs: seq<Byte>, i: nat, pool: seq<string>, n: nat)
    requires i <= |bs| && ReadStmts(bs, i, pool, n).Got?
    ensures GoodStmts(pool, ReadStmts(bs, i, pool, n).value, 0)
    decreases |bs| - i, 1
  {
    hide ReadStmt, StmtStrings, StmtMisfits;
    if n > 0 {
      var (s, j) := ReadStmt(bs, i, pool).Extract();
      ReadStmtGood(bs, i, pool);
      ReadStmtsGood(bs, j, pool, n - 1);
      StmtsShift(s, ReadStmts(bs, j, pool, n - 1).value, 0);
    }
  }

  lemma {:induction false} StmtsShift(s: Stmt, ss: seq<Stmt>, k: nat)
    requires k <= |ss|
    ensures StmtsStrings([s] + ss, k + 1) == StmtsStrings(ss, k)
    ensures StmtsMisfits([s] + ss, k + 1) == StmtsMisfits(ss, k)
    decreases |ss| - k
  {
    hide StmtStrings, StmtMisfits;
    if k < |ss| {
      assert ([s] + ss)[k + 1] == ss[k];
      StmtsShift(s, ss, k + 1);
    }
  }

  ghost predicate ParamsIn(pool: seq<string>, ps: seq<Param>) {
    forall j :: 0 <= j < |ps| ==> ps[j].name in pool
  }

  ghost predicate GoodFunc(pool: seq<string>, f: Func) {
    FuncFits(f) && f.name in pool && ParamsIn(pool, f.params) && Covers(pool, StmtStrings(f.body))
  }

  ghost predicate GoodEvent(pool: seq<string>, e: Event) {
    EventFits(e) && e.name in pool && ParamsIn(pool, e.params) && Covers(pool, StmtStrings(e.body))
  }

  ghost predicate GoodState(pool: seq<string>, s: State) {
    s.line < TWO_32 && |s.events| < TWO_32 && s.name in pool &&
    forall j :: 0 <= j < |s.events| ==> GoodEvent(pool, s.events[j])
  }

  ghost predicate GoodGlobal(pool: seq<string>, g: Global) {
    g.name in pool && GoodOptExpr(pool, g.init)
  }

  ghost predicate GoodScript(pool: seq<string>, sc: Script) {
    && |sc.globals| < TWO_32 && |sc.funcs| < TWO_32 && |sc.states| < TWO_32
    && (forall j :: 0 <= j < |sc.globals| ==> GoodGlobal(pool, sc.globals[j]))
    && (forall j :: 0 <= j < |sc.funcs| ==> GoodFunc(pool, sc.funcs[j]))
    && (forall j :: 0 <= j < |sc.states| ==> GoodState(pool, sc.states[j]))
  }

  lemma {:induction false} ReadParamsGood(bs: seq<Byte>, i: nat, pool: seq<string>, n: nat)
    requires i <= |bs| && ReadParams(bs, i, pool, n).Got?
    ensures ParamsIn(pool, ReadParams(bs, i, pool, n).value)
    decreases n
  {
    hide ReadType, ReadName;
    if n > 0 { ReadParamsGood(bs, i + 5, pool, n - 1); }
  }

  lemma {:induction false} ReadGlobalsGood(bs: seq<Byte>, i: nat, pool: seq<string>, n: nat)
    requires i <= |bs| && ReadGlobals(bs, i, pool, n).Got?
    ensures forall j :: 0 <= j < n ==> GoodGlobal(pool, ReadGlobals(bs, i, pool, n).value[j])
    decreases n
  {
    hide ReadType, ReadName, ReadOptExpr, GoodOptExpr;
    if n > 0 {
      ReadOptExprGood(bs, i + 5, pool);
      ReadGlobalsGood(bs, ReadOptExpr(bs, i + 5, pool).next, pool, n - 1);
    }
  }

  lemma ReadFuncGood(bs: seq<Byte>, i: nat, pool: seq<string>)
    requires ReadFunc(bs, i, pool).Got?
    ensures GoodFunc(pool, ReadFunc(bs, i, pool).value)
  {
    hide ReadType, ReadName, ReadStmt, StmtStrings, StmtMisfits, ReadParams, ParamsIn;
    ReadU32Bound(bs, i + 4);
    ReadParamsGood(bs, i + 11, pool, bs[i + 10]);
    ReadStmtGood(bs, ReadParams(bs, i + 11, pool, bs[i + 10]).next, pool);
  }

  lemma {:induction false} ReadFuncsGood(bs: seq<Byte>, i: nat, pool: seq<string>, n: nat)
    requires i <= |bs| && ReadFuncs(bs, i, pool, n).Got?
    ensures forall j :: 0 <= j < n ==> GoodFunc(pool, ReadFuncs(bs, i, pool, n).value[j])
    decreases n
  {
    hide ReadFunc, GoodFunc;
    if n > 0 {
      ReadFuncGood(bs, i, pool);
      ReadFuncsGood(bs, ReadFunc(bs, i, pool).next, pool, n - 1);
    }
  }

  lemma ReadEventGood(bs: seq<Byte>, i: nat, pool: seq<string>)
    requires ReadEvent(bs, i, pool).Got?
    ensures GoodEvent(pool, ReadEvent(bs, i, pool).value)
  {
    hide ReadName, ReadStmt, StmtStrings, StmtMisfits, ReadParams, ParamsIn;
    ReadU32Bound(bs, i + 4);
    ReadParamsGood(bs, i + 9, pool, bs[i + 8]);
    ReadStmtGood(bs, ReadParams(bs, i + 9, pool, bs[i + 8]).next, pool);
  }

  lemma {:induction false} ReadEventsGood(bs: seq<Byte>, i: nat, pool: seq<string>, n: nat)
    requires i <= |bs| && ReadEvents(bs, i, pool, n).Got?
    ensures forall j :: 0 <= j < n ==> GoodEvent(pool, ReadEvents(bs, i, pool, n).value[j])
    decreases n
  {
    hide ReadEvent, GoodEvent;
    if n > 0 {
      ReadEventGood(bs, i, pool);
      ReadEventsGood(bs, ReadEvent(bs, i, pool).next, pool, n - 1);
    }
  }

  lemma ReadStateGood(bs: seq<Byte>, i: nat, pool: seq<string>)
    requires ReadState(bs, i, pool).Got?
    ensures GoodState(pool, ReadState(bs, i, pool).value)
  {
    hide ReadName, ReadEvents, GoodEvent, ReadU32;
    ReadU32Bound(bs, i + 4);
    ReadU32Bound(bs, i + 9);
    ReadEventsGood(bs, i + 13, pool, ReadU32(bs, i + 9).value);
  }

  lemma {:induction false} ReadStatesGood(bs: seq<Byte>, i: nat, pool: seq<string>, n: nat)
    requires i <= |bs| && ReadStates(bs, i, pool, n).Got?
    ensures forall j :: 0 <= j < n ==> GoodState(pool, ReadStates(bs, i, pool, n).value[j])
    decreases n
  {
    hide ReadState, GoodState;
    if n > 0 {
      ReadStateGood(bs, i, pool);
      ReadStatesGood(bs, ReadState(bs, i, pool).next, pool, n - 1);
    }
  }

  lemma ReadScriptGood(bs: seq<Byte>, i: nat, pool: seq<string>)
    requires i <= |bs| && ReadScript(bs, i, pool).Got?
    ensures GoodScript(pool, ReadScript(bs, i, pool).value)
  {
    hide ReadGlobals, ReadFuncs, ReadStates, ReadU32, GoodGlobal, GoodFunc, GoodState;
    ReadU32Bound(bs, i);
    var (globals, j2) := ReadGlobals(bs, i + 4, pool, ReadU32(bs, i).value).Extract();
    ReadGlobalsGood(bs, i + 4, pool, ReadU32(bs, i).value);
    ReadU32Bound(bs, j2);
    var (funcs, j4) := ReadFuncs(bs, j2 + 4, pool, ReadU32(bs, j2).value).Extract();
    ReadFuncsGood(bs, j2 + 4, pool, ReadU32(bs, j2).value);
    ReadU32Bound(bs, j4);
    ReadStatesGood(bs, j4 + 4, pool, ReadU32(bs, j4).value);
  }

  lemma {:induction false} ReadPoolGood(bs: seq<Byte>, i: nat, n: nat)
    requires i <= |bs| && ReadPool(bs, i, n).Got?
    ensures forall j :: 0 <= j < n ==>
              |ReadPool(bs, i, n).value[j]| < TWO_32 && IsCString(ReadPool(bs, i, n).value[j])
    decreases n
  {
    hide ReadU32;
    if n > 0 {
      ReadU32Bound(bs, i);
      var len := ReadU32(bs, i).value;
      ReadPoolGood(bs, i + 4 + len, n - 1);
    }
  }

  // --------------------------------------- erasure keeps names and widths

  lemma {:induction false} EraseStmtKeeps(s: Stmt)
    ensures StmtStrings(EraseStmt(s)) == StmtStrings(s)
    ensures StmtMisfits(EraseStmt(s)) == StmtMisfits(s)
    decreases s, 1
  {
    hide ExprStrings, ExprMisfits, ExprsStrings, ExprsMisfits, OptExprStrings, OptExprMisfits;
    match s.kind
    case Block(stmts) => EraseStmtsKeeps(stmts, 0, EraseStmts(stmts, 0));
    case If(_, thn, els) =>
      EraseStmtKeeps(thn);
      if els.Some? { EraseStmtKeeps(els.value); }
    case While(_, body) => EraseStmtKeeps(body);
    case DoWhile(body, _) => EraseStmtKeeps(body);
    case For(_, _, _, body) => EraseStmtKeeps(body);
    case _ =>
  }

  lemma {:induction false} EraseStmtsKeeps(ss: seq<Stmt>, k: nat, out: seq<Stmt>)
    requires k <= |ss| == |out| && out[k..] == EraseStmts(ss, k)
    ensures StmtsStrings(out, k) == StmtsStrings(ss, k)
    ensures StmtsMisfits(out, k) == StmtsMisfits(ss, k)
    decreases ss, |ss| - k
  {
    hide StmtStrings, StmtMisfits, EraseStmt;
    if k < |ss| {
      EraseStmtKeeps(ss[k]);
      assert out[k] == out[k..][0] == EraseStmt(ss[k]);
      assert out[k + 1..] == out[k..][1..] == EraseStmts(ss, k + 1);
      EraseStmtsKeeps(ss, k + 1, out);
    }
  }

  lemma {:induction false} EraseEventsAt(es: seq<Event>, k: nat, j: nat)
    requires k <= j < |es|
    ensures EraseEvents(es, k)[j - k] == EraseEvent(es[j])
    decreases |es| - k
  {
    hide EraseEvent;
    if k < j { EraseEventsAt(es, k + 1, j); }
  }

  lemma {:induction false} EraseFuncsAt(fs: seq<Func>, k: nat, j: nat)
    requires k <= j < |fs|
    ensures EraseFuncs(fs, k)[j - k] == EraseFunc(fs[j])
    decreases |fs| - k
  {
    hide EraseFunc;
    if k < j { EraseFuncsAt(fs, k + 1, j); }
  }

  lemma {:induction false} EraseStatesAt(ss: seq<State>, k: nat, j: nat)
    requires k <= j < |ss|
    ensures EraseStates(ss, k)[j - k] == EraseState(ss[j])
    decreases |ss| - k
  {
    hide EraseState;
    if k < j { EraseStatesAt(ss, k + 1, j); }
  }

  /** If an erased script is good for a pool, so is the script it came from. */
  lemma GoodBeforeErase(pool: seq<string>, sc: Script)
    requires GoodScript(pool, Erase(sc))
    ensures GoodScript(pool, sc)
  {
    hide EraseStmt, EraseEvents, EraseFuncs, EraseStates, StmtStrings, StmtMisfits, GoodGlobal;
    forall j | 0 <= j < |sc.funcs|
      ensures GoodFunc(pool, sc.funcs[j])
    {
      EraseFuncsAt(sc.funcs, 0, j);
      EraseStmtKeeps(sc.funcs[j].body);
    }
    forall j | 0 <= j < |sc.states|
      ensures GoodState(pool, sc.states[j])
    {
      EraseStatesAt(sc.states, 0, j);
      var s := sc.states[j];
      forall k | 0 <= k < |s.events|
        ensures GoodEvent(pool, s.events[k])
      {
        EraseEventsAt(s.events, 0, k);
        EraseStmtKeeps(s.events[k].body);
        assert GoodEvent(pool, EraseState(s).events[k]);
      }
    }
  }

  // ------------------------------------------ every name comes from a node

  lemma {:induction false} ParamsCovered(pool: seq<string>, ps: seq<Param>, k: nat)
    requires k <= |ps| && ParamsIn(pool, ps)
    ensures Covers(pool, ParamStrings(ps, k))
    decreases |ps| - k
  {
    if k < |ps| { ParamsCovered(pool, ps, k + 1); }
  }

  lemma {:induction false} GlobalsCovered(pool: seq<string>, gs: seq<Global>, k: nat)
    requires k <= |gs| && forall j :: 0 <= j < |gs| ==> GoodGlobal(pool, gs[j])
    ensures Covers(pool, GlobalStrings(gs, k))
    decreases |gs| - k
  {
    hide OptExprStrings, OptExprMisfits;
    if k < |gs| {
      GlobalsCovered(pool, gs, k + 1);
      assert GoodGlobal(pool, gs[k]);
    }
  }

  lemma {:induction false} FuncsCovered(pool: seq<string>, fs: seq<Func>, k: nat)
    requires k <= |fs| && forall j :: 0 <= j < |fs| ==> GoodFunc(pool, fs[j])
    ensures Covers(pool, FuncStrings(fs, k))
    decreases |fs| - k
  {
    hide StmtStrings, ParamStrings, FuncFits;
    if k < |fs| {
      FuncsCovered(pool, fs, k + 1);
      assert GoodFunc(pool, fs[k]);
      ParamsCovered(pool, fs[k].params, 0);
    }
  }

  lemma {:induction false} EventsCovered(pool: seq<string>, es: seq<Event>, k: nat)
    requires k <= |es| && forall j :: 0 <= j < |es| ==> GoodEvent(pool, es[j])
    ensures Covers(pool, EventStrings(es, k))
    decreases |es| - k
  {
    hide StmtStrings, ParamStrings, EventFits;
    if k < |es| {
      EventsCovered(pool, es, k + 1);
      assert GoodEvent(pool, es[k]);
      ParamsCovered(pool, es[k].params, 0);
    }
  }

  lemma {:induction false} StatesCovered(pool: seq<string>, ss: seq<State>, k: nat)
    requires k <= |ss| && forall j :: 0 <= j < |ss| ==> GoodState(pool, ss[j])
    ensures Covers(pool, StateStrings(ss, k))
    decreases |ss| - k
  {
    hide EventStrings, GoodEvent;
    if k < |ss| {
      StatesCovered(pool, ss, k + 1);
      assert GoodState(pool, ss[k]);
      EventsCovered(pool, ss[k].events, 0);
    }
  }

  lemma GoodScriptCovered(pool: seq<string>, sc: Script)
    requires GoodScript(pool, sc)
    ensures Covers(pool, ScriptStrings(sc)) && TreeFits(sc)
  {
    hide GlobalStrings, FuncStrings, StateStrings;
    GlobalsCovered(pool, sc.globals, 0);
    FuncsCovered(pool, sc.funcs, 0);
    StatesCovered(pool, sc.states, 0);
    forall k | 0 <= k < |sc.globals|
      ensures OptExprMisfits(sc.globals[k].init) == 0
    {
      assert GoodGlobal(pool, sc.globals[k]);
    }
    forall k | 0 <= k < |sc.funcs|
      ensures FuncFits(sc.funcs[k])
    {
      assert GoodFunc(pool, sc.funcs[k]);
    }
    forall k | 0 <= k < |sc.states|
      ensures StateFits(sc.states[k])
    {
      assert GoodState(pool, sc.states[k]);
    }
  }

  // ------------------------------------------------------------ the result

  /** If a file comes back as what was written, then the script fits. */
  lemma ReadBackFits(sc: Script, lso: bool, suffix: seq<Byte>)
    requires var r := ReadFile(FileBytes(sc, lso) + suffix); r.Got? && r.value.script == Erase(sc)
    ensures Fits(sc)
  {
    hide ReadPool, ReadScript, ReadU32, PoolOf, FileBytes, Erase, GoodScript, TreeFits, ScriptStrings, HeaderBytes;
    var bs := FileBytes(sc, lso) + suffix;
    ReadU32Bound(bs, 13);
    var n := ReadU32(bs, 13).value;
    var (pool, j) := ReadPool(bs, 17, n).Extract();
    ReadPoolGood(bs, 17, n);
    ReadScriptGood(bs, j, pool);
    GoodBeforeErase(pool, sc);
    GoodScriptCovered(pool, sc);
    CoveringPoolFits(pool, sc);
  }

  lemma CoveringPoolFits(pool: seq<string>, sc: Script)
    requires PoolFits(pool) && Covers(pool, ScriptStrings(sc))
    ensures PoolFits(PoolOf(sc))
  {
    hide ScriptStrings, InternAll;
    InternAllFirstOccurrences(ScriptStrings(sc));
    NoDupBound(PoolOf(sc), pool);
    forall k | 0 <= k < |PoolOf(sc)|
      ensures |PoolOf(sc)[k]| < TWO_32 && IsCString(PoolOf(sc)[k])
    {
      assert PoolOf(sc)[k] in ScriptStrings(sc);
      assert PoolOf(sc)[k] in pool;
    }
  }

  /** An SLBC file gives its script back, with whatever follows it left over,
      exactly when the script fits the format's fields. */
  lemma RoundTripExactly(sc: Script, lso: bool, suffix: seq<Byte>)
    ensures Fits(sc) <==> ReadsBack(FileBytes(sc, lso), suffix, sc, lso)
  {
    hide Fits, FileBytes, ReadFile, PoolOf, Erase;
    if Fits(sc) {
      ReadFileBytes(sc, lso, suffix);
    }
    if ReadsBack(FileBytes(sc, lso), suffix, sc, lso) {
      ReadBackFits(sc, lso, suffix);
    }
  }

  /** No file is a proper prefix of another, and equal files hold equal scripts. */
  lemma PrefixCode(a: Script, aLso: bool, b: Script, bLso: bool)
    requires Fits(a) && Fits(b) && FileBytes(a, aLso) <= FileBytes(b, bLso)
    ensures FileBytes(a, aLso) == FileBytes(b, bLso) && aLso == bLso && Erase(a) == Erase(b)
  {
    hide Fits, FileBytes, ReadFile, PoolOf, Erase;
    var suffix := FileBytes(b, bLso)[|FileBytes(a, aLso)|..];
    assert FileBytes(a, aLso) + suffix == FileBytes(b, bLso) + [];
    ReadFileBytes(a, aLso, suffix);
    ReadFileBytes(b, bLso, []);
  }

  /** The limit is real: a function with 256 parameters cannot be read back. */
  lemma TooManyParameters(f: Func)
    requires |f.params| == 256
    ensures var sc := Script([], [f], []);
            ReadFile(FileBytes(sc, false)) !=
            Got(File(false, PoolOf(sc), Erase(sc)), |FileBytes(sc, false)|)
  {
    hide FileBytes, ReadFile, PoolOf, Erase;
    var sc := Script([], [f], []);
    assert !FuncFits(sc.funcs[0]);
    assert FileBytes(sc, false) + [] == FileBytes(sc, false);
    RoundTripExactly(sc, false, []);
  }
}
