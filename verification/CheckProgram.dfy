/** The checker reports no error on a script exactly when the script can be annotated so
    that it keeps every rule of the language. */
module CheckProgram {
  import opened Syntax
  import opened Seqs
  import opened Builtins
  import opened Types
  import opened Typing
  import opened Fold
  import opened Judgement
  import opened CheckSpec
  import opened CheckExact
  import opened CheckBodies
  import opened ConstantsExact
  import Constants

  // --------------------------------------------------------------- declarations

  ghost predicate ScopeOk(scope: Scope) {
    forall n :: n in scope ==> SymOk(scope[n])
  }

  lemma {:induction false} ExtendKeys(top: Scope, names: seq<string>, syms: seq<Sym>)
    requires |names| == |syms|
    ensures forall n :: n in Extend(top, names, syms) <==> n in top || n in names
    decreases |names|
  {
    if names != [] {
      ExtendKeys(top[names[0] := syms[0]], names[1..], syms[1..]);
      assert forall n :: n in names <==> n == names[0] || n in names[1..];
    }
  }

  lemma {:induction false} ExtendOk(top: Scope, names: seq<string>, syms: seq<Sym>)
    requires |names| == |syms| && ScopeOk(top)
    requires forall i :: 0 <= i < |syms| ==> SymOk(syms[i])
    ensures ScopeOk(Extend(top, names, syms))
    decreases |names|
  {
    hide SymOk;
    if names != [] {
      ExtendOk(top[names[0] := syms[0]], names[1..], syms[1..]);
    }
  }

  /** Declaring is without error exactly when every name is new, and then each name is
      bound to its symbol. */
  lemma {:induction false} DeclareExact(scope: Scope, names: seq<string>, syms: seq<Sym>)
    requires |names| == |syms|
    ensures DeclareAll(scope, names, syms).errs == 0
      <==> NoDup(names) && forall n :: n in names ==> n !in scope
    ensures DeclareAll(scope, names, syms).errs == 0
      ==> DeclareAll(scope, names, syms).scope == Extend(scope, names, syms)
    decreases |names|
  {
    hide NoDup;
    if names != [] {
      var first, rest := names[0], names[1..];
      NoDupStep(names);
      assert forall n :: n in names <==> n == first || n in rest;
      if first !in scope {
        DeclareExact(scope[first := syms[0]], rest, syms[1..]);
      }
    } else {
      NoDupStep(names);
    }
  }

  lemma NoDupStep(names: seq<string>)
    ensures NoDup(names) <==> names == [] || (names[0] !in names[1..] && NoDup(names[1..]))
  {
    if names != [] {
      var rest := names[1..];
      if NoDup(names) {
        assert forall i, j :: 0 <= i < j < |rest| ==> rest[i] == names[i + 1] && rest[j] == names[j + 1];
        assert forall j :: 0 <= j < |rest| ==> rest[j] == names[j + 1] && names[0] != names[j + 1];
      } else {
        var i, j :| 0 <= i < j < |names| && names[i] == names[j];
        assert names[j] == rest[j - 1];
        if i > 0 { assert names[i] == rest[i - 1]; }
      }
    }
  }

  lemma NoDupJoin(a: seq<string>, b: seq<string>)
    ensures NoDup(a + b) <==> NoDup(a) && NoDup(b) && forall n :: n in b ==> n !in a
  {
    var c := a + b;
    assert forall i :: 0 <= i < |a| ==> c[i] == a[i];
    assert forall i :: 0 <= i < |b| ==> c[|a| + i] == b[i];
    if NoDup(c) {
      forall n | n in b
        ensures n !in a
      {
        var j :| 0 <= j < |b| && b[j] == n;
        assert c[|a| + j] == n;
      }
    } else {
      var i, j :| 0 <= i < j < |c| && c[i] == c[j];
      if i >= |a| { assert b[i - |a|] == b[j - |a|]; }
      else if j >= |a| { assert b[j - |a|] == a[i] && b[j - |a|] in b; }
    }
  }

  lemma {:induction false} DefaultExact(scope: Scope, ss: seq<State>)
    requires DeclareAll(scope, StateNames(ss), StateSyms(ss)).errs == 0
    ensures SawDefault(scope, ss) <==> exists i :: 0 <= i < |ss| && ss[i].isDefault
    decreases |ss|
  {
    if ss != [] {
      var rest := ss[1..];
      assert StateNames(ss)[1..] == StateNames(rest) && StateSyms(ss)[1..] == StateSyms(rest);
      assert StateNames(ss)[0] == ss[0].name;
      DefaultExact(scope[ss[0].name := Sym(SymState, TVoid, [])], rest);
      assert forall i :: 0 < i < |ss| ==> ss[i] == rest[i - 1];
      if i :| 0 <= i < |rest| && rest[i].isDefault { assert ss[i + 1].isDefault; }
    }
  }

  // ------------------------------------------------------------ functions, events

  lemma ParamScopeOk(params: seq<Param>)
    requires ProperParams(params)
    ensures ScopeOk(ParamScope(params))
  {
    ExtendOk(map[], ParamNames(params), ParamSyms(params));
  }

  lemma TwoScopesOk(top: Scope, inner: Scope)
    requires ScopeOk(top) && ScopeOk(inner)
    ensures ScopesOk([top, inner])
  {
  }

  ghost predicate BodyAccepted(ctx: Ctx, top: Scope, params: seq<Param>, body: Stmt) {
    NoDup(ParamNames(params)) && WellBody(ctx, [top, ParamScope(params)], BodyOf(body))
  }

  lemma ParamBodySound(ctx: Ctx, top: Scope, params: seq<Param>, body: Stmt)
    requires CtxOk(ctx) && ScopeOk(top) && ProperParams(params) && ProperBody(body)
    requires DeclareParams(params).errs == 0
    requires CheckBodyStmt(ctx, [top, DeclareParams(params).scope], body).errs == 0
    ensures BodyAccepted(ctx, top, params, CheckBodyStmt(ctx, [top, DeclareParams(params).scope], body).v)
  {
    hide CtxOk, ScopeOk, ScopesOk, ProperParams, ProperStmts, CheckBody, WellBody, DeclareAll, Extend, NoDup;
    DeclareExact(map[], ParamNames(params), ParamSyms(params));
    ParamScopeOk(params);
    TwoScopesOk(top, ParamScope(params));
    BodySound(ctx, [top, ParamScope(params)], BodyOf(body));
  }

  lemma ParamBodyComplete(ctx: Ctx, top: Scope, params: seq<Param>, body: Stmt, a: Stmt)
    requires CtxOk(ctx) && ScopeOk(top) && ProperParams(params) && ProperBody(body)
    requires BodyAccepted(ctx, top, params, a) && StripStmt(body) == StripStmt(a)
    ensures DeclareParams(params).errs == 0
    ensures CheckBodyStmt(ctx, [top, DeclareParams(params).scope], body) == Checked(a, 0)
  {
    hide CtxOk, ScopeOk, ScopesOk, ProperParams, ProperStmts, CheckBody, WellBody, DeclareAll, Extend, NoDup,
         StripStmts;
    DeclareExact(map[], ParamNames(params), ParamSyms(params));
    ParamScopeOk(params);
    TwoScopesOk(top, ParamScope(params));
    BodyComplete(ctx, [top, ParamScope(params)], BodyOf(body), BodyOf(a));
  }

  lemma ParamBodyStripped(ctx: Ctx, scopes: Scopes, body: Stmt)
    ensures StripStmt(CheckBodyStmt(ctx, scopes, body).v) == StripStmt(body)
  {
    hide CheckStmts, StripStmts, LabelsOf, JumpsOf, DuplicatePairs, Missing;
    StmtsStripped(ctx, Push(scopes), BodyOf(body));
  }

  lemma {:induction false} BadParamsExact(want: seq<Type>, got: seq<Type>)
    requires |want| == |got|
    ensures BadParams(want, got) == 0
      <==> forall i :: 0 <= i < |got| ==> want[i] == TVoid || want[i] == got[i]
  {
    if want != [] {
      BadParamsExact(want[1..], got[1..]);
      assert forall i :: 0 < i < |got| ==> want[i] == want[1..][i - 1] && got[i] == got[1..][i - 1];
      if forall i :: 0 <= i < |got| ==> want[i] == TVoid || want[i] == got[i] {
        assert forall i :: 0 <= i < |got[1..]| ==> want[1..][i] == want[i + 1] && got[1..][i] == got[i + 1];
      }
    }
  }

  lemma EventExact(bi: Tables, name: string, types: seq<Type>)
    ensures EventErrors(bi, name, types) == 0 <==> EventRule(bi, name, types)
  {
    hide BadParams;
    var v := EventOfArity(bi.events, name, |types|);
    if v.Some? { BadParamsExact(v.value.params, types); }
  }

  // -------------------------------------------------------------------- globals

  /** The annotated initialiser, before folding. */
  function AnnotateGlobal(bi: Tables, lso: bool, globals: Scope, g: Global): Global {
    if g.init.None? then g
    else g.(init := Some(CheckExpr(Env(bi, lso, [globals]), g.init.value).v))
  }

  function FoldInit(ops: FloatOps, bi: Tables, g: Global): Global {
    if g.init.None? then g else g.(init := Some(FoldExpr(ops, bi, g.init.value)))
  }

  lemma GlobalSound(ops: FloatOps, bi: Tables, lso: bool, globals: Scope, g: Global)
    requires TablesOk(bi) && ScopeOk(globals) && IsValueType(g.ty) && ProperOption(g.init)
    ensures CheckGlobal(ops, bi, lso, globals, g).v == FoldInit(ops, bi, AnnotateGlobal(bi, lso, globals, g))
    ensures CheckGlobal(ops, bi, lso, globals, g).errs == 0
      ==> WellGlobal(ops, bi, lso, globals, AnnotateGlobal(bi, lso, globals, g))
    ensures StripOption(AnnotateGlobal(bi, lso, globals, g).init) == StripOption(g.init)
  {
    hide CheckExpr, Typed, FoldExpr, IsConstant, Constants.IsConstantExpr, Proper, Strip, ImplicitAssignable;
    var env := Env(bi, lso, [globals]);
    assert EnvOk(env);
    if g.init.Some? {
      CheckStripped(env, g.init.value);
      if CheckGlobal(ops, bi, lso, globals, g).errs == 0 {
        InitSound(env, g.ty, g.init.value);
        ConstantExact(env, ops, CheckExpr(env, g.init.value).v);
      }
    }
  }

  lemma GlobalComplete(ops: FloatOps, bi: Tables, lso: bool, globals: Scope, g: Global, a: Global)
    requires TablesOk(bi) && ScopeOk(globals) && IsValueType(g.ty) && ProperOption(g.init)
    requires WellGlobal(ops, bi, lso, globals, a)
    requires a.ty == g.ty && a.name == g.name && StripOption(a.init) == StripOption(g.init)
    ensures CheckGlobal(ops, bi, lso, globals, g) == Checked(FoldInit(ops, bi, a), 0)
  {
    hide CheckInit, Typed, FoldExpr, IsConstant, Constants.IsConstantExpr, Proper, Strip;
    var env := Env(bi, lso, [globals]);
    assert EnvOk(env);
    if g.init.Some? {
      InitComplete(env, g.ty, g.init.value, a.init.value);
      ConstantExact(env, ops, a.init.value);
    }
  }

  // --------------------------------------------------- functions, events, states

  lemma FuncSound(bi: Tables, lso: bool, states: seq<string>, top: Scope, f: Func)
    requires TablesOk(bi) && ScopeOk(top) && f.ret != TError && ProperParams(f.params) && ProperBody(f.body)
    ensures CheckFunc(bi, lso, states, top, f).errs == 0
      ==> WellFunc(bi, lso, states, top, CheckFunc(bi, lso, states, top, f).v)
    ensures var r := CheckFunc(bi, lso, states, top, f).v;
      r == f.(body := r.body) && StripStmt(r.body) == StripStmt(f.body)
  {
    hide ScopeOk, TablesOk, ProperParams, ProperBody, DeclareParams, CheckBodyStmt, WellBody, NoDup, StripStmt;
    var ctx := Ctx(bi, lso, Some(f.ret), states);
    ParamBodyStripped(ctx, [top, DeclareParams(f.params).scope], f.body);
    if CheckFunc(bi, lso, states, top, f).errs == 0 {
      ParamBodySound(ctx, top, f.params, f.body);
    }
  }

  lemma FuncComplete(bi: Tables, lso: bool, states: seq<string>, top: Scope, f: Func, a: Func)
    requires TablesOk(bi) && ScopeOk(top) && f.ret != TError && ProperParams(f.params) && ProperBody(f.body)
    requires a == f.(body := a.body) && StripStmt(a.body) == StripStmt(f.body)
    requires WellFunc(bi, lso, states, top, a)
    ensures CheckFunc(bi, lso, states, top, f) == Checked(a, 0)
  {
    hide ScopeOk, TablesOk, ProperParams, ProperBody, DeclareParams, CheckBodyStmt, WellBody, NoDup, StripStmt;
    ParamBodyComplete(Ctx(bi, lso, Some(f.ret), states), top, f.params, f.body, a.body);
  }

  lemma EventSound(bi: Tables, lso: bool, states: seq<string>, top: Scope, ev: Event)
    requires TablesOk(bi) && ScopeOk(top) && ProperParams(ev.params) && ProperBody(ev.body)
    ensures CheckEvent(bi, lso, states, top, ev).errs == 0
      ==> WellEvent(bi, lso, states, top, CheckEvent(bi, lso, states, top, ev).v)
    ensures var r := CheckEvent(bi, lso, states, top, ev).v;
      r == ev.(body := r.body) && StripStmt(r.body) == StripStmt(ev.body)
  {
    hide ScopeOk, TablesOk, ProperParams, ProperBody, DeclareParams, CheckBodyStmt, WellBody, NoDup, StripStmt,
         EventRule, EventErrors;
    var ctx := Ctx(bi, lso, None, states);
    ParamBodyStripped(ctx, [top, DeclareParams(ev.params).scope], ev.body);
    EventExact(bi, ev.name, ParamTypes(ev.params));
    if CheckEvent(bi, lso, states, top, ev).errs == 0 {
      ParamBodySound(ctx, top, ev.params, ev.body);
    }
  }

  lemma EventComplete(bi: Tables, lso: bool, states: seq<string>, top: Scope, ev: Event, a: Event)
    requires TablesOk(bi) && ScopeOk(top) && ProperParams(ev.params) && ProperBody(ev.body)
    requires a == ev.(body := a.body) && StripStmt(a.body) == StripStmt(ev.body)
    requires WellEvent(bi, lso, states, top, a)
    ensures CheckEvent(bi, lso, states, top, ev) == Checked(a, 0)
  {
    hide ScopeOk, TablesOk, ProperParams, ProperBody, DeclareParams, CheckBodyStmt, WellBody, NoDup, StripStmt,
         EventRule, EventErrors;
    EventExact(bi, ev.name, ParamTypes(ev.params));
    ParamBodyComplete(Ctx(bi, lso, None, states), top, ev.params, ev.body, a.body);
  }

  predicate ProperEvents(es: seq<Event>) {
    forall j :: 0 <= j < |es| ==> ProperParams(es[j].params) && ProperBody(es[j].body)
  }

  lemma StateSound(bi: Tables, lso: bool, states: seq<string>, top: Scope, s: State)
    requires TablesOk(bi) && ScopeOk(top) && ProperEvents(s.events)
    ensures CheckState(bi, lso, states, top, s).errs == 0
      ==> WellState(bi, lso, states, top, CheckState(bi, lso, states, top, s).v)
    ensures var r := CheckState(bi, lso, states, top, s).v;
      r == s.(events := r.events) && StripEvents(r.events) == StripEvents(s.events)
  {
    hide ScopeOk, TablesOk, ProperParams, ProperBody, CheckEvent, WellEvent, NoDup, StripStmt, DuplicatePairs;
    var r := CheckState(bi, lso, states, top, s);
    DuplicatesExact(EventNames(s.events));
    forall i | 0 <= i < |s.events|
      ensures r.errs == 0 ==> WellEvent(bi, lso, states, top, r.v.events[i])
      ensures StripEvents(r.v.events)[i] == StripEvents(s.events)[i]
      ensures r.v.events[i].name == s.events[i].name
    {
      EventSound(bi, lso, states, top, s.events[i]);
    }
    assert EventNames(r.v.events) == EventNames(s.events);
    assert StripEvents(r.v.events) == StripEvents(s.events);
  }

  lemma StateComplete(bi: Tables, lso: bool, states: seq<string>, top: Scope, s: State, a: State)
    requires TablesOk(bi) && ScopeOk(top) && ProperEvents(s.events)
    requires a == s.(events := a.events) && StripEvents(a.events) == StripEvents(s.events)
    requires WellState(bi, lso, states, top, a)
    ensures CheckState(bi, lso, states, top, s).v == a && CheckState(bi, lso, states, top, s).errs == 0
  {
    hide ScopeOk, TablesOk, ProperParams, ProperBody, CheckEvent, WellEvent, NoDup, StripStmt, DuplicatePairs;
    assert |a.events| == |StripEvents(a.events)| == |s.events|;
    forall i | 0 <= i < |s.events|
      ensures CheckEvent(bi, lso, states, top, s.events[i]) == Checked(a.events[i], 0)
      ensures a.events[i].name == s.events[i].name
    {
      assert StripEvents(a.events)[i] == StripEvents(s.events)[i];
      EventComplete(bi, lso, states, top, s.events[i], a.events[i]);
    }
    assert EventNames(a.events) == EventNames(s.events);
    DuplicatesExact(EventNames(s.events));
    assert CheckState(bi, lso, states, top, s).v.events == a.events;
  }

  // --------------------------------------------------------------------- scripts

  predicate SameGlobal(g: Global, a: Global) {
    a == g.(init := a.init) && StripOption(a.init) == StripOption(g.init)
  }

  predicate SameFunc(f: Func, a: Func) {
    a == f.(body := a.body) && StripStmt(a.body) == StripStmt(f.body)
  }

  predicate SameState(s: State, a: State) {
    a == s.(events := a.events) && StripEvents(a.events) == StripEvents(s.events)
  }

  /** The scripts differ in the annotations of their expressions only. */
  predicate SameScript(s: Script, a: Script) {
    && |a.globals| == |s.globals| && |a.funcs| == |s.funcs| && |a.states| == |s.states|
    && (forall i :: 0 <= i < |s.globals| ==> SameGlobal(s.globals[i], a.globals[i]))
    && (forall i :: 0 <= i < |s.funcs| ==> SameFunc(s.funcs[i], a.funcs[i]))
    && (forall i :: 0 <= i < |s.states| ==> SameState(s.states[i], a.states[i]))
  }

  lemma SameExact(s: Script, a: Script)
    ensures StripScript(a) == StripScript(s) <==> SameScript(s, a)
  {
    hide Strip, StripStmt, StripEvents;
    var x, y := StripScript(a), StripScript(s);
    if x == y {
      assert |a.globals| == |x.globals| && |a.funcs| == |x.funcs| && |a.states| == |x.states|;
      forall i | 0 <= i < |s.globals| ensures SameGlobal(s.globals[i], a.globals[i]) {
        assert x.globals[i] == y.globals[i];
      }
      forall i | 0 <= i < |s.funcs| ensures SameFunc(s.funcs[i], a.funcs[i]) {
        assert x.funcs[i] == y.funcs[i];
      }
      forall i | 0 <= i < |s.states| ensures SameState(s.states[i], a.states[i]) {
        assert x.states[i] == y.states[i];
      }
    }
    if SameScript(s, a) {
      forall i | 0 <= i < |s.globals| ensures x.globals[i] == y.globals[i] {
        assert SameGlobal(s.globals[i], a.globals[i]);
      }
      forall i | 0 <= i < |s.funcs| ensures x.funcs[i] == y.funcs[i] {
        assert SameFunc(s.funcs[i], a.funcs[i]);
      }
      forall i | 0 <= i < |s.states| ensures x.states[i] == y.states[i] {
        assert SameState(s.states[i], a.states[i]);
      }
      assert x.globals == y.globals && x.funcs == y.funcs && x.states == y.states;
    }
  }

  /** Annotating a script changes neither its names nor what they are declared as. */
  lemma SameNames(s: Script, a: Script)
    requires SameScript(s, a)
    ensures GlobalNames(a.globals) == GlobalNames(s.globals) && GlobalSyms(a.globals) == GlobalSyms(s.globals)
    ensures FuncNames(a.funcs) == FuncNames(s.funcs) && FuncSyms(a.funcs) == FuncSyms(s.funcs)
    ensures StateNames(a.states) == StateNames(s.states) && StateSyms(a.states) == StateSyms(s.states)
    ensures TopNames(a) == TopNames(s) && GlobalScope(a) == GlobalScope(s) && TopScope(a) == TopScope(s)
    ensures forall i :: 0 <= i < |s.states| ==> a.states[i].isDefault == s.states[i].isDefault
  {
    hide StripOption, StripStmt, StripEvents, Extend;
    forall i | 0 <= i < |s.globals|
      ensures a.globals[i].name == s.globals[i].name && a.globals[i].ty == s.globals[i].ty
    {
      assert SameGlobal(s.globals[i], a.globals[i]);
    }
    forall i | 0 <= i < |s.funcs|
      ensures a.funcs[i].name == s.funcs[i].name && a.funcs[i].ret == s.funcs[i].ret
      ensures a.funcs[i].params == s.funcs[i].params
    {
      assert SameFunc(s.funcs[i], a.funcs[i]);
    }
    forall i | 0 <= i < |s.states|
      ensures a.states[i].name == s.states[i].name && a.states[i].isDefault == s.states[i].isDefault
    {
      assert SameState(s.states[i], a.states[i]);
    }
    assert GlobalSyms(a.globals) == GlobalSyms(s.globals);
    assert FuncSyms(a.funcs) == FuncSyms(s.funcs);
    assert StateSyms(a.states) == StateSyms(s.states);
    assert GlobalNames(a.globals) == GlobalNames(s.globals);
    assert FuncNames(a.funcs) == FuncNames(s.funcs);
    assert StateNames(a.states) == StateNames(s.states);
  }

  /** The three rounds of declarations succeed exactly when all names are distinct and some
      state is the default one; then they leave the scopes of the judgement. */
  lemma DeclarationsExact(s: Script)
    ensures
      var globals := DeclareAll(map[], GlobalNames(s.globals), GlobalSyms(s.globals));
      var funcs := DeclareAll(globals.scope, FuncNames(s.funcs), FuncSyms(s.funcs));
      var states := DeclareAll(funcs.scope, StateNames(s.states), StateSyms(s.states));
      && (globals.errs + funcs.errs + states.errs + Count(!SawDefault(funcs.scope, s.states)) == 0
          <==> NoDup(TopNames(s)) && exists i :: 0 <= i < |s.states| && s.states[i].isDefault)
      && (globals.errs + funcs.errs + states.errs == 0
          ==> globals.scope == GlobalScope(s) && states.scope == TopScope(s))
  {
    hide DeclareAll, Extend, NoDup, SawDefault;
    var gn, fn, sn := GlobalNames(s.globals), FuncNames(s.funcs), StateNames(s.states);
    var globals := DeclareAll(map[], gn, GlobalSyms(s.globals));
    var funcs := DeclareAll(globals.scope, fn, FuncSyms(s.funcs));
    var states := DeclareAll(funcs.scope, sn, StateSyms(s.states));
    DeclareExact(map[], gn, GlobalSyms(s.globals));
    DeclareExact(globals.scope, fn, FuncSyms(s.funcs));
    DeclareExact(funcs.scope, sn, StateSyms(s.states));
    ExtendKeys(map[], gn, GlobalSyms(s.globals));
    ExtendKeys(globals.scope, fn, FuncSyms(s.funcs));
    NoDupJoin(gn, fn);
    NoDupJoin(gn + fn, sn);
    assert forall n :: n in gn + fn <==> n in gn || n in fn;
    if states.errs == 0 { DefaultExact(funcs.scope, s.states); }
  }

  lemma TopScopesOk(s: Script)
    requires ProperScript(s)
    ensures ScopeOk(GlobalScope(s)) && ScopeOk(TopScope(s))
  {
    hide Extend, ProperOption, ProperBody;
    ExtendOk(map[], GlobalNames(s.globals), GlobalSyms(s.globals));
    assert forall i :: 0 <= i < |s.funcs| ==> ProperParams(s.funcs[i].params);
    ExtendOk(GlobalScope(s), FuncNames(s.funcs), FuncSyms(s.funcs));
    ExtendOk(Extend(GlobalScope(s), FuncNames(s.funcs), FuncSyms(s.funcs)), StateNames(s.states), StateSyms(s.states));
  }

  /** The checker's output with the initialisers as they were before folding. */
  function Annotated(ops: FloatOps, bi: Tables, lso: bool, s: Script): (a: Script)
    ensures |a.globals| == |s.globals|
  {
    CheckScript(ops, bi, lso, s).v.(globals :=
      seq(|s.globals|, i requires 0 <= i < |s.globals| => AnnotateGlobal(bi, lso, GlobalScope(s), s.globals[i])))
  }

  function FoldInits(ops: FloatOps, bi: Tables, s: Script): (r: Script)
    ensures |r.globals| == |s.globals|
  {
    s.(globals := seq(|s.globals|, i requires 0 <= i < |s.globals| => FoldInit(ops, bi, s.globals[i])))
  }

  lemma ScriptSound(ops: FloatOps, bi: Tables, lso: bool, s: Script)
    requires TablesOk(bi) && ProperScript(s) && CheckScript(ops, bi, lso, s).errs == 0
    ensures StripScript(Annotated(ops, bi, lso, s)) == StripScript(s)
    ensures WellScript(ops, bi, lso, Annotated(ops, bi, lso, s))
  {
    hide TablesOk, DeclareAll, Extend, NoDup, SawDefault, CheckGlobal, CheckFunc, CheckState, WellGlobal, WellFunc,
         WellState, ProperOption, ProperParams, ProperBody, StripScript, AnnotateGlobal, StripOption, StripStmt,
         StripEvents, ScopeOk, TopScope, GlobalScope, TopNames;
    DeclarationsExact(s);
    TopScopesOk(s);
    var a := Annotated(ops, bi, lso, s);
    var names, top := StateNames(s.states), TopScope(s);
    forall i | 0 <= i < |s.globals|
      ensures SameGlobal(s.globals[i], a.globals[i])
      ensures WellGlobal(ops, bi, lso, GlobalScope(s), a.globals[i])
    {
      GlobalSound(ops, bi, lso, GlobalScope(s), s.globals[i]);
      SameAnnotated(bi, lso, GlobalScope(s), s.globals[i]);
    }
    forall i | 0 <= i < |s.funcs|
      ensures SameFunc(s.funcs[i], a.funcs[i]) && WellFunc(bi, lso, names, top, a.funcs[i])
    {
      FuncSound(bi, lso, names, top, s.funcs[i]);
    }
    forall i | 0 <= i < |s.states|
      ensures SameState(s.states[i], a.states[i]) && WellState(bi, lso, names, top, a.states[i])
    {
      assert ProperEvents(s.states[i].events);
      StateSound(bi, lso, names, top, s.states[i]);
    }
    assert SameScript(s, a);
    SameExact(s, a);
    SameNames(s, a);
  }

  lemma SameAnnotated(bi: Tables, lso: bool, globals: Scope, g: Global)
    ensures var a := AnnotateGlobal(bi, lso, globals, g); a == g.(init := a.init)
  {
    hide CheckExpr;
  }

  lemma ScriptComplete(ops: FloatOps, bi: Tables, lso: bool, s: Script, a: Script)
    requires TablesOk(bi) && ProperScript(s)
    requires WellScript(ops, bi, lso, a) && StripScript(a) == StripScript(s)
    ensures CheckScript(ops, bi, lso, s).errs == 0
    ensures CheckScript(ops, bi, lso, s).v == FoldInits(ops, bi, a)
  {
    hide TablesOk, DeclareAll, Extend, NoDup, SawDefault, CheckGlobal, CheckFunc, CheckState, WellGlobal, WellFunc,
         WellState, ProperOption, ProperParams, ProperBody, StripScript, FoldInit, StripOption, StripStmt,
         StripEvents, ScopeOk, TopScope, GlobalScope, TopNames;
    SameExact(s, a);
    SameNames(s, a);
    DeclarationsExact(s);
    TopScopesOk(s);
    var names, top := StateNames(s.states), TopScope(s);
    var r := CheckScript(ops, bi, lso, s);
    forall i | 0 <= i < |s.globals|
      ensures CheckGlobal(ops, bi, lso, GlobalScope(s), s.globals[i]) == Checked(FoldInit(ops, bi, a.globals[i]), 0)
    {
      assert SameGlobal(s.globals[i], a.globals[i]);
      GlobalComplete(ops, bi, lso, GlobalScope(s), s.globals[i], a.globals[i]);
    }
    forall i | 0 <= i < |s.funcs|
      ensures CheckFunc(bi, lso, names, top, s.funcs[i]) == Checked(a.funcs[i], 0)
    {
      assert SameFunc(s.funcs[i], a.funcs[i]);
      FuncComplete(bi, lso, names, top, s.funcs[i], a.funcs[i]);
    }
    forall i | 0 <= i < |s.states|
      ensures CheckState(bi, lso, names, top, s.states[i]) == Checked(a.states[i], 0)
    {
      assert SameState(s.states[i], a.states[i]) && ProperEvents(s.states[i].events);
      StateComplete(bi, lso, names, top, s.states[i], a.states[i]);
    }
    assert r.v.globals == FoldInits(ops, bi, a).globals;
    assert r.v.funcs == a.funcs && r.v.states == a.states;
  }

  /** The main theorem.  The checker adds no error exactly when some annotation of the
      script is well formed; that annotation is then the only one, and the checker's output
      is it, with the initialisers of globals folded. */
  lemma ScriptAccepted(ops: FloatOps, bi: Tables, lso: bool, s: Script)
    requires TablesOk(bi) && ProperScript(s)
    ensures CheckScript(ops, bi, lso, s).errs == 0
      <==> exists a :: StripScript(a) == StripScript(s) && WellScript(ops, bi, lso, a)
    ensures forall a :: StripScript(a) == StripScript(s) && WellScript(ops, bi, lso, a) ==>
              CheckScript(ops, bi, lso, s) == Checked(FoldInits(ops, bi, a), 0)
  {
    hide TablesOk, ProperScript, CheckScript, StripScript, WellScript, FoldInits;
    if CheckScript(ops, bi, lso, s).errs == 0 { ScriptSound(ops, bi, lso, s); }
    forall a | StripScript(a) == StripScript(s) && WellScript(ops, bi, lso, a)
      ensures CheckScript(ops, bi, lso, s) == Checked(FoldInits(ops, bi, a), 0)
    {
      ScriptComplete(ops, bi, lso, s, a);
    }
  }
}
