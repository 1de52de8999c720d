/** What the names of a script, its scopes, its labels and the built-in tables come to, said
    by position rather than by search. */
module Declared {
  import opened Syntax
  import opened Seqs
  import opened Builtins
  import opened Typing
  import opened Judgement

  // ---------------------------------------------------------- built-in tables

  /** `f` is the first function of that name and arity; or there is none of that arity, and
      it is the first of that name. */
  ghost predicate Overload(fns: seq<BuiltinFn>, name: string, n: nat, f: BuiltinFn) {
    exists i :: 0 <= i < |fns| && fns[i] == f && f.name == name &&
      (if |f.params| == n then forall j :: 0 <= j < i ==> fns[j].name != name || |fns[j].params| != n
       else
         && (forall g :: g in fns ==> g.name != name || |g.params| != n)
         && (forall j :: 0 <= j < i ==> fns[j].name != name))
  }

  lemma {:induction false} FirstNamed(fns: seq<BuiltinFn>, name: string, i: nat)
    requires i < |fns| && fns[i].name == name && forall j :: 0 <= j < i ==> fns[j].name != name
    ensures FnNamed(fns, name) == Some(fns[i])
  {
    if i > 0 { FirstNamed(fns[1..], name, i - 1); }
  }

  lemma {:induction false} FirstOfArity(fns: seq<BuiltinFn>, name: string, n: nat, i: nat)
    requires i < |fns| && fns[i].name == name && |fns[i].params| == n
    requires forall j :: 0 <= j < i ==> fns[j].name != name || |fns[j].params| != n
    ensures FnOfArity(fns, name, n) == Some(fns[i])
  {
    if i > 0 { FirstOfArity(fns[1..], name, n, i - 1); }
  }

  /** Where the first one stands. */
  lemma {:induction false} NamedAt(fns: seq<BuiltinFn>, name: string) returns (i: nat)
    requires FnNamed(fns, name).Some?
    ensures i < |fns| && FnNamed(fns, name) == Some(fns[i]) && forall j :: 0 <= j < i ==> fns[j].name != name
  {
    if fns[0].name == name { i := 0; } else {
      var k := NamedAt(fns[1..], name);
      i := k + 1;
    }
  }

  lemma {:induction false} OfArityAt(fns: seq<BuiltinFn>, name: string, n: nat) returns (i: nat)
    requires FnOfArity(fns, name, n).Some?
    ensures i < |fns| && FnOfArity(fns, name, n) == Some(fns[i])
    ensures forall j :: 0 <= j < i ==> fns[j].name != name || |fns[j].params| != n
  {
    if fns[0].name == name && |fns[0].params| == n { i := 0; } else {
      var k := OfArityAt(fns[1..], name, n);
      i := k + 1;
    }
  }

  /** A call is checked against the overload that it should be. */
  lemma OverloadChosen(fns: seq<BuiltinFn>, name: string, n: nat, f: BuiltinFn)
    ensures FnFor(fns, name, n) == Some(f) <==> Overload(fns, name, n, f)
    ensures FnFor(fns, name, n).None? <==> forall g :: g in fns ==> g.name != name
  {
    hide FnNamed, FnOfArity;
    if FnFor(fns, name, n) == Some(f) {
      var i: nat;
      if FnOfArity(fns, name, n).Some? { i := OfArityAt(fns, name, n); } else { i := NamedAt(fns, name); }
      assert fns[i] == f;
    }
    if Overload(fns, name, n, f) {
      var i :| 0 <= i < |fns| && fns[i] == f && f.name == name &&
        (if |f.params| == n then forall j :: 0 <= j < i ==> fns[j].name != name || |fns[j].params| != n
         else
           && (forall g :: g in fns ==> g.name != name || |g.params| != n)
           && (forall j :: 0 <= j < i ==> fns[j].name != name));
      if |f.params| == n { FirstOfArity(fns, name, n, i); } else { FirstNamed(fns, name, i); }
    }
  }

  /** The first constant of a name is the one that counts. */
  lemma {:induction false} FirstConst(consts: seq<BuiltinConst>, name: string, i: nat)
    requires i < |consts| && consts[i].name == name && forall j :: 0 <= j < i ==> consts[j].name != name
    ensures ConstNamed(consts, name) == Some(consts[i].val)
  {
    if i > 0 { FirstConst(consts[1..], name, i - 1); }
  }

  /** So is the first event of a name and arity. */
  lemma {:induction false} FirstEvent(events: seq<BuiltinEvent>, name: string, n: nat, i: nat)
    requires i < |events| && events[i].name == name && |events[i].params| == n
    requires forall j :: 0 <= j < i ==> events[j].name != name || |events[j].params| != n
    ensures EventOfArity(events, name, n) == Some(events[i])
  {
    if i > 0 { FirstEvent(events[1..], name, n, i - 1); }
  }

  // ------------------------------------------------------------------ scopes

  /** Scope `i` is the innermost that binds the name, and binds it to `sym`. */
  ghost predicate BoundIn(scopes: seq<Scope>, name: string, i: int, sym: Sym) {
    && 0 <= i < |scopes| && name in scopes[i] && scopes[i][name] == sym
    && forall j :: i < j < |scopes| ==> name !in scopes[j]
  }

  lemma {:induction false} InnermostFound(scopes: seq<Scope>, name: string, sym: Sym)
    ensures Lookup(scopes, name) == Some(sym) <==> exists i :: BoundIn(scopes, name, i, sym)
    ensures Lookup(scopes, name).None? <==> forall i :: 0 <= i < |scopes| ==> name !in scopes[i]
    decreases |scopes|
  {
    if scopes != [] {
      var n := |scopes| - 1;
      var outer := scopes[..n];
      InnermostFound(outer, name, sym);
      if name in scopes[n] {
        assert scopes[n][name] == sym ==> BoundIn(scopes, name, n, sym);
      } else {
        forall i | BoundIn(outer, name, i, sym) ensures BoundIn(scopes, name, i, sym) { }
        forall i | BoundIn(scopes, name, i, sym) ensures BoundIn(outer, name, i, sym) { }
      }
    }
  }

  /** A binding changes its own name in the innermost scope, and a new scope binds nothing. */
  lemma BindingsFound(scopes: Scopes, name: string, sym: Sym, other: string)
    ensures Lookup(Bind(scopes, name, sym), other) == if other == name then Some(sym) else Lookup(scopes, other)
    ensures LookupGlobal(Bind(scopes, name, sym), other)
      == if other == name && |scopes| == 1 then Some(sym) else LookupGlobal(scopes, other)
    ensures other in Innermost(Bind(scopes, name, sym)) <==> other == name || other in Innermost(scopes)
    ensures Lookup(Push(scopes), other) == Lookup(scopes, other) && other !in Innermost(Push(scopes))
    ensures LookupGlobal(scopes, other) == Lookup(scopes[..1], other)
  {
    var n := |scopes| - 1;
    var bound := Bind(scopes, name, sym);
    assert bound[..n] == scopes[..n];
    assert Push(scopes)[..|scopes|] == scopes;
    assert scopes[..1][..0] == [];
  }

  // ------------------------------------------------------------------ identifiers

  function ConstType(v: ConstValue): Type {
    match v
    case ConstInt(_) => TInteger
    case ConstFloat(_) => TFloat
    case ConstString(_) => TString
    case ConstKey(_) => TKey
  }

  /** Entry `i` is the first constant of that name. */
  ghost predicate ConstAt(consts: seq<BuiltinConst>, name: string, i: int) {
    0 <= i < |consts| && consts[i].name == name && forall j :: 0 <= j < i ==> consts[j].name != name
  }

  lemma {:induction false} ConstFound(consts: seq<BuiltinConst>, name: string) returns (i: nat)
    requires ConstNamed(consts, name).Some?
    ensures ConstAt(consts, name, i)
  {
    if consts[0].name == name { i := 0; } else {
      var k := ConstFound(consts[1..], name);
      i := k + 1;
    }
  }

  /** A name is right where it means a global, a local variable or a parameter, which may be
      assigned to, or else, if nothing of that name is declared, a built-in constant. */
  lemma IdentifierTyped(env: Env, name: string, t: Type, lv: bool)
    ensures Typed(env, Node(t, lv, Ident(name))) <==>
      || (exists i, sym :: BoundIn(env.scopes, name, i, sym) && sym.kind in {SymGlobal, SymLocal, SymParam} &&
                           t == sym.ty && lv)
      || ((forall i :: 0 <= i < |env.scopes| ==> name !in env.scopes[i]) && !lv &&
          exists i :: ConstAt(env.bi.consts, name, i) && t == ConstType(env.bi.consts[i].val))
  {
    hide Lookup, ConstNamed;
    var found := Lookup(env.scopes, name);
    if found.Some? {
      InnermostFound(env.scopes, name, found.value);
      forall i, sym | BoundIn(env.scopes, name, i, sym) ensures found == Some(sym) {
        InnermostFound(env.scopes, name, sym);
      }
    } else {
      InnermostFound(env.scopes, name, Sym(SymGlobal, TVoid, []));
      forall i | ConstAt(env.bi.consts, name, i) ensures ConstNamed(env.bi.consts, name) == Some(env.bi.consts[i].val) {
        FirstConst(env.bi.consts, name, i);
      }
      if ConstNamed(env.bi.consts, name).Some? { var i := ConstFound(env.bi.consts, name); }
    }
  }

  /** The name at the root of a chain of component selections. */
  function Root(e: Expr): Option<string>
    decreases e
  {
    match e.kind
    case Ident(name) => Some(name)
    case Member(base, _) => Root(base)
    case _ => None
  }

  /** What may be assigned to is a declared name, or components of one. */
  lemma {:induction false} AssignableExactly(env: Env, e: Expr)
    requires Typed(env, e)
    ensures IsLValue(e) <==> Root(e).Some? && exists i :: 0 <= i < |env.scopes| && Root(e).value in env.scopes[i]
    decreases e
  {
    match e.kind
    case Ident(name) => InnermostFound(env.scopes, name, Lookup(env.scopes, name).GetOr(Sym(SymGlobal, TVoid, [])));
    case Member(base, _) => AssignableExactly(env, base);
    case _ =>
  }

  // ------------------------------------------------------------ labels and jumps

  /** How often a statement of kind `k` occurs in the statement, at any nesting. */
  function Times(s: Stmt, k: StmtKind): nat
    decreases s
  {
    (if s.kind == k then 1 else 0) +
    match s.kind
    case Block(stmts) => TimesIn(stmts, k)
    case If(_, thn, els) => Times(thn, k) + if els.Some? then Times(els.value, k) else 0
    case While(_, body) => Times(body, k)
    case DoWhile(body, _) => Times(body, k)
    case For(_, _, _, body) => Times(body, k)
    case _ => 0
  }

  function TimesIn(ss: seq<Stmt>, k: StmtKind): nat
    decreases ss
  {
    if ss == [] then 0 else Times(ss[0], k) + TimesIn(ss[1..], k)
  }

  /** A label or a target without a name stands for one called `?`. */
  function LabelTimes(s: Stmt, name: string): nat {
    Times(s, Label(Some(name))) + if name == "?" then Times(s, Label(None)) else 0
  }

  function LabelTimesIn(ss: seq<Stmt>, name: string): nat {
    TimesIn(ss, Label(Some(name))) + if name == "?" then TimesIn(ss, Label(None)) else 0
  }

  function JumpTimes(s: Stmt, name: string): nat {
    Times(s, Jump(Some(name))) + if name == "?" then Times(s, Jump(None)) else 0
  }

  function JumpTimesIn(ss: seq<Stmt>, name: string): nat {
    TimesIn(ss, Jump(Some(name))) + if name == "?" then TimesIn(ss, Jump(None)) else 0
  }

  lemma {:induction false} LabelsCounted(s: Stmt, name: string)
    ensures multiset(Labels(s))[name] == LabelTimes(s, name)
    decreases s, 2
  {
    match s.kind
    case Label(_) =>
    case _ => LabelsInsideCounted(s, name);
  }

  lemma {:induction false} LabelsInsideCounted(s: Stmt, name: string)
    requires !s.kind.Label?
    ensures multiset(Labels(s))[name] == LabelTimes(s, name)
    decreases s, 1
  {
    hide TimesIn;
    match s.kind
    case Block(stmts) => LabelsInCounted(stmts, name);
    case If(_, _, _) => LabelsOfIfCounted(s, name);
    case While(_, body) => LabelsCounted(body, name);
    case DoWhile(body, _) => LabelsCounted(body, name);
    case For(_, _, _, body) => LabelsCounted(body, name);
    case _ =>
  }

  lemma {:induction false} LabelsOfIfCounted(s: Stmt, name: string)
    requires s.kind.If?
    ensures multiset(Labels(s))[name] == LabelTimes(s, name)
    decreases s, 0
  {
    var If(_, thn, els) := s.kind;
    LabelsCounted(thn, name);
    if els.Some? { LabelsCounted(els.value, name); }
  }

  lemma {:induction false} LabelsInCounted(ss: seq<Stmt>, name: string)
    ensures multiset(LabelsOf(ss))[name] == LabelTimesIn(ss, name)
    decreases ss
  {
    if ss != [] {
      LabelsCounted(ss[0], name);
      LabelsInCounted(ss[1..], name);
    }
  }

  lemma {:induction false} JumpsCounted(s: Stmt, name: string)
    ensures multiset(Jumps(s))[name] == JumpTimes(s, name)
    decreases s, 2
  {
    match s.kind
    case Jump(_) =>
    case _ => JumpsInsideCounted(s, name);
  }

  lemma {:induction false} JumpsInsideCounted(s: Stmt, name: string)
    requires !s.kind.Jump?
    ensures multiset(Jumps(s))[name] == JumpTimes(s, name)
    decreases s, 1
  {
    hide TimesIn;
    match s.kind
    case Block(stmts) => JumpsInCounted(stmts, name);
    case If(_, _, _) => JumpsOfIfCounted(s, name);
    case While(_, body) => JumpsCounted(body, name);
    case DoWhile(body, _) => JumpsCounted(body, name);
    case For(_, _, _, body) => JumpsCounted(body, name);
    case _ =>
  }

  lemma {:induction false} JumpsOfIfCounted(s: Stmt, name: string)
    requires s.kind.If?
    ensures multiset(Jumps(s))[name] == JumpTimes(s, name)
    decreases s, 0
  {
    var If(_, thn, els) := s.kind;
    JumpsCounted(thn, name);
    if els.Some? { JumpsCounted(els.value, name); }
  }

  lemma {:induction false} JumpsInCounted(ss: seq<Stmt>, name: string)
    ensures multiset(JumpsOf(ss))[name] == JumpTimesIn(ss, name)
    decreases ss
  {
    if ss != [] {
      JumpsCounted(ss[0], name);
      JumpsInCounted(ss[1..], name);
    }
  }

  lemma {:induction false} NoDupCounts(s: seq<string>)
    ensures NoDup(s) <==> forall x :: multiset(s)[x] <= 1
    decreases |s|
  {
    if s != [] {
      var first, rest := s[0], s[1..];
      NoDupCounts(rest);
      NoDupFirst(s);
      assert s == [first] + rest;
      assert multiset(s)[first] == 1 + multiset(rest)[first];
      if NoDup(s) {
        forall x ensures multiset(s)[x] <= 1 { assert multiset(rest)[x] <= 1; }
      } else if NoDup(rest) {
        assert first in multiset(rest);
      } else {
        var x :| multiset(rest)[x] > 1;
        assert multiset(s)[x] > 1;
      }
    }
  }

  lemma NoDupFirst(s: seq<string>)
    requires s != []
    ensures NoDup(s) <==> NoDup(s[1..]) && s[0] !in s[1..]
  {
    var rest := s[1..];
    if NoDup(s) {
      forall i, j | 0 <= i < j < |rest| ensures rest[i] != rest[j] { assert s[i + 1] != s[j + 1]; }
      forall k | 0 <= k < |rest| ensures rest[k] != s[0] { assert rest[k] == s[k + 1]; }
    }
    if NoDup(rest) && s[0] !in rest {
      forall i, j | 0 <= i < j < |s| ensures s[i] != s[j] {
        assert s[j] == rest[j - 1];
        if i > 0 { assert s[i] == rest[i - 1]; }
      }
    }
  }

  /** In a body every label stands once, and every jump has a label, at any nesting. */
  lemma JumpsLand(body: seq<Stmt>)
    ensures NoDup(LabelsOf(body)) <==> forall name :: LabelTimesIn(body, name) <= 1
    ensures (forall j :: j in JumpsOf(body) ==> j in LabelsOf(body)) <==>
            forall name :: JumpTimesIn(body, name) > 0 ==> LabelTimesIn(body, name) > 0
  {
    hide LabelsOf, JumpsOf, TimesIn, LabelTimesIn, JumpTimesIn, NoDup;
    forall name
      ensures multiset(LabelsOf(body))[name] == LabelTimesIn(body, name)
      ensures multiset(JumpsOf(body))[name] == JumpTimesIn(body, name)
    {
      LabelsInCounted(body, name);
      JumpsInCounted(body, name);
    }
    NoDupCounts(LabelsOf(body));
    forall name ensures name in JumpsOf(body) <==> JumpTimesIn(body, name) > 0 { InCounts(JumpsOf(body), name); }
    forall name ensures name in LabelsOf(body) <==> LabelTimesIn(body, name) > 0 { InCounts(LabelsOf(body), name); }
  }

  lemma InCounts(s: seq<string>, name: string)
    ensures name in s <==> multiset(s)[name] > 0
  {
  }

  // ------------------------------------------------------------- declared names

  lemma {:induction false} ExtendOther(top: Scope, names: seq<string>, syms: seq<Sym>, name: string)
    requires |names| == |syms| && name !in names
    ensures name in Extend(top, names, syms) <==> name in top
    ensures name in top ==> Extend(top, names, syms)[name] == top[name]
    decreases |names|
  {
    if names != [] { ExtendOther(top[names[0] := syms[0]], names[1..], syms[1..], name); }
  }

  lemma {:induction false} ExtendAt(top: Scope, names: seq<string>, syms: seq<Sym>, i: nat)
    requires |names| == |syms| && NoDup(names) && i < |names|
    ensures names[i] in Extend(top, names, syms) && Extend(top, names, syms)[names[i]] == syms[i]
    decreases |names|
  {
    NoDupFirst(names);
    if i == 0 {
      ExtendOther(top[names[0] := syms[0]], names[1..], syms[1..], names[0]);
    } else {
      ExtendAt(top[names[0] := syms[0]], names[1..], syms[1..], i - 1);
    }
  }

  lemma ParamsDistinct(params: seq<Param>)
    ensures NoDup(ParamNames(params)) <==> forall i, j :: 0 <= i < j < |params| ==> params[i].name != params[j].name
  {
    var names := ParamNames(params);
    if NoDup(names) {
      forall i, j | 0 <= i < j < |params| ensures params[i].name != params[j].name { assert names[i] != names[j]; }
    }
  }

  /** The parameters, as variables, and nothing else. */
  lemma ParamsDeclared(params: seq<Param>, name: string)
    ensures name in ParamScope(params) <==> exists i :: 0 <= i < |params| && params[i].name == name
    ensures NoDup(ParamNames(params)) ==>
      forall i :: 0 <= i < |params| ==>
        params[i].name in ParamScope(params) && ParamScope(params)[params[i].name] == Sym(SymParam, params[i].ty, [])
  {
    hide Extend;
    var names, syms := ParamNames(params), ParamSyms(params);
    if name in names {
      var i :| 0 <= i < |names| && names[i] == name;
      ExtendHas(map[], names, syms, i);
      assert params[i].name == name;
    } else {
      ExtendOther(map[], names, syms, name);
      forall i | 0 <= i < |params| ensures params[i].name != name { assert names[i] == params[i].name; }
    }
    if NoDup(names) {
      forall i | 0 <= i < |params|
        ensures params[i].name in ParamScope(params)
        ensures ParamScope(params)[params[i].name] == Sym(SymParam, params[i].ty, [])
      {
        ExtendAt(map[], names, syms, i);
      }
    }
  }

  lemma {:induction false} ExtendHas(top: Scope, names: seq<string>, syms: seq<Sym>, i: nat)
    requires |names| == |syms| && i < |names|
    ensures names[i] in Extend(top, names, syms)
    decreases |names|
  {
    if names[0] in names[1..] {
      var k :| 0 <= k < |names[1..]| && names[1..][k] == names[0];
      if i == 0 {
        ExtendHas(top[names[0] := syms[0]], names[1..], syms[1..], k);
      } else {
        ExtendHas(top[names[0] := syms[0]], names[1..], syms[1..], i - 1);
      }
    } else if i == 0 {
      ExtendOther(top[names[0] := syms[0]], names[1..], syms[1..], names[0]);
    } else {
      ExtendHas(top[names[0] := syms[0]], names[1..], syms[1..], i - 1);
    }
  }

  lemma NoDupJoin(a: seq<string>, b: seq<string>)
    ensures NoDup(a + b) <==> NoDup(a) && NoDup(b) && forall x :: x in a ==> x !in b
  {
    var all := a + b;
    if NoDup(all) {
      forall i, j | 0 <= i < j < |a| ensures a[i] != a[j] { assert all[i] != all[j]; }
      forall i, j | 0 <= i < j < |b| ensures b[i] != b[j] { assert all[|a| + i] != all[|a| + j]; }
      forall i, j | 0 <= i < |a| && 0 <= j < |b| ensures a[i] != b[j] { assert all[i] != all[|a| + j]; }
    }
    if NoDup(a) && NoDup(b) && forall x :: x in a ==> x !in b {
      forall i, j | 0 <= i < j < |all| ensures all[i] != all[j] {
        if i < |a| && j >= |a| { assert all[i] in a && all[j] in b; }
      }
    }
  }

  /** The script declares a global, a function or a state of that name. */
  ghost predicate DeclaresGlobal(s: Script, name: string) {
    exists i :: 0 <= i < |s.globals| && s.globals[i].name == name
  }

  ghost predicate DeclaresFunc(s: Script, name: string) {
    exists i :: 0 <= i < |s.funcs| && s.funcs[i].name == name
  }

  ghost predicate DeclaresState(s: Script, name: string) {
    exists i :: 0 <= i < |s.states| && s.states[i].name == name
  }

  /** No name is declared twice, in the same way or in different ways. */
  ghost predicate NamedApart(s: Script) {
    && (forall i, j :: 0 <= i < j < |s.globals| ==> s.globals[i].name != s.globals[j].name)
    && (forall i, j :: 0 <= i < j < |s.funcs| ==> s.funcs[i].name != s.funcs[j].name)
    && (forall i, j :: 0 <= i < j < |s.states| ==> s.states[i].name != s.states[j].name)
    && (forall name :: DeclaresGlobal(s, name) ==> !DeclaresFunc(s, name) && !DeclaresState(s, name))
    && (forall name :: DeclaresFunc(s, name) ==> !DeclaresState(s, name))
  }

  lemma NamesIn(s: Script, name: string)
    ensures name in GlobalNames(s.globals) <==> DeclaresGlobal(s, name)
    ensures name in FuncNames(s.funcs) <==> DeclaresFunc(s, name)
    ensures name in StateNames(s.states) <==> DeclaresState(s, name)
  {
    var gs, fs, ss := GlobalNames(s.globals), FuncNames(s.funcs), StateNames(s.states);
    assert forall i :: 0 <= i < |gs| ==> gs[i] == s.globals[i].name;
    assert forall i :: 0 <= i < |fs| ==> fs[i] == s.funcs[i].name;
    assert forall i :: 0 <= i < |ss| ==> ss[i] == s.states[i].name;
  }

  lemma ListsApart(s: Script)
    ensures NoDup(GlobalNames(s.globals)) <==>
            forall i, j :: 0 <= i < j < |s.globals| ==> s.globals[i].name != s.globals[j].name
    ensures NoDup(FuncNames(s.funcs)) <==>
            forall i, j :: 0 <= i < j < |s.funcs| ==> s.funcs[i].name != s.funcs[j].name
    ensures NoDup(StateNames(s.states)) <==>
            forall i, j :: 0 <= i < j < |s.states| ==> s.states[i].name != s.states[j].name
  {
    var gs, fs, ss := GlobalNames(s.globals), FuncNames(s.funcs), StateNames(s.states);
    if NoDup(gs) {
      forall i, j | 0 <= i < j < |s.globals| ensures s.globals[i].name != s.globals[j].name { assert gs[i] != gs[j]; }
    }
    if NoDup(fs) {
      forall i, j | 0 <= i < j < |s.funcs| ensures s.funcs[i].name != s.funcs[j].name { assert fs[i] != fs[j]; }
    }
    if NoDup(ss) {
      forall i, j | 0 <= i < j < |s.states| ensures s.states[i].name != s.states[j].name { assert ss[i] != ss[j]; }
    }
  }

  lemma TopApart(s: Script)
    ensures NoDup(TopNames(s)) <==> NamedApart(s)
  {
    hide GlobalNames, FuncNames, StateNames, NoDup, DeclaresGlobal, DeclaresFunc, DeclaresState;
    forall name
      ensures name in GlobalNames(s.globals) <==> DeclaresGlobal(s, name)
      ensures name in FuncNames(s.funcs) <==> DeclaresFunc(s, name)
      ensures name in StateNames(s.states) <==> DeclaresState(s, name)
    {
      NamesIn(s, name);
    }
    ListsApart(s);
    NoDupJoin(GlobalNames(s.globals), FuncNames(s.funcs));
    NoDupJoin(GlobalNames(s.globals) + FuncNames(s.funcs), StateNames(s.states));
  }

  /** What a script declares at top level is what its bodies see, and its initialisers see
      the globals only. */
  ghost predicate SeenAs(s: Script, top: Scope) {
    && (forall i :: 0 <= i < |s.globals| ==>
          s.globals[i].name in top && top[s.globals[i].name] == Sym(SymGlobal, s.globals[i].ty, []))
    && (forall i :: 0 <= i < |s.funcs| ==> FuncSeen(s.funcs[i], top))
    && (forall i :: 0 <= i < |s.states| ==>
          s.states[i].name in top && top[s.states[i].name] == Sym(SymState, TVoid, []))
  }

  ghost predicate FuncSeen(f: Func, top: Scope) {
    && f.name in top && top[f.name].kind == SymFunc && top[f.name].ty == f.ret
    && |top[f.name].params| == |f.params|
    && forall j :: 0 <= j < |f.params| ==> top[f.name].params[j] == f.params[j].ty
  }

  lemma GlobalsSeen(s: Script, i: nat)
    requires NoDup(TopNames(s)) && i < |s.globals|
    ensures var g, top := s.globals[i], TopScope(s);
      && g.name in GlobalScope(s) && GlobalScope(s)[g.name] == Sym(SymGlobal, g.ty, [])
      && g.name in top && top[g.name] == Sym(SymGlobal, g.ty, [])
  {
    hide Extend, NoDup;
    var gs, fs, ss := GlobalNames(s.globals), FuncNames(s.funcs), StateNames(s.states);
    NoDupJoin(gs, fs);
    NoDupJoin(gs + fs, ss);
    ExtendAt(map[], gs, GlobalSyms(s.globals), i);
    assert gs[i] == s.globals[i].name && gs[i] in gs + fs;
    ExtendOther(GlobalScope(s), fs, FuncSyms(s.funcs), gs[i]);
    ExtendOther(Extend(GlobalScope(s), fs, FuncSyms(s.funcs)), ss, StateSyms(s.states), gs[i]);
  }

  lemma FuncsSeen(s: Script, i: nat)
    requires NoDup(TopNames(s)) && i < |s.funcs|
    ensures FuncSeen(s.funcs[i], TopScope(s))
  {
    hide Extend, NoDup;
    var gs, fs, ss := GlobalNames(s.globals), FuncNames(s.funcs), StateNames(s.states);
    NoDupJoin(gs, fs);
    NoDupJoin(gs + fs, ss);
    ExtendAt(GlobalScope(s), fs, FuncSyms(s.funcs), i);
    assert fs[i] == s.funcs[i].name && fs[i] in gs + fs;
    ExtendOther(Extend(GlobalScope(s), fs, FuncSyms(s.funcs)), ss, StateSyms(s.states), fs[i]);
  }

  lemma StatesSeen(s: Script, i: nat)
    requires NoDup(TopNames(s)) && i < |s.states|
    ensures s.states[i].name in TopScope(s) && TopScope(s)[s.states[i].name] == Sym(SymState, TVoid, [])
  {
    hide Extend, NoDup;
    var gs, fs, ss := GlobalNames(s.globals), FuncNames(s.funcs), StateNames(s.states);
    NoDupJoin(gs + fs, ss);
    ExtendAt(Extend(GlobalScope(s), fs, FuncSyms(s.funcs)), ss, StateSyms(s.states), i);
    assert ss[i] == s.states[i].name;
  }

  lemma {:induction false} ExtendOnly(top: Scope, names: seq<string>, syms: seq<Sym>, name: string)
    requires |names| == |syms|
    ensures name in Extend(top, names, syms) <==> name in top || name in names
  {
    if name in names {
      var i :| 0 <= i < |names| && names[i] == name;
      ExtendHas(top, names, syms, i);
    } else {
      ExtendOther(top, names, syms, name);
    }
  }

  /** Whether names are declared once, what they then mean, and that nothing else has a meaning. */
  lemma TopDeclared(s: Script)
    ensures NoDup(TopNames(s)) <==> NamedApart(s)
    ensures NamedApart(s) ==> SeenAs(s, TopScope(s))
    ensures NamedApart(s) ==>
      forall i :: 0 <= i < |s.globals| ==>
        s.globals[i].name in GlobalScope(s) && GlobalScope(s)[s.globals[i].name] == Sym(SymGlobal, s.globals[i].ty, [])
    ensures forall name :: name in GlobalScope(s) <==> DeclaresGlobal(s, name)
    ensures forall name :: name in TopScope(s) <==>
      DeclaresGlobal(s, name) || DeclaresFunc(s, name) || DeclaresState(s, name)
  {
    hide GlobalNames, FuncNames, StateNames, NoDup, DeclaresGlobal, DeclaresFunc, DeclaresState, NamedApart, FuncSeen,
         GlobalSyms, FuncSyms, StateSyms, Extend, TopNames;
    TopApart(s);
    if NamedApart(s) {
      forall i | 0 <= i < |s.globals|
        ensures var g, top := s.globals[i], TopScope(s);
          && g.name in GlobalScope(s) && GlobalScope(s)[g.name] == Sym(SymGlobal, g.ty, [])
          && g.name in top && top[g.name] == Sym(SymGlobal, g.ty, [])
      {
        GlobalsSeen(s, i);
      }
      forall i | 0 <= i < |s.funcs| ensures FuncSeen(s.funcs[i], TopScope(s)) { FuncsSeen(s, i); }
      forall i | 0 <= i < |s.states|
        ensures s.states[i].name in TopScope(s) && TopScope(s)[s.states[i].name] == Sym(SymState, TVoid, [])
      {
        StatesSeen(s, i);
      }
    }
    forall name
      ensures name in GlobalScope(s) <==> DeclaresGlobal(s, name)
      ensures name in TopScope(s) <==> DeclaresGlobal(s, name) || DeclaresFunc(s, name) || DeclaresState(s, name)
    {
      NamesIn(s, name);
      ExtendOnly(map[], GlobalNames(s.globals), GlobalSyms(s.globals), name);
      ExtendOnly(GlobalScope(s), FuncNames(s.funcs), FuncSyms(s.funcs), name);
      ExtendOnly(Extend(GlobalScope(s), FuncNames(s.funcs), FuncSyms(s.funcs)), StateNames(s.states),
                 StateSyms(s.states), name);
    }
  }

  // ------------------------------------------------------------------ bodies

  /** A declaration is seen from where it stands, by its own initialiser too; before, the
      innermost scope must not have the name. */
  lemma DeclarationSeen(ctx: Ctx, scopes: Scopes, line: int, ty: Type, name: string, init: Option<Expr>, other: string)
    ensures var d := Stmt(line, Decl(ty, name, init));
      && Lookup(After(scopes, d), other)
           == (if other == name then Some(Sym(SymLocal, ty, [])) else Lookup(scopes, other))
      && (WellStmt(ctx, scopes, d) <==>
          && name !in scopes[|scopes| - 1]
          && (init.Some? ==> Typed(Env(ctx.bi, ctx.lso, After(scopes, d)), init.value) && Converts(init.value.ty, ty)))
  {
    hide Typed, Lookup, Bind, Converts;
    BindingsFound(scopes, name, LocalSym(ty), other);
  }

  lemma ExpressionJudged(ctx: Ctx, scopes: Scopes, line: int, e: Expr)
    ensures WellStmt(ctx, scopes, Stmt(line, ExprStmt(e))) <==> Typed(Env(ctx.bi, ctx.lso, scopes), e)
  {
    hide Typed;
  }

  /** Each label stands once in the body, and each jump has one. */
  ghost predicate Lands(body: seq<Stmt>) {
    && (forall name :: LabelTimesIn(body, name) <= 1)
    && (forall name :: JumpTimesIn(body, name) > 0 ==> LabelTimesIn(body, name) > 0)
  }

  /** The body of a function sees the top level and the parameters, in scopes of their own. */
  lemma FuncJudged(bi: Tables, lso: bool, states: seq<string>, top: Scope, f: Func, stmts: seq<Stmt>)
    requires f.body.kind == Block(stmts)
    ensures WellFunc(bi, lso, states, top, f) <==>
      && (forall i, j :: 0 <= i < j < |f.params| ==> f.params[i].name != f.params[j].name)
      && WellStmts(Ctx(bi, lso, Some(f.ret), states), [top, ParamScope(f.params), map[]], stmts)
      && Lands(stmts)
  {
    hide WellStmts, ParamScope, NoDup, LabelsOf, JumpsOf, LabelTimesIn, JumpTimesIn;
    ParamsDistinct(f.params);
    JumpsLand(stmts);
    assert Push([top, ParamScope(f.params)]) == [top, ParamScope(f.params), map[]];
  }

  /** So does that of an event; the first built-in event of its name and number of parameters
      has those types, or no type at all. */
  lemma EventJudged(bi: Tables, lso: bool, states: seq<string>, top: Scope, ev: Event, stmts: seq<Stmt>)
    requires ev.body.kind == Block(stmts)
    ensures WellEvent(bi, lso, states, top, ev) <==>
      && (exists k :: EventFits(bi.events, ev, k))
      && (forall i, j :: 0 <= i < j < |ev.params| ==> ev.params[i].name != ev.params[j].name)
      && WellStmts(Ctx(bi, lso, None, states), [top, ParamScope(ev.params), map[]], stmts)
      && Lands(stmts)
  {
    hide WellStmts, ParamScope, NoDup, LabelsOf, JumpsOf, LabelTimesIn, JumpTimesIn, EventRule, EventFits;
    ParamsDistinct(ev.params);
    JumpsLand(stmts);
    EventRuleFits(bi, ev);
    assert Push([top, ParamScope(ev.params)]) == [top, ParamScope(ev.params), map[]];
  }

  /** Entry `k` is the first of the event's name and number of parameters, and has their types. */
  ghost predicate EventFits(events: seq<BuiltinEvent>, ev: Event, k: int) {
    && 0 <= k < |events| && events[k].name == ev.name && |events[k].params| == |ev.params|
    && (forall j :: 0 <= j < k ==> events[j].name != ev.name || |events[j].params| != |ev.params|)
    && forall i :: 0 <= i < |ev.params| ==>
         events[k].params[i] == TVoid || events[k].params[i] == ev.params[i].ty
  }

  lemma {:induction false} EventFound(events: seq<BuiltinEvent>, name: string, n: nat) returns (k: nat)
    requires EventOfArity(events, name, n).Some?
    ensures k < |events| && EventOfArity(events, name, n) == Some(events[k])
    ensures forall j :: 0 <= j < k ==> events[j].name != name || |events[j].params| != n
  {
    if events[0].name == name && |events[0].params| == n { k := 0; } else {
      var m := EventFound(events[1..], name, n);
      k := m + 1;
    }
  }

  lemma EventRuleFits(bi: Tables, ev: Event)
    ensures EventRule(bi, ev.name, ParamTypes(ev.params)) <==> exists k :: EventFits(bi.events, ev, k)
  {
    hide EventOfArity;
    var types := ParamTypes(ev.params);
    assert forall i :: 0 <= i < |types| ==> types[i] == ev.params[i].ty;
    if EventRule(bi, ev.name, types) {
      var k := EventFound(bi.events, ev.name, |types|);
      assert EventFits(bi.events, ev, k);
    }
    forall k | EventFits(bi.events, ev, k) ensures EventRule(bi, ev.name, types) {
      FirstEvent(bi.events, ev.name, |types|, k);
    }
  }

  lemma EventsDistinct(events: seq<Event>)
    ensures NoDup(EventNames(events)) <==> forall i, j :: 0 <= i < j < |events| ==> events[i].name != events[j].name
  {
    var names := EventNames(events);
    if NoDup(names) {
      forall i, j | 0 <= i < j < |events| ensures events[i].name != events[j].name { assert names[i] != names[j]; }
    }
  }
}
