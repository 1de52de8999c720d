/** What may stand after the `=` of a global variable. */
module Initialisers {
  import opened Syntax
  import opened Builtins
  import opened Typing
  import opened Fold
  import opened Judgement
  import opened CheckSpec
  import opened CheckProgram
  import opened Constants
  import opened FoldMeaning
  import opened FoldStable
  import FoldExact

  /** In an accepted script every initialiser, once annotated, is a constant of the language. */
  lemma InitialisersConstant(ops: FloatOps, bi: Tables, lso: bool, s: Script, i: nat)
    requires TablesOk(bi) && ProperScript(s) && CheckScript(ops, bi, lso, s).errs == 0
    requires i < |s.globals| && s.globals[i].init.Some?
    ensures exists e :: Strip(e) == Strip(s.globals[i].init.value) && IsConstantExpr(ops, bi, e)
  {
    hide TablesOk, ProperScript, CheckScript, Strip, StripStmt, StripEvents, IsConstantExpr, WellFunc, WellState,
         Typed, GlobalScope, TopScope;
    ScriptAccepted(ops, bi, lso, s);
    var a :| StripScript(a) == StripScript(s) && WellScript(ops, bi, lso, a);
    assert StripScript(a).globals[i] == StripScript(s).globals[i];
    assert WellGlobal(ops, bi, lso, GlobalScope(a), a.globals[i]);
    assert IsConstantExpr(ops, bi, a.globals[i].init.value);
  }

  /** A variable, a call, an assignment or an increment. */
  predicate Varies(bi: Tables, e: Expr) {
    match e.kind
    case Ident(name) => forall c :: c in bi.consts ==> c.name != name
    case Call(_, _) => true
    case Assign(_, _, _) => true
    case Postfix(_, _) => true
    case _ => false
  }

  lemma SameNode(bi: Tables, e: Expr, bare: Expr)
    requires Strip(e) == Strip(bare)
    ensures Varies(bi, e) <==> Varies(bi, bare)
  {
    hide StripAll;
    assert Strip(e).kind == Strip(bare).kind;
  }

  /** None of these is a constant, however it is annotated. */
  lemma NoConstant(ops: FloatOps, bi: Tables, e: Expr, bare: Expr)
    requires Strip(e) == Strip(bare) && Varies(bi, bare)
    ensures !IsConstantExpr(ops, bi, e)
  {
    hide Strip;
    SameNode(bi, e, bare);
  }

  /** So no script is accepted in which one of them initialises a global. */
  lemma VariableRejected(ops: FloatOps, bi: Tables, lso: bool, s: Script, i: nat)
    requires TablesOk(bi) && ProperScript(s) && i < |s.globals| && s.globals[i].init.Some?
    requires Varies(bi, s.globals[i].init.value)
    ensures CheckScript(ops, bi, lso, s).errs > 0
  {
    hide TablesOk, ProperScript, CheckScript, Strip, IsConstantExpr, Varies;
    if CheckScript(ops, bi, lso, s).errs == 0 {
      InitialisersConstant(ops, bi, lso, s, i);
      var e :| Strip(e) == Strip(s.globals[i].init.value) && IsConstantExpr(ops, bi, e);
      NoConstant(ops, bi, e, s.globals[i].init.value);
    }
  }

  /** The tree of `integer a = 1; integer b = a; default { state_entry() { } }`. */
  function GlobalOfGlobal(): Script {
    Script(
      [Global(TInteger, "a", Some(Node(TInteger, false, IntLit(1)))),
       Global(TInteger, "b", Some(Node(TError, false, Ident("a"))))],
      [],
      [State("default", true, [Event("state_entry", [], Stmt(1, Block([])), 1)], 1)])
  }

  /** It is rejected: the value of another global is no constant. */
  lemma GlobalOfGlobalRejected(ops: FloatOps, bi: Tables, lso: bool)
    requires TablesOk(bi) && forall c :: c in bi.consts ==> c.name != "a"
    ensures CheckScript(ops, bi, lso, GlobalOfGlobal()).errs > 0
  {
    hide TablesOk, CheckScript;
    VariableRejected(ops, bi, lso, GlobalOfGlobal(), 1);
  }

  /** Where no variable is named like a built-in constant and no component is selected, a
      constant holds no variable, call, assignment or increment at all. */
  lemma {:induction false} ConstantsAreEffectless(env: Env, ops: FloatOps, e: Expr)
    requires Typed(env, e) && Unshadowed(env.bi, e) && !HasMember(e) && IsConstantExpr(ops, env.bi, e)
    ensures FoldExact.Effectless(e)
    decreases e
  {
    hide BinaryRule, UnaryRule, CastRule, CallRule, TypesOf, Scalar;
    match e.kind
    case VectorLit(x, y, z) =>
      ConstantsAreEffectless(env, ops, x);
      ConstantsAreEffectless(env, ops, y);
      ConstantsAreEffectless(env, ops, z);
    case RotLit(x, y, z, w) =>
      ConstantsAreEffectless(env, ops, x);
      ConstantsAreEffectless(env, ops, y);
      ConstantsAreEffectless(env, ops, z);
      ConstantsAreEffectless(env, ops, w);
    case ListLit(items) =>
      forall i | 0 <= i < |items| ensures FoldExact.Effectless(items[i]) { ConstantsAreEffectless(env, ops, items[i]); }
    case Cast(_, x) => ConstantsAreEffectless(env, ops, x);
    case Unary(_, x) => ConstantsAreEffectless(env, ops, x);
    case Binary(_, l, r) =>
      ConstantsAreEffectless(env, ops, l);
      ConstantsAreEffectless(env, ops, r);
    case _ =>
  }

  /** With such a name one can be incremented: `integer TRUE = 5; integer b = ++TRUE;` passes,
      for the program looks no further than the name. */
  lemma IncrementOfConstantName(ops: FloatOps, bi: Tables)
    requires exists c :: c in bi.consts && c.name == "TRUE"
    ensures var x := Node(TInteger, true, Ident("TRUE"));
      var e := Node(TInteger, false, Unary(OpInc, x));
      && IsConstantExpr(ops, bi, e) && !FoldExact.Effectless(e)
      && (forall lso :: Typed(Env(bi, lso, [map["TRUE" := Sym(SymGlobal, TInteger, [])]]), e))
  {
    var x := Node(TInteger, true, Ident("TRUE"));
    forall lso ensures Typed(Env(bi, lso, [map["TRUE" := Sym(SymGlobal, TInteger, [])]]), x) {
      var scopes: Scopes := [map["TRUE" := Sym(SymGlobal, TInteger, [])]];
      assert Lookup(scopes, "TRUE") == Some(Sym(SymGlobal, TInteger, []));
    }
  }
}
