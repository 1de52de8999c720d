/** On expressions the checker reports no error exactly when the tree can be annotated so
    that it is well typed, and then it produces that annotation. */
module CheckExact {
  import opened Syntax
  import opened Builtins
  import opened Types
  import opened Typing
  import opened CheckSpec

  // ------------------------------------------------------------- node by node

  predicate YieldsInteger(op: Op) {
    op == OpLAnd || op == OpLOr || IsCompareOp(op)
  }

  lemma ArithmeticExact(l: Type, r: Type)
    ensures NumericJoin(l, r) == TError ==> forall t :: !Arithmetic(l, r, t)
    ensures NumericJoin(l, r) != TError ==> forall t :: Arithmetic(l, r, t) <==> t == NumericJoin(l, r)
    ensures NumericJoin(l, r) != TError <==> IsNumeric(l) && IsNumeric(r)
  {
  }

  lemma ResultHasRule(op: Op, l: Type, r: Type)
    requires !YieldsInteger(op)
    requires BinopResult(op, l, r) != TError
    ensures BinaryRule(op, l, r, BinopResult(op, l, r))
  {
    hide Arithmetic, NumericJoin;
    ArithmeticExact(l, r);
  }

  lemma ArithmeticGives(l: Type, r: Type, t: Type)
    ensures Arithmetic(l, r, t) ==> t == NumericJoin(l, r) && IsNumeric(l) && IsNumeric(r) && IsNumeric(t)
  {
  }

  lemma PlusGivesResult(l: Type, r: Type, t: Type)
    requires l != TError && r != TError && BinaryRule(OpPlus, l, r, t)
    ensures t == BinopResult(OpPlus, l, r) && t != TError
  {
    hide Arithmetic, NumericJoin;
    ArithmeticGives(l, r, t);
  }

  lemma MinusGivesResult(l: Type, r: Type, t: Type)
    requires l != TError && r != TError && BinaryRule(OpMinus, l, r, t)
    ensures t == BinopResult(OpMinus, l, r) && t != TError
  {
    hide Arithmetic, NumericJoin;
    ArithmeticGives(l, r, t);
  }

  lemma ProductGivesResult(op: Op, l: Type, r: Type, t: Type)
    requires l != TError && r != TError && (op == OpStar || op == OpSlash)
    requires BinaryRule(op, l, r, t)
    ensures t == BinopResult(op, l, r) && t != TError
  {
    hide Arithmetic, NumericJoin;
    ArithmeticGives(l, r, t);
  }

  lemma OtherGivesResult(op: Op, l: Type, r: Type, t: Type)
    requires !YieldsInteger(op) && op != OpPlus && op != OpMinus && op != OpStar && op != OpSlash
    requires BinaryRule(op, l, r, t)
    ensures t == BinopResult(op, l, r) && t != TError
  {
    hide Arithmetic, NumericJoin;
  }

  lemma RuleGivesResult(op: Op, l: Type, r: Type, t: Type)
    requires l != TError && r != TError && !YieldsInteger(op)
    requires BinaryRule(op, l, r, t)
    ensures t == BinopResult(op, l, r) && t != TError
  {
    hide BinaryRule, BinopResult;
    if op == OpPlus {
      PlusGivesResult(l, r, t);
    } else if op == OpMinus {
      MinusGivesResult(l, r, t);
    } else if op == OpStar || op == OpSlash {
      ProductGivesResult(op, l, r, t);
    } else {
      OtherGivesResult(op, l, r, t);
    }
  }

  lemma ComparableExact(l: Type, r: Type)
    requires l != TError && r != TError
    ensures CompatibleCompare(l, r) <==> Comparable(l, r)
  {
  }

  lemma LogicNode(op: Op, l: Type, r: Type, t: Type)
    requires YieldsInteger(op)
    ensures BinaryRule(op, l, r, t) <==> t.TInteger? && (IsCompareOp(op) ==> Comparable(l, r))
    ensures BinaryNode(op, l, r) == Verdict(TInteger, Count(IsCompareOp(op) && !CompatibleCompare(l, r)))
  {
    hide Arithmetic, Comparable, CompatibleCompare, BinopResult;
  }

  lemma CompareExact(op: Op, l: Type, r: Type, t: Type)
    requires l != TError && r != TError
    requires YieldsInteger(op)
    ensures BinaryRule(op, l, r, t) <==> BinaryNode(op, l, r) == Verdict(t, 0)
    ensures BinaryNode(op, l, r).ty == TInteger
  {
    hide BinaryRule, BinaryNode, Comparable, CompatibleCompare, IsCompareOp, YieldsInteger;
    LogicNode(op, l, r, t);
    ComparableExact(l, r);
  }

  lemma OtherNode(op: Op, l: Type, r: Type)
    requires !YieldsInteger(op)
    ensures BinaryNode(op, l, r) == Verdict(BinopResult(op, l, r), Count(BinopResult(op, l, r) == TError))
  {
    hide BinopResult;
  }

  /** A binary node accepted with type `t` is one the rules allow. */
  lemma BinarySound(op: Op, l: Type, r: Type)
    requires l != TError && r != TError
    requires BinaryNode(op, l, r).errs == 0
    ensures BinaryRule(op, l, r, BinaryNode(op, l, r).ty)
    ensures BinaryNode(op, l, r).ty != TError
  {
    hide BinaryRule, BinaryNode, BinopResult, YieldsInteger;
    if YieldsInteger(op) {
      CompareExact(op, l, r, TInteger);
    } else {
      OtherNode(op, l, r);
      ResultHasRule(op, l, r);
    }
  }

  /** A binary node the rules allow with type `t` is accepted with that type. */
  lemma BinaryComplete(op: Op, l: Type, r: Type, t: Type)
    requires l != TError && r != TError
    requires BinaryRule(op, l, r, t)
    ensures BinaryNode(op, l, r) == Verdict(t, 0) && t != TError
  {
    hide BinaryRule, BinaryNode, BinopResult, YieldsInteger;
    if YieldsInteger(op) {
      CompareExact(op, l, r, t);
    } else {
      OtherNode(op, l, r);
      RuleGivesResult(op, l, r, t);
    }
  }

  lemma SignExact(op: Op, x: Type, assignable: bool, t: Type)
    requires x != TError && (op == OpPlus || op == OpMinus)
    ensures UnaryRule(op, x, t) && (IsPostfixOp(op) ==> assignable)
      <==> UnaryNode(op, x, assignable) == Verdict(t, 0)
    ensures UnaryNode(op, x, assignable).errs == 0 ==> UnaryNode(op, x, assignable).ty != TError
  {
  }

  lemma NotExact(op: Op, x: Type, assignable: bool, t: Type)
    requires x != TError && (op == OpNot || op == OpTilde)
    ensures UnaryRule(op, x, t) && (IsPostfixOp(op) ==> assignable)
      <==> UnaryNode(op, x, assignable) == Verdict(t, 0)
    ensures UnaryNode(op, x, assignable).errs == 0 ==> UnaryNode(op, x, assignable).ty != TError
  {
  }

  lemma StepExact(op: Op, x: Type, assignable: bool, t: Type)
    requires x != TError && (op == OpInc || op == OpDec)
    ensures UnaryRule(op, x, t) && (IsPostfixOp(op) ==> assignable)
      <==> UnaryNode(op, x, assignable) == Verdict(t, 0)
    ensures UnaryNode(op, x, assignable).errs == 0 ==> UnaryNode(op, x, assignable).ty != TError
  {
  }

  lemma UnaryExact(op: Op, x: Type, assignable: bool, t: Type)
    requires x != TError && IsUnaryOp(op)
    ensures UnaryRule(op, x, t) && (IsPostfixOp(op) ==> assignable)
      <==> UnaryNode(op, x, assignable) == Verdict(t, 0)
    ensures UnaryNode(op, x, assignable).errs == 0 ==> UnaryNode(op, x, assignable).ty != TError
  {
    hide UnaryRule, UnaryNode;
    if op == OpPlus || op == OpMinus {
      SignExact(op, x, assignable, t);
    } else if op == OpNot || op == OpTilde {
      NotExact(op, x, assignable, t);
    } else {
      StepExact(op, x, assignable, t);
    }
  }

  lemma ConvertsExact(from: Type, to: Type)
    requires from != TError && to != TError
    ensures Converts(from, to) <==> ImplicitAssignable(to, from)
  {
  }

  lemma CompoundUnique(op: Op, plain: Op)
    requires Compound(op, plain)
    ensures plain == CompoundOp(op) && !YieldsInteger(plain)
  {
  }

  lemma CompoundExists(op: Op)
    requires IsAssignOp(op) && op != OpAssign
    ensures Compound(op, CompoundOp(op))
  {
  }

  lemma CompoundSound(op: Op, l: Type, r: Type)
    requires l != TError && r != TError && IsAssignOp(op) && op != OpAssign
    requires BinopResult(CompoundOp(op), l, r) != TError
    requires ImplicitAssignable(l, BinopResult(CompoundOp(op), l, r))
    ensures CompoundRule(op, l, r)
  {
    hide Compound, CompoundOp, BinaryRule, BinopResult, Converts, ImplicitAssignable, IsAssignOp, YieldsInteger;
    CompoundExists(op);
    CompoundUnique(op, CompoundOp(op));
    ResultHasRule(CompoundOp(op), l, r);
    ConvertsExact(BinopResult(CompoundOp(op), l, r), l);
  }

  lemma CompoundComplete(op: Op, l: Type, r: Type)
    requires l != TError && r != TError
    requires CompoundRule(op, l, r)
    ensures BinopResult(CompoundOp(op), l, r) != TError
    ensures ImplicitAssignable(l, BinopResult(CompoundOp(op), l, r))
  {
    hide Compound, CompoundOp, BinaryRule, BinopResult, Converts, ImplicitAssignable, IsAssignOp, YieldsInteger;
    var plain, t :| Compound(op, plain) && BinaryRule(plain, l, r, t) && Converts(t, l);
    CompoundUnique(op, plain);
    RuleGivesResult(plain, l, r, t);
    ConvertsExact(t, l);
  }

  lemma AssignExact(op: Op, l: Type, r: Type, assignable: bool)
    requires l != TError && r != TError && IsAssignOp(op)
    ensures AssignRule(op, l, r) && assignable <==> AssignNode(op, l, r, assignable) == Verdict(l, 0)
    ensures AssignNode(op, l, r, assignable).ty == l
  {
    hide CompoundRule, CompoundOp, BinopResult, Converts, ImplicitAssignable, IsAssignOp;
    var u := BinopResult(CompoundOp(op), l, r);
    if op == OpAssign {
      ConvertsExact(r, l);
    } else if CompoundRule(op, l, r) {
      CompoundComplete(op, l, r);
    } else if u != TError && ImplicitAssignable(l, u) {
      CompoundSound(op, l, r);
    }
  }

  lemma CastExact(to: Type, x: Type)
    requires x != TError && IsValueType(to)
    ensures CastRule(x, to) <==> ExplicitCastable(to, x)
  {
  }

  lemma MemberExact(base: Type, m: char)
    requires base != TError
    ensures MemberRule(base, m) <==> MemberNode(base, m) == Verdict(TFloat, 0)
    ensures !MemberRule(base, m) <==> MemberNode(base, m) == Verdict(TError, 1)
  {
  }

  lemma {:induction false} BadArgsExact(want: seq<Type>, got: seq<Type>, anyVoid: bool)
    requires |want| == |got| && TError !in want && TError !in got
    ensures BadArgs(want, got, anyVoid) == 0
      <==> forall i :: 0 <= i < |got| ==> (anyVoid && want[i] == TVoid) || ArgRule(want[i], got[i])
  {
    if want != [] {
      var want', got' := want[1..], got[1..];
      BadArgsExact(want', got', anyVoid);
      forall i | 0 < i < |got|
        ensures want[i] == want'[i - 1] && got[i] == got'[i - 1]
      {
      }
      if forall i :: 0 <= i < |got| ==> (anyVoid && want[i] == TVoid) || ArgRule(want[i], got[i]) {
        forall i | 0 <= i < |got'|
          ensures (anyVoid && want'[i] == TVoid) || ArgRule(want'[i], got'[i])
        {
          assert want'[i] == want[i + 1];
        }
      }
    }
  }

  lemma {:induction false} BadUserArgsExact(beyond: Beyond, fn: string, want: seq<Type>, got: seq<Type>, i: nat)
    requires |want| == |got| && i <= |got| && TError !in want && TError !in got
    ensures BadUserArgs(beyond, fn, want, got, i) == 0
      <==> forall k :: i <= k < |got| ==> PassRule(beyond, fn, k, want[k], got[k])
    decreases |got| - i
  {
    if i < |got| {
      assert want[i] in want && got[i] in got;
      PassExact(beyond, fn, i, want[i], got[i]);
      BadUserArgsExact(beyond, fn, want, got, i + 1);
    }
  }

  lemma PassExact(beyond: Beyond, fn: string, i: nat, want: Type, got: Type)
    requires !want.TError? && !got.TError?
    ensures PassRule(beyond, fn, i, want, got) <==> Passes(beyond, fn, i, want, got)
  {
  }

  lemma CallExact(env: Env, fn: string, args: seq<Type>, t: Type)
    requires EnvOk(env) && TError !in args
    ensures CallRule(env, fn, args, t) <==> CallNode(env, fn, args) == Verdict(t, 0)
    ensures CallNode(env, fn, args).errs == 0 ==> CallNode(env, fn, args).ty != TError
  {
    hide BadArgs, BadUserArgs, ArgRule, PassRule;
    var user := LookupGlobal(env.scopes, fn);
    var builtin := FnFor(env.bi.fns, fn, |args|);
    if user.Some? && user.value.kind == SymFunc {
      assert SymOk(env.scopes[0][fn]);
      if |user.value.params| == |args| {
        BadUserArgsExact(env.bi.beyond, fn, user.value.params, args, 0);
      }
    } else if builtin.Some? {
      if |builtin.value.params| == |args| {
        BadArgsExact(builtin.value.params, args, true);
      }
    }
  }

  lemma {:induction false} LookupOk(scopes: seq<Scope>, name: string)
    requires forall i, n :: 0 <= i < |scopes| && n in scopes[i] ==> SymOk(scopes[i][n])
    ensures Lookup(scopes, name).Some? ==> SymOk(Lookup(scopes, name).value)
  {
    if scopes != [] && name !in scopes[|scopes| - 1] {
      LookupOk(scopes[..|scopes| - 1], name);
    }
  }

  lemma IdentExact(env: Env, name: string, t: Type, lv: bool)
    requires EnvOk(env)
    ensures IdentRule(env, name, t, lv)
      <==> IdentNode(env, name) == Verdict(t, 0) && MarkIdent(env, name, false) == lv
    ensures IdentNode(env, name).errs == 0 ==> IdentNode(env, name).ty != TError
  {
    LookupOk(env.scopes, name);
  }

  // ------------------------------------------------------------------ soundness

  lemma {:induction false} CheckAllAt(env: Env, es: seq<Expr>, i: nat)
    requires i < |es|
    ensures CheckAll(env, es).v[i] == CheckExpr(env, es[i]).v
    ensures CheckExpr(env, es[i]).errs <= CheckAll(env, es).errs
  {
    hide CheckExpr;
    if i > 0 { CheckAllAt(env, es[1..], i - 1); }
  }

  /** A list without errors has elements without errors. */
  lemma {:induction false} AllSound(env: Env, es: seq<Expr>)
    requires EnvOk(env) && AllProper(es) && CheckAll(env, es).errs == 0
    ensures AllTyped(env, CheckAll(env, es).v)
    ensures TError !in TypesOf(CheckAll(env, es).v)
    decreases es
  {
    hide CheckExpr, Typed, Proper, EnvOk;
    var r := CheckAll(env, es);
    forall i | 0 <= i < |es|
      ensures Typed(env, r.v[i]) && r.v[i].ty != TError
    {
      CheckAllAt(env, es, i);
      CheckSound(env, es[i]);
    }
  }

  /** An expression checked without error is well typed.  In particular a node is only
      ever left with the error type if an error was reported below it or at it. */
  lemma {:induction false} CheckSound(env: Env, e: Expr)
    requires EnvOk(env) && Proper(e)
    requires CheckExpr(env, e).errs == 0
    ensures Typed(env, CheckExpr(env, e).v)
    ensures CheckExpr(env, e).v.ty != TError
    decreases e
  {
    hide EnvOk, BinaryRule, BinaryNode, UnaryRule, UnaryNode, AssignRule, AssignNode, CallRule, CallNode,
         CastRule, ExplicitCastable, IdentRule, IdentNode, MarkIdent, MemberRule, MemberNode,
         IsUnaryOp, IsPostfixOp, IsBinaryOp, IsAssignOp, BinaryLevel, AllTyped, AllProper, StripAll, CheckAll;
    var r := CheckExpr(env, e).v;
    match e.kind
    case IntLit(_) =>
    case FloatLit(_) =>
    case StringLit(_) =>
    case Ident(name) => IdentExact(env, name, r.ty, r.lv);
    case VectorLit(x, y, z) =>
      CheckSound(env, x);
      CheckSound(env, y);
      CheckSound(env, z);
    case RotLit(x, y, z, w) =>
      CheckSound(env, x);
      CheckSound(env, y);
      CheckSound(env, z);
      CheckSound(env, w);
    case ListLit(items) => AllSound(env, items);
    case Call(fn, args) =>
      AllSound(env, args);
      CallExact(env, fn, TypesOf(CheckAll(env, args).v), r.ty);
    case Member(base, m) =>
      CheckSound(env, base);
      MemberExact(CheckExpr(env, base).v.ty, m);
    case Cast(to, x) =>
      CheckSound(env, x);
      CastExact(to, CheckExpr(env, x).v.ty);
    case Unary(op, x) =>
      CheckSound(env, x);
      var v := CheckExpr(env, x).v;
      UnaryExact(op, v.ty, IsLValue(v), r.ty);
    case Postfix(_, x) => CheckSound(env, x);
    case Binary(op, l, rr) =>
      CheckSound(env, l);
      CheckSound(env, rr);
      BinarySound(op, CheckExpr(env, l).v.ty, CheckExpr(env, rr).v.ty);
    case Assign(op, l, rr) =>
      CheckSound(env, l);
      CheckSound(env, rr);
      var v := CheckExpr(env, l).v;
      AssignExact(op, v.ty, CheckExpr(env, rr).v.ty, IsLValue(v));
  }

  // --------------------------------------------------------------- completeness

  lemma {:induction false} AllComplete(env: Env, es: seq<Expr>, anns: seq<Expr>)
    requires EnvOk(env) && AllProper(es) && AllTyped(env, anns) && StripAll(es) == StripAll(anns)
    ensures CheckAll(env, es) == Checked(anns, 0)
    ensures forall i :: 0 <= i < |anns| ==> anns[i].ty != TError
    decreases es
  {
    hide CheckExpr, Typed, Proper, EnvOk, Strip;
    assert |es| == |StripAll(es)| == |anns|;
    if es != [] {
      assert Strip(es[0]) == StripAll(es)[0] == Strip(anns[0]);
      CheckComplete(env, es[0], anns[0]);
      AllComplete(env, es[1..], anns[1..]) by {
        assert StripAll(es)[1..] == StripAll(es[1..]);
        assert StripAll(anns)[1..] == StripAll(anns[1..]);
      }
      assert anns == [anns[0]] + anns[1..];
    }
  }

  /** Any well-typed annotation of the tree is the one the checker finds, without error. */
  lemma {:induction false} CheckComplete(env: Env, e: Expr, a: Expr)
    requires EnvOk(env) && Proper(e) && Typed(env, a) && Strip(e) == Strip(a)
    ensures CheckExpr(env, e) == Checked(a, 0)
    ensures a.ty != TError
    decreases e
  {
    hide EnvOk, BinaryRule, BinaryNode, UnaryRule, UnaryNode, AssignRule, AssignNode, CallRule, CallNode,
         CastRule, ExplicitCastable, IdentRule, IdentNode, MarkIdent, MemberRule, MemberNode,
         IsUnaryOp, IsPostfixOp, IsBinaryOp, IsAssignOp, BinaryLevel, AllTyped, AllProper, StripAll, CheckAll, TypesOf,
         IsLValue;
    match e.kind
    case IntLit(_) =>
    case FloatLit(_) =>
    case StringLit(_) =>
    case Ident(name) => IdentExact(env, name, a.ty, a.lv);
    case VectorLit(x, y, z) =>
      CheckComplete(env, x, a.kind.x);
      CheckComplete(env, y, a.kind.y);
      CheckComplete(env, z, a.kind.z);
    case RotLit(x, y, z, w) =>
      CheckComplete(env, x, a.kind.x);
      CheckComplete(env, y, a.kind.y);
      CheckComplete(env, z, a.kind.z);
      CheckComplete(env, w, a.kind.w);
    case ListLit(items) => AllComplete(env, items, a.kind.items);
    case Call(fn, args) =>
      AllComplete(env, args, a.kind.args);
      CallExact(env, fn, TypesOf(a.kind.args), a.ty);
    case Member(base, m) =>
      CheckComplete(env, base, a.kind.base);
      MemberExact(a.kind.base.ty, m);
    case Cast(to, x) =>
      CheckComplete(env, x, a.kind.inner);
      CastExact(to, a.kind.inner.ty);
    case Unary(op, x) =>
      CheckComplete(env, x, a.kind.inner);
      UnaryExact(op, a.kind.inner.ty, IsLValue(a.kind.inner), a.ty);
    case Postfix(_, x) => CheckComplete(env, x, a.kind.inner);
    case Binary(op, l, r) =>
      CheckComplete(env, l, a.kind.l);
      CheckComplete(env, r, a.kind.r);
      BinaryComplete(op, a.kind.l.ty, a.kind.r.ty, a.ty);
    case Assign(op, l, r) =>
      CheckComplete(env, l, a.kind.l);
      CheckComplete(env, r, a.kind.r);
      AssignExact(op, a.kind.l.ty, a.kind.r.ty, IsLValue(a.kind.l));
  }

  // ------------------------------------------------------------- same tree out

  lemma {:induction false} AllStripped(env: Env, es: seq<Expr>)
    ensures StripAll(CheckAll(env, es).v) == StripAll(es)
    decreases es
  {
    hide CheckExpr, Strip;
    if es != [] {
      CheckStripped(env, es[0]);
      AllStripped(env, es[1..]);
    }
  }

  /** The checker only annotates: the tree under the annotations is the one it was given. */
  lemma {:induction false} CheckStripped(env: Env, e: Expr)
    ensures Strip(CheckExpr(env, e).v) == Strip(e)
    decreases e
  {
    hide BinaryNode, UnaryNode, AssignNode, CallNode, IdentNode, MarkIdent, MemberNode, PostfixNode,
         BadComponent, ExplicitCastable, IsLValue, StripAll, CheckAll;
    match e.kind
    case VectorLit(x, y, z) =>
      CheckStripped(env, x);
      CheckStripped(env, y);
      CheckStripped(env, z);
    case RotLit(x, y, z, w) =>
      CheckStripped(env, x);
      CheckStripped(env, y);
      CheckStripped(env, z);
      CheckStripped(env, w);
    case ListLit(items) => AllStripped(env, items);
    case Call(_, args) => AllStripped(env, args);
    case Member(base, _) => CheckStripped(env, base);
    case Cast(_, x) => CheckStripped(env, x);
    case Unary(_, x) => CheckStripped(env, x);
    case Postfix(_, x) => CheckStripped(env, x);
    case Binary(_, l, r) =>
      CheckStripped(env, l);
      CheckStripped(env, r);
    case Assign(_, l, r) =>
      CheckStripped(env, l);
      CheckStripped(env, r);
    case _ =>
  }

  /** The checker accepts an expression exactly when some annotation of it is well typed,
      and that annotation is then unique and is the checker's output. */
  lemma ExprAccepted(env: Env, e: Expr)
    requires EnvOk(env) && Proper(e)
    ensures CheckExpr(env, e).errs == 0 <==> exists a :: Strip(a) == Strip(e) && Typed(env, a)
    ensures forall a :: Strip(a) == Strip(e) && Typed(env, a) ==> CheckExpr(env, e) == Checked(a, 0)
  {
    hide CheckExpr, Strip, Typed, Proper, EnvOk;
    CheckStripped(env, e);
    if CheckExpr(env, e).errs == 0 { CheckSound(env, e); }
    forall a | Strip(a) == Strip(e) && Typed(env, a)
      ensures CheckExpr(env, e) == Checked(a, 0)
    {
      CheckComplete(env, e, a);
    }
  }
}
