/** The checker as it runs: a symbol table, a count of errors, the labels and jumps of the
    current body, and methods that walk the tree. */
module Sem {
  import opened Syntax
  import opened Seqs
  import opened Builtins
  import opened Types
  import opened Typing
  import opened Fold
  import opened Judgement
  import opened CheckSpec
  import SymTab

  class Checker {
    const ops: FloatOps
    const bi: Tables
    const lso: bool
    const states: seq<string>
    const st: SymTab.Table
    var errors: nat
    /** The return type of the current function; none inside an event handler. */
    var ret: Option<Type>
    var labels: seq<string>
    var jumps: seq<string>

    constructor (ops: FloatOps, bi: Tables, lso: bool, states: seq<string>, hash: string -> nat)
      ensures this.ops == ops && this.bi == bi && this.lso == lso && this.states == states
      ensures st.Valid() && st.Scopes() == [map[]] && errors == 0
      ensures fresh(st) && fresh(st.cur) && fresh(st.cur.buckets)
    {
      this.ops, this.bi, this.lso, this.states := ops, bi, lso, states;
      var table := new SymTab.Table(hash);
      st := table;
      errors, ret, labels, jumps := 0, None, [], [];
      new;
      assert st.cur in st.chain;
    }

    /** The table is well formed and represents the scopes of `env`. */
    ghost predicate Sees(env: Env)
      reads st, st.chain, set s | s in st.chain :: s.buckets
    {
      st.Valid() && env == Env(bi, lso, st.Scopes()) && bi.beyond.FromMemory?
    }

    // ------------------------------------------------------------- single nodes

    method Report(bad: bool)
      modifies this`errors
      ensures errors == old(errors) + Count(bad)
    {
      if bad { errors := errors + 1; }
    }

    method CheckIdent(ghost env: Env, name: string, lv: bool) returns (ty: Type, mark: bool)
      requires Sees(env)
      modifies this`errors
      ensures ty == IdentNode(env, name).ty && errors == old(errors) + IdentNode(env, name).errs
      ensures mark == MarkIdent(env, name, lv)
    {
      hide Lookup, ConstNamed;
      var sym := st.Lookup(name);
      mark := lv;
      if sym.None? {
        var c := ConstNamed(bi.consts, name);
        if c.Some? {
          ty, mark := c.value.Ty(), false;
        } else {
          errors := errors + 1;
          ty := TError;
        }
      } else if sym.value.kind == SymFunc {
        errors := errors + 1;
        ty := TError;
      } else if sym.value.kind == SymState {
        errors := errors + 1;
        ty := TError;
      } else {
        ty, mark := sym.value.ty, true;
      }
    }

    method CheckMember(base: Type, m: char) returns (ty: Type)
      modifies this`errors
      ensures ty == MemberNode(base, m).ty && errors == old(errors) + MemberNode(base, m).errs
    {
      if base == TError { return TError; }
      if base != TVector && base != TRotation {
        errors := errors + 1;
        return TError;
      }
      ty := MemberType(m, base);
      Report(ty == TError);
    }

    method CheckUnary(op: Op, x: Type, assignable: bool) returns (ty: Type)
      modifies this`errors
      ensures ty == UnaryNode(op, x, assignable).ty && errors == old(errors) + UnaryNode(op, x, assignable).errs
    {
      if op == OpNot {
        Report(!(x == TInteger || x == TFloat || x == TError));
        return TInteger;
      }
      if op == OpTilde {
        Report(x != TInteger && x != TError);
        return TInteger;
      }
      if op == OpMinus || op == OpPlus {
        if x == TInteger || x == TFloat || x == TVector || x == TRotation || x == TError { return x; }
        errors := errors + 1;
        return TError;
      }
      if op == OpInc || op == OpDec {
        Report(!assignable);
        Report(x != TInteger && x != TFloat && x != TError);
        return x;
      }
      ty := TError;
    }

    method CheckPostfix(x: Type, assignable: bool) returns (ty: Type)
      modifies this`errors
      ensures ty == PostfixNode(x, assignable).ty && errors == old(errors) + PostfixNode(x, assignable).errs
    {
      Report(!assignable);
      Report(x != TInteger && x != TFloat && x != TError);
      ty := x;
    }

    method CheckBinary(op: Op, l: Type, r: Type) returns (ty: Type)
      modifies this`errors
      ensures ty == BinaryNode(op, l, r).ty && errors == old(errors) + BinaryNode(op, l, r).errs
    {
      hide BinopResult, CompatibleCompare;
      if op == OpLAnd || op == OpLOr { return TInteger; }
      if IsCompareOp(op) {
        Report(!CompatibleCompare(l, r));
        return TInteger;
      }
      ty := BinopResult(op, l, r);
      Report(ty == TError);
    }

    method CheckAssign(op: Op, l: Type, r: Type, assignable: bool) returns (ty: Type)
      modifies this`errors
      ensures ty == AssignNode(op, l, r, assignable).ty && errors == old(errors) + AssignNode(op, l, r, assignable).errs
    {
      hide BinopResult, ImplicitAssignable, CompoundOp;
      Report(!assignable);
      if op != OpAssign {
        var t := BinopResult(CompoundOp(op), l, r);
        if t == TError {
          errors := errors + 1;
        } else {
          Report(!ImplicitAssignable(l, t));
        }
      } else {
        Report(!ImplicitAssignable(l, r));
      }
      ty := l;
    }

    method CheckArgs(want: seq<Type>, got: seq<Type>, anyVoid: bool)
      requires |want| == |got|
      modifies this`errors
      ensures errors == old(errors) + BadArgs(want, got, anyVoid)
    {
      for i := 0 to |got|
        invariant errors + BadArgs(want[i..], got[i..], anyVoid) == old(errors) + BadArgs(want, got, anyVoid)
      {
        assert want[i..][1..] == want[i + 1..] && got[i..][1..] == got[i + 1..];
        if !(anyVoid && want[i] == TVoid) {
          Report(!ParamAssignable(want[i], got[i]));
        }
      }
    }

    /** Reads the type of each parameter, past those that are stored if there are more. */
    method CheckUserArgs(fn: string, f: Stored, ghost sym: Sym, args: seq<Type>)
      requires bi.beyond.FromMemory? && f == Store(sym) && f.arity == |args|
      modifies this`errors
      ensures errors == old(errors) + BadUserArgs(bi.beyond, fn, sym.params, args, 0)
    {
      for i := 0 to |args|
        invariant errors + BadUserArgs(bi.beyond, fn, sym.params, args, i)
          == old(errors) + BadUserArgs(bi.beyond, fn, sym.params, args, 0)
      {
        if i < STORED_MAX {
          Report(!ParamAssignable(f.first[i], args[i]));
        } else {
          Report(!MemoryAssignable(bi.beyond.cell(fn, i), args[i]));
        }
      }
    }

    method CheckCall(ghost env: Env, fn: string, args: seq<Type>) returns (ty: Type)
      requires Sees(env)
      modifies this`errors
      ensures ty == CallNode(env, fn, args).ty && errors == old(errors) + CallNode(env, fn, args).errs
    {
      hide BadArgs, BadUserArgs, FnOfArity, FnNamed;
      var user := st.LookupGlobal(fn);
      if user.Some? && user.value.kind == SymFunc {
        if user.value.arity != |args| {
          errors := errors + 1;
        } else {
          CheckUserArgs(fn, user.value, Typing.LookupGlobal(env.scopes, fn).value, args);
        }
        return user.value.ty;
      }
      var builtin := FnOfArity(bi.fns, fn, |args|);
      if builtin.None? { builtin := FnNamed(bi.fns, fn); }
      if builtin.Some? {
        Report(builtin.value.monoOnly && lso);
        if |builtin.value.params| != |args| {
          errors := errors + 1;
        } else {
          CheckArgs(builtin.value.params, args, true);
        }
        return builtin.value.ret;
      }
      if |fn| >= 2 && fn[0] == 'l' && fn[1] == 'l' { return TAny; }
      errors := errors + 1;
      ty := TError;
    }

    // -------------------------------------------------------------- expressions

    method CheckExpr(ghost env: Env, e: Expr) returns (out: Expr)
      requires Sees(env)
      modifies this`errors
      ensures out == CheckSpec.CheckExpr(env, e).v
      ensures errors == old(errors) + CheckSpec.CheckExpr(env, e).errs
      ensures Sees(env)
      decreases e
    {
      hide IdentNode, MarkIdent, MemberNode, UnaryNode, BinaryNode, AssignNode, CallNode, CheckSpec.CheckAll,
           ExplicitCastable, IsLValue, TypesOf, PostfixNode, BadComponent, Checker.Sees;
      match e.kind
      case IntLit(_) => out := e.(ty := TInteger);
      case FloatLit(_) => out := e.(ty := TFloat);
      case StringLit(_) => out := e.(ty := TString);
      case Ident(name) =>
        var ty, mark := CheckIdent(env, name, e.lv);
        out := Node(ty, mark, e.kind);
      case VectorLit(_, _, _) => out := CheckVector(env, e);
      case RotLit(_, _, _, _) => out := CheckVector(env, e);
      case ListLit(items) =>
        var xs := CheckAll(env, items);
        out := Node(TList, e.lv, ListLit(xs));
      case Member(b, m) =>
        var base := CheckExpr(env, b);
        var ty := CheckMember(base.ty, m);
        out := Node(ty, if ty == TError then e.lv else IsLValue(base), Member(base, m));
      case Cast(to, inner) =>
        var x := CheckExpr(env, inner);
        Report(!ExplicitCastable(to, x.ty));
        out := Node(to, e.lv, Cast(to, x));
      case Unary(op, inner) =>
        var x := CheckExpr(env, inner);
        var ty := CheckUnary(op, x.ty, IsLValue(x));
        out := Node(ty, e.lv, Unary(op, x));
      case Postfix(op, inner) =>
        var x := CheckExpr(env, inner);
        var ty := CheckPostfix(x.ty, IsLValue(x));
        out := Node(ty, e.lv, Postfix(op, x));
      case Binary(op, l, r) =>
        var a := CheckExpr(env, l);
        var b := CheckExpr(env, r);
        var ty := CheckBinary(op, a.ty, b.ty);
        out := Node(ty, e.lv, Binary(op, a, b));
      case Assign(op, l, r) =>
        var a := CheckExpr(env, l);
        var b := CheckExpr(env, r);
        var ty := CheckAssign(op, a.ty, b.ty, IsLValue(a));
        out := Node(ty, e.lv, Assign(op, a, b));
      case Call(fn, args) =>
        var xs := CheckAll(env, args);
        var ty := CheckCall(env, fn, TypesOf(xs));
        out := Node(ty, e.lv, Call(fn, xs));
    }

    /** The components of a vector have to be numbers; those of a rotation are not looked at. */
    method CheckVector(ghost env: Env, e: Expr) returns (out: Expr)
      requires Sees(env) && (e.kind.VectorLit? || e.kind.RotLit?)
      modifies this`errors
      ensures out == CheckSpec.CheckExpr(env, e).v
      ensures errors == old(errors) + CheckSpec.CheckExpr(env, e).errs
      ensures Sees(env)
      decreases e, 0
    {
      hide BadComponent, Checker.Sees;
      var x := CheckExpr(env, e.kind.x);
      var y := CheckExpr(env, e.kind.y);
      var z := CheckExpr(env, e.kind.z);
      if e.kind.VectorLit? {
        Report(BadComponent(x.ty));
        Report(BadComponent(y.ty));
        Report(BadComponent(z.ty));
        out := Node(TVector, e.lv, VectorLit(x, y, z));
      } else {
        var w := CheckExpr(env, e.kind.w);
        out := Node(TRotation, e.lv, RotLit(x, y, z, w));
      }
    }

    method CheckAll(ghost env: Env, es: seq<Expr>) returns (out: seq<Expr>)
      requires Sees(env)
      modifies this`errors
      ensures out == CheckSpec.CheckAll(env, es).v
      ensures errors == old(errors) + CheckSpec.CheckAll(env, es).errs
      ensures Sees(env)
      decreases es
    {
      hide CheckSpec.CheckExpr, Checker.Sees;
      out := [];
      for i := 0 to |es|
        invariant Sees(env)
        invariant out + CheckSpec.CheckAll(env, es[i..]).v == CheckSpec.CheckAll(env, es).v
        invariant errors + CheckSpec.CheckAll(env, es[i..]).errs
               == old(errors) + CheckSpec.CheckAll(env, es).errs
      {
        assert es[i..][0] == es[i] && es[i..][1..] == es[i + 1..];
        var x := CheckExpr(env, es[i]);
        out := out + [x];
      }
    }

    method CheckOption(ghost env: Env, e: Option<Expr>) returns (out: Option<Expr>)
      requires Sees(env)
      modifies this`errors
      ensures out == CheckSpec.CheckOption(env, e).v
      ensures errors == old(errors) + CheckSpec.CheckOption(env, e).errs
      ensures Sees(env)
    {
      hide CheckSpec.CheckExpr, Checker.Sees;
      if e.None? { return None; }
      var x := CheckExpr(env, e.value);
      out := Some(x);
    }

    method CheckInit(ghost env: Env, ty: Type, e: Expr) returns (out: Expr)
      requires Sees(env)
      modifies this`errors
      ensures out == CheckSpec.CheckInit(env, ty, e).v
      ensures errors == old(errors) + CheckSpec.CheckInit(env, ty, e).errs
      ensures Sees(env)
    {
      hide CheckSpec.CheckExpr, Checker.Sees, ImplicitAssignable;
      out := CheckExpr(env, e);
      Report(!ImplicitAssignable(ty, out.ty));
    }

    // -------------------------------------------------------------------- scopes

    method PushScope(ghost env: Env)
      requires Sees(env)
      modifies st
      ensures Sees(env.(scopes := Push(env.scopes)))
      ensures st.chain == old(st.chain) + [st.cur] && fresh(st.cur) && fresh(st.cur.buckets)
    {
      st.Push();
    }

    method PopScope(ghost env: Env, ghost outer: Env)
      requires Sees(env) && |env.scopes| > 1
      requires outer == env.(scopes := env.scopes[..|env.scopes| - 1])
      modifies st
      ensures Sees(outer)
      ensures st.chain == old(st.chain)[..|old(st.chain)| - 1] && st.chain != []
      ensures st.cur == st.chain[|st.chain| - 1]
    {
      st.Pop();
    }

    /** Declares a name in the current scope, or reports that it is taken. */
    method DeclareName(ghost env: Env, name: string, sym: Sym)
      requires Sees(env)
      modifies this`errors, st.cur, st.cur.buckets
      ensures Sees(env.(scopes := Declare(env.scopes, name, sym)))
      ensures errors == old(errors) + Count(IsDeclared(env.scopes, name))
    {
      hide SymTab.ScopeNode.Represents, Bind;
      var existing := st.LookupLocal(name);
      if existing.Some? {
        errors := errors + 1;
      } else {
        var _ := st.Define(name, sym);
      }
    }

    // ---------------------------------------------------------------- statements

    lemma Sees0()
      requires st.Valid() && st.Scopes() == [map[]] && bi.beyond.FromMemory?
      ensures Sees(Env(bi, lso, [map[]]))
    {
    }

    /** The part of the context that is not in the table. */
    ghost predicate In(ctx: Ctx)
      reads this`ret
    {
      ctx == Ctx(bi, lso, ret, states)
    }

    method CheckReturn(ghost ctx: Ctx, ghost scopes: Scopes, result: Option<Expr>) returns (out: Option<Expr>)
      requires Sees(EnvOf(ctx, scopes)) && In(ctx)
      modifies this`errors
      ensures out == CheckSpec.CheckReturn(ctx, scopes, result).v
      ensures errors == old(errors) + CheckSpec.CheckReturn(ctx, scopes, result).errs
      ensures Sees(EnvOf(ctx, scopes))
    {
      hide Checker.Sees, CheckSpec.CheckExpr, CheckSpec.CheckInit;
      ghost var env := EnvOf(ctx, scopes);
      if ret.None? {
        Report(result.Some?);
        return result;
      }
      if ret.value == TVoid && result.Some? {
        errors := errors + 1;
        var x := CheckExpr(env, result.value);
        return Some(x);
      }
      if ret.value != TVoid && result.None? {
        errors := errors + 1;
        return result;
      }
      if result.Some? {
        var x := CheckInit(env, ret.value, result.value);
        return Some(x);
      }
      out := result;
    }

    method CheckDecl(ghost ctx: Ctx, ghost scopes: Scopes, s: Stmt) returns (out: Stmt)
      requires Sees(EnvOf(ctx, scopes)) && In(ctx) && s.kind.Decl?
      modifies this`errors, st.cur, st.cur.buckets
      ensures out == CheckSpec.CheckStmt(ctx, scopes, s).v
      ensures errors == old(errors) + CheckSpec.CheckStmt(ctx, scopes, s).errs
      ensures Sees(EnvOf(ctx, CheckSpec.CheckStmt(ctx, scopes, s).scopes))
    {
      hide Checker.Sees, CheckSpec.CheckExpr, CheckSpec.CheckInit, CheckSpec.Declare, IsDeclared;
      DeclareName(EnvOf(ctx, scopes), s.kind.name, LocalSym(s.kind.ty));
      if s.kind.init.None? { return s; }
      ghost var scopes' := Declare(scopes, s.kind.name, LocalSym(s.kind.ty));
      var x := CheckInit(EnvOf(ctx, scopes'), s.kind.ty, s.kind.init.value);
      out := s.(kind := Decl(s.kind.ty, s.kind.name, Some(x)));
    }

    method CheckFor(ghost ctx: Ctx, ghost scopes: Scopes, s: Stmt) returns (out: Stmt)
      requires Sees(EnvOf(ctx, scopes)) && In(ctx) && s.kind.For?
      modifies this`errors, this`labels, this`jumps, st, st.cur, st.cur.buckets
      ensures out == CheckSpec.CheckStmt(ctx, scopes, s).v
      ensures errors == old(errors) + CheckSpec.CheckStmt(ctx, scopes, s).errs
      ensures Sees(EnvOf(ctx, CheckSpec.CheckStmt(ctx, scopes, s).scopes))
      ensures labels == Labels(s) + old(labels) && jumps == Jumps(s) + old(jumps)
      ensures st.chain == old(st.chain) && st.cur == old(st.cur)
      decreases s, 0
    {
      hide Checker.Sees, CheckSpec.CheckExpr, CheckSpec.CheckAll, CheckSpec.CheckOption;
      ghost var env := EnvOf(ctx, scopes);
      var inits := CheckAll(env, s.kind.inits);
      var test := CheckOption(env, s.kind.test);
      var posts := CheckAll(env, s.kind.posts);
      var body := CheckStmt(ctx, scopes, s.kind.body);
      out := s.(kind := For(inits, test, posts, body));
    }

    static lemma IfParts(ctx: Ctx, scopes: Scopes, s: Stmt)
      requires s.kind.If?
      ensures var c := CheckSpec.CheckExpr(EnvOf(ctx, scopes), s.kind.cond);
        var t := CheckSpec.CheckStmt(ctx, scopes, s.kind.thn);
        var els := s.kind.els;
        var f := if els.Some? then CheckSpec.CheckStmt(ctx, t.scopes, els.value) else Walked(s, t.scopes, 0);
        && CheckSpec.CheckStmt(ctx, scopes, s).v == s.(kind := If(c.v, t.v, if els.Some? then Some(f.v) else None))
        && CheckSpec.CheckStmt(ctx, scopes, s).scopes == f.scopes
        && CheckSpec.CheckStmt(ctx, scopes, s).errs == c.errs + Count(!Testable(c.v.ty)) + t.errs + f.errs
        && Labels(s) == (if els.Some? then Labels(els.value) else []) + Labels(s.kind.thn)
        && Jumps(s) == (if els.Some? then Jumps(els.value) else []) + Jumps(s.kind.thn)
    {
      hide CheckSpec.CheckExpr, Testable;
    }

    method CheckIf(ghost ctx: Ctx, ghost scopes: Scopes, s: Stmt) returns (out: Stmt)
      requires Sees(EnvOf(ctx, scopes)) && In(ctx) && s.kind.If?
      modifies this`errors, this`labels, this`jumps, st, st.cur, st.cur.buckets
      ensures out == CheckSpec.CheckStmt(ctx, scopes, s).v
      ensures errors == old(errors) + CheckSpec.CheckStmt(ctx, scopes, s).errs
      ensures Sees(EnvOf(ctx, CheckSpec.CheckStmt(ctx, scopes, s).scopes))
      ensures labels == Labels(s) + old(labels) && jumps == Jumps(s) + old(jumps)
      ensures st.chain == old(st.chain) && st.cur == old(st.cur)
      decreases s, 0
    {
      hide Checker.Sees, Checker.In, CheckSpec.CheckExpr, CheckSpec.CheckStmt, Testable, Labels, Jumps;
      IfParts(ctx, scopes, s);
      var cond := CheckExpr(EnvOf(ctx, scopes), s.kind.cond);
      Report(!Testable(cond.ty));
      var thn := CheckStmt(ctx, scopes, s.kind.thn);
      if s.kind.els.None? {
        return s.(kind := If(cond, thn, None));
      }
      var els := CheckStmt(ctx, CheckSpec.CheckStmt(ctx, scopes, s.kind.thn).scopes, s.kind.els.value);
      out := s.(kind := If(cond, thn, Some(els)));
    }

    method CheckStmt(ghost ctx: Ctx, ghost scopes: Scopes, s: Stmt) returns (out: Stmt)
      requires Sees(EnvOf(ctx, scopes)) && In(ctx)
      modifies this`errors, this`labels, this`jumps, st, st.cur, st.cur.buckets
      ensures out == CheckSpec.CheckStmt(ctx, scopes, s).v
      ensures errors == old(errors) + CheckSpec.CheckStmt(ctx, scopes, s).errs
      ensures Sees(EnvOf(ctx, CheckSpec.CheckStmt(ctx, scopes, s).scopes))
      ensures labels == Labels(s) + old(labels) && jumps == Jumps(s) + old(jumps)
      ensures st.chain == old(st.chain) && st.cur == old(st.cur)
      decreases s, 1
    {
      hide Checker.Sees, CheckSpec.CheckExpr, CheckSpec.CheckReturn, CheckSpec.CheckBlock, LabelsOf, JumpsOf;
      ghost var env := EnvOf(ctx, scopes);
      match s.kind
      case Empty => out := s;
      case ExprStmt(e) =>
        var x := CheckExpr(env, e);
        out := s.(kind := ExprStmt(x));
      case Decl(_, _, _) => out := CheckDecl(ctx, scopes, s);
      case Block(stmts) =>
        var ss := CheckBlock(ctx, scopes, stmts);
        out := s.(kind := Block(ss));
      case If(_, _, _) => out := CheckIf(ctx, scopes, s);
      case While(cond, body) =>
        var c := CheckExpr(env, cond);
        var b := CheckStmt(ctx, scopes, body);
        out := s.(kind := While(c, b));
      case DoWhile(body, cond) =>
        var b := CheckStmt(ctx, scopes, body);
        var c := CheckExpr(EnvOf(ctx, CheckSpec.CheckStmt(ctx, scopes, body).scopes), cond);
        out := s.(kind := DoWhile(b, c));
      case For(_, _, _, _) => out := CheckFor(ctx, scopes, s);
      case Return(result) =>
        var x := CheckReturn(ctx, scopes, result);
        out := s.(kind := Return(x));
      case Jump(target) =>
        jumps := [target.GetOr("?")] + jumps;
        out := s;
      case Label(target) =>
        labels := [target.GetOr("?")] + labels;
        out := s;
      case StateChange(target) =>
        Report(ret.Some? || target.GetOr("") !in states);
        out := s;
    }

    /** Whatever is declared inside, the table is the same after a block. */
    static lemma StmtsStep(ctx: Ctx, scopes: Scopes, ss: seq<Stmt>, i: nat)
      requires i < |ss|
      ensures var x := CheckSpec.CheckStmt(ctx, scopes, ss[i]);
        var rest := CheckSpec.CheckStmts(ctx, x.scopes, ss[i + 1..]);
        CheckSpec.CheckStmts(ctx, scopes, ss[i..]) == Walked([x.v] + rest.v, rest.scopes, x.errs + rest.errs)
      ensures LabelsOf(ss[i..]) == LabelsOf(ss[i + 1..]) + Labels(ss[i])
      ensures JumpsOf(ss[i..]) == JumpsOf(ss[i + 1..]) + Jumps(ss[i])
    {
      hide CheckSpec.CheckStmt, Labels, Jumps;
      assert ss[i..][0] == ss[i] && ss[i..][1..] == ss[i + 1..];
    }

    /** Nothing is left to do after the last statement. */
    static lemma StmtsEnd(ctx: Ctx, scopes: Scopes, ss: seq<Stmt>)
      ensures ss[0..] == ss && ss[|ss|..] == [] && LabelsOf(ss[|ss|..]) == [] && JumpsOf(ss[|ss|..]) == []
      ensures forall inner :: CheckSpec.CheckStmts(ctx, inner, ss[|ss|..]) == Walked([], inner, 0)
    {
    }

    method CheckBlock(ghost ctx: Ctx, ghost scopes: Scopes, ss: seq<Stmt>) returns (out: seq<Stmt>)
      requires Sees(EnvOf(ctx, scopes)) && In(ctx)
      modifies this`errors, this`labels, this`jumps, st
      ensures out == CheckSpec.CheckBlock(ctx, scopes, ss).v
      ensures errors == old(errors) + CheckSpec.CheckBlock(ctx, scopes, ss).errs
      ensures Sees(EnvOf(ctx, scopes))
      ensures labels == LabelsOf(ss) + old(labels) && jumps == JumpsOf(ss) + old(jumps)
      ensures st.chain == old(st.chain) && st.cur == old(st.cur)
      decreases ss, 2
    {
      hide Checker.Sees, CheckSpec.CheckStmt, CheckSpec.CheckStmts, Labels, Jumps, LabelsOf, JumpsOf;
      ghost var env := EnvOf(ctx, scopes);
      Current(env);
      PushScope(env);
      ghost var inner := Push(scopes);
      StmtsEnd(ctx, inner, ss);
      out := [];
      ghost var all := CheckSpec.CheckStmts(ctx, inner, ss);
      for i := 0 to |ss|
        invariant Sees(EnvOf(ctx, inner)) && |inner| == |scopes| + 1
        invariant In(ctx) && st.chain == old(st.chain) + [st.cur] && fresh(st.cur) && fresh(st.cur.buckets)
        invariant out + CheckSpec.CheckStmts(ctx, inner, ss[i..]).v == all.v
        invariant errors + CheckSpec.CheckStmts(ctx, inner, ss[i..]).errs == old(errors) + all.errs
        invariant CheckSpec.CheckStmts(ctx, inner, ss[i..]).scopes == all.scopes
        invariant LabelsOf(ss[i..]) + labels == LabelsOf(ss) + old(labels)
        invariant JumpsOf(ss[i..]) + jumps == JumpsOf(ss) + old(jumps)
      {
        StmtsStep(ctx, inner, ss, i);
        var x := CheckStmt(ctx, inner, ss[i]);
        inner := CheckSpec.CheckStmt(ctx, inner, ss[i]).scopes;
        out := out + [x];
      }
      StmtsKeepOuter(ctx, Push(scopes), ss);
      assert Push(scopes)[..|scopes|] == scopes;
      PopScope(EnvOf(ctx, inner), env);
    }

    // ------------------------------------------------------------------- bodies

    /** Reports each pair of labels with one name and each jump without a label, and starts
        afresh. */
    method ResolveLabelsAndJumps()
      modifies this`errors, this`labels, this`jumps
      ensures errors == old(errors) + DuplicatePairs(old(labels)) + Missing(old(jumps), old(labels))
      ensures labels == [] && jumps == []
    {
      for i := 0 to |labels|
        invariant labels == old(labels) && jumps == old(jumps)
        invariant errors + DuplicatePairs(labels[i..]) == old(errors) + DuplicatePairs(labels)
      {
        ghost var here := errors;
        ghost var rest := labels[i + 1..];
        assert labels[i..][1..] == rest;
        for j := i + 1 to |labels|
          invariant labels == old(labels) && jumps == old(jumps)
          invariant errors + Occurrences(labels[j..], labels[i]) == here + Occurrences(rest, labels[i])
        {
          assert labels[j..][1..] == labels[j + 1..];
          Report(labels[i] == labels[j]);
        }
      }
      ghost var before := errors;
      for i := 0 to |jumps|
        invariant labels == old(labels) && jumps == old(jumps)
        invariant errors + Missing(jumps[i..], labels) == before + Missing(jumps, labels)
      {
        assert jumps[i..][1..] == jumps[i + 1..];
        Report(jumps[i] !in labels);
      }
      labels, jumps := [], [];
    }

    /** Declares the parameters in a scope of their own, walks the body and resolves its
        labels; the table ends as it was. */
    /** The parameters in a scope of their own. */
    method DeclareParameters(ghost ctx: Ctx, ghost top: Scope, params: seq<Param>)
      requires Sees(EnvOf(ctx, [top]))
      modifies this`errors, st
      ensures errors == old(errors) + DeclareParams(params).errs
      ensures Sees(EnvOf(ctx, [top, DeclareParams(params).scope]))
      ensures st.chain == old(st.chain) + [st.cur] && fresh(st.cur) && fresh(st.cur.buckets)
      ensures old(st.chain) != [] && old(st.cur) == old(st.chain)[|old(st.chain)| - 1]
    {
      hide Checker.Sees, DeclareAll;
      ghost var env := EnvOf(ctx, [top]);
      Current(env);
      PushScope(env);
      assert Push([top]) == [top, map[]];
      DeclareNames(EnvOf(ctx, [top, map[]]), [top], map[], ParamNames(params), ParamSyms(params));
      assert [top] + [DeclareParams(params).scope] == [top, DeclareParams(params).scope];
    }

    method CheckParamsAndBody(ghost ctx: Ctx, ghost top: Scope, params: seq<Param>, body: Stmt) returns (out: Stmt)
      requires Sees(EnvOf(ctx, [top])) && In(ctx)
      modifies this`errors, this`labels, this`jumps, st
      ensures var d := DeclareParams(params);
        && out == CheckBodyStmt(ctx, [top, d.scope], body).v
        && errors == old(errors) + d.errs + CheckBodyStmt(ctx, [top, d.scope], body).errs
      ensures Sees(EnvOf(ctx, [top])) && st.chain == old(st.chain) && st.cur == old(st.cur)
    {
      hide Checker.Sees, DeclareParams, CheckSpec.CheckBlock, DuplicatePairs, Missing, LabelsOf, JumpsOf;
      ghost var env := EnvOf(ctx, [top]);
      DeclareParameters(ctx, top, params);
      ghost var d := DeclareParams(params);
      labels, jumps := [], [];
      out := body;
      var stmts := BodyOf(body);
      var ss := CheckBlock(ctx, [top, d.scope], stmts);
      if body.kind.Block? { out := body.(kind := Block(ss)); }
      ResolveLabelsAndJumps();
      assert LabelsOf(stmts) + [] == LabelsOf(stmts) && JumpsOf(stmts) + [] == JumpsOf(stmts);
      assert [top, d.scope][..1] == [top];
      PopScope(EnvOf(ctx, [top, d.scope]), env);
    }

    /** Declares names one after the other in the current scope. */
    method DeclareNames(ghost env: Env, ghost outer: seq<Scope>, ghost here: Scope, names: seq<string>, syms: seq<Sym>)
      requires |names| == |syms| && env.scopes == outer + [here] && Sees(env)
      modifies this`errors, st.cur, st.cur.buckets
      ensures errors == old(errors) + DeclareAll(here, names, syms).errs
      ensures Sees(env.(scopes := outer + [DeclareAll(here, names, syms).scope]))
    {
      hide Checker.Sees;
      ghost var scope := here;
      ghost var all := DeclareAll(here, names, syms);
      for i := 0 to |names|
        invariant Sees(env.(scopes := outer + [scope]))
        invariant errors + DeclareAll(scope, names[i..], syms[i..]).errs == old(errors) + all.errs
        invariant DeclareAll(scope, names[i..], syms[i..]).scope == all.scope
      {
        assert names[i..][1..] == names[i + 1..] && syms[i..][1..] == syms[i + 1..];
        DeclareName(env.(scopes := outer + [scope]), names[i], syms[i]);
        DeclareInner(outer, scope, names[i], syms[i]);
        scope := if names[i] in scope then scope else scope[names[i] := syms[i]];
      }
    }

    /** The same in the global scope, while it is the only one. */
    method DeclareTop(ghost here: Scope, names: seq<string>, syms: seq<Sym>)
      requires |names| == |syms| && Sees(Env(bi, lso, [here]))
      modifies this`errors, st.cur, st.cur.buckets
      ensures errors == old(errors) + DeclareAll(here, names, syms).errs
      ensures Sees(Env(bi, lso, [DeclareAll(here, names, syms).scope]))
    {
      hide Checker.Sees, DeclareAll;
      ghost var scopes: Scopes := [here];
      assert [] + [here] == scopes;
      DeclareNames(Env(bi, lso, scopes), [], here, names, syms);
      assert [] + [DeclareAll(here, names, syms).scope] == [DeclareAll(here, names, syms).scope];
    }

    // --------------------------------------------------- functions, events, states

    method CheckFunctionBody(ghost top: Scope, f: Func) returns (out: Func)
      requires Sees(Env(bi, lso, [top]))
      modifies this, st
      ensures out == CheckSpec.CheckFunc(bi, lso, states, top, f).v
      ensures errors == old(errors) + CheckSpec.CheckFunc(bi, lso, states, top, f).errs
      ensures Sees(Env(bi, lso, [top])) && st.chain == old(st.chain) && st.cur == old(st.cur)
    {
      hide Checker.Sees, DeclareParams, CheckBodyStmt;
      ret := Some(f.ret);
      var body := CheckParamsAndBody(Ctx(bi, lso, Some(f.ret), states), top, f.params, f.body);
      ret := None;
      out := f.(body := body);
    }

    method CheckEventSignature(name: string, types: seq<Type>)
      modifies this`errors
      ensures errors == old(errors) + EventErrors(bi, name, types)
    {
      hide EventOfArity;
      var v := EventOfArity(bi.events, name, |types|);
      if v.None? {
        errors := errors + 1;
        return;
      }
      var want := v.value.params;
      for i := 0 to |types|
        invariant errors + BadParams(want[i..], types[i..]) == old(errors) + BadParams(want, types)
      {
        assert want[i..][1..] == want[i + 1..] && types[i..][1..] == types[i + 1..];
        if want[i] != TVoid { Report(types[i] != want[i]); }
      }
    }

    method CheckEvent(ghost top: Scope, ev: Event) returns (out: Event)
      requires Sees(Env(bi, lso, [top]))
      modifies this, st
      ensures out == CheckSpec.CheckEvent(bi, lso, states, top, ev).v
      ensures errors == old(errors) + CheckSpec.CheckEvent(bi, lso, states, top, ev).errs
      ensures Sees(Env(bi, lso, [top])) && st.chain == old(st.chain) && st.cur == old(st.cur)
    {
      hide Checker.Sees, DeclareParams, CheckBodyStmt, EventErrors;
      ret := None;
      CheckEventSignature(ev.name, ParamTypes(ev.params));
      var body := CheckParamsAndBody(Ctx(bi, lso, None, states), top, ev.params, ev.body);
      out := ev.(body := body);
    }

    /** One error for each pair of handlers with one name. */
    method CheckDuplicateEvents(names: seq<string>)
      modifies this`errors
      ensures errors == old(errors) + DuplicatePairs(names)
    {
      for i := 0 to |names|
        invariant errors + DuplicatePairs(names[i..]) == old(errors) + DuplicatePairs(names)
      {
        ghost var here := errors;
        ghost var rest := names[i + 1..];
        assert names[i..][1..] == rest;
        for j := i + 1 to |names|
          invariant errors + Occurrences(names[j..], names[i]) == here + Occurrences(rest, names[i])
        {
          assert names[j..][1..] == names[j + 1..];
          Report(names[i] == names[j]);
        }
      }
    }

    method CheckState(ghost top: Scope, s: State) returns (out: State)
      requires Sees(Env(bi, lso, [top]))
      modifies this, st
      ensures out == CheckSpec.CheckState(bi, lso, states, top, s).v
      ensures errors == old(errors) + CheckSpec.CheckState(bi, lso, states, top, s).errs
      ensures Sees(Env(bi, lso, [top])) && st.chain == old(st.chain) && st.cur == old(st.cur)
    {
      hide Checker.Sees, CheckSpec.CheckEvent, DuplicatePairs;
      CheckDuplicateEvents(EventNames(s.events));
      ghost var before := errors;
      ghost var check := ev => CheckSpec.CheckEvent(bi, lso, states, top, ev);
      var events := [];
      for i := 0 to |s.events|
        invariant Sees(Env(bi, lso, [top])) && st.chain == old(st.chain) && st.cur == old(st.cur)
        invariant events == Each(check, s.events[..i]).v
        invariant errors == before + Each(check, s.events[..i]).errs
      {
        EachNext(check, s.events, i);
        var ev := CheckEvent(top, s.events[i]);
        events := events + [ev];
      }
      assert s.events[..|s.events|] == s.events;
      EachSame(check, ev => CheckSpec.CheckEvent(bi, lso, states, top, ev), s.events);
      out := s.(events := events);
    }

    // -------------------------------------------------------------------- globals

    method CheckGlobal(ghost top: Scope, g: Global) returns (out: Global)
      requires Sees(Env(bi, lso, [top]))
      modifies this`errors
      ensures out == CheckSpec.CheckGlobal(ops, bi, lso, top, g).v
      ensures errors == old(errors) + CheckSpec.CheckGlobal(ops, bi, lso, top, g).errs
      ensures Sees(Env(bi, lso, [top]))
    {
      hide Checker.Sees, CheckSpec.CheckInit, FoldExpr, IsConstant;
      if g.init.None? { return g; }
      var x := CheckInit(Env(bi, lso, [top]), g.ty, g.init.value);
      var folded := FoldExpr(ops, bi, x);
      Report(!IsConstant(bi, folded));
      out := g.(init := Some(folded));
    }

    // --------------------------------------------------------------------- script

    /** Declares the states and tells whether a default one is among those declared. */
    method DeclareStates(ghost scope: Scope, ss: seq<State>) returns (sawDefault: bool)
      requires Sees(Env(bi, lso, [scope]))
      modifies this`errors, st.cur, st.cur.buckets
      ensures errors == old(errors) + DeclareAll(scope, StateNames(ss), StateSyms(ss)).errs
      ensures Sees(Env(bi, lso, [DeclareAll(scope, StateNames(ss), StateSyms(ss)).scope]))
      ensures sawDefault == SawDefault(scope, ss)
    {
      hide Checker.Sees;
      ghost var names, syms := StateNames(ss), StateSyms(ss);
      ghost var here := scope;
      ghost var all := DeclareAll(scope, names, syms);
      sawDefault := false;
      for i := 0 to |ss|
        invariant Sees(Env(bi, lso, [here]))
        invariant errors + DeclareAll(here, names[i..], syms[i..]).errs == old(errors) + all.errs
        invariant DeclareAll(here, names[i..], syms[i..]).scope == all.scope
        invariant sawDefault || SawDefault(here, ss[i..]) <==> SawDefault(scope, ss)
      {
        assert names[i..][1..] == names[i + 1..] && syms[i..][1..] == syms[i + 1..] && ss[i..][1..] == ss[i + 1..];
        var before := errors;
        var sym := Sym(SymState, TVoid, []);
        DeclareName(Env(bi, lso, [here]), ss[i].name, sym);
        DeclareInner([], here, ss[i].name, sym);
        assert [] + [here] == [here];
        if errors == before && ss[i].isDefault { sawDefault := true; }
        here := if ss[i].name in here then here else here[ss[i].name := sym];
        assert [] + [here] == [here];
      }
    }

    method CheckGlobals(ghost top: Scope, gs: seq<Global>) returns (out: seq<Global>)
      requires Sees(Env(bi, lso, [top]))
      modifies this`errors
      ensures var r := Each(g => CheckSpec.CheckGlobal(ops, bi, lso, top, g), gs);
        out == r.v && errors == old(errors) + r.errs
      ensures Sees(Env(bi, lso, [top]))
    {
      hide Checker.Sees, CheckSpec.CheckGlobal;
      ghost var check := g => CheckSpec.CheckGlobal(ops, bi, lso, top, g);
      out := [];
      for i := 0 to |gs|
        invariant Sees(Env(bi, lso, [top]))
        invariant out == Each(check, gs[..i]).v && errors == old(errors) + Each(check, gs[..i]).errs
      {
        EachNext(check, gs, i);
        var g := CheckGlobal(top, gs[i]);
        out := out + [g];
      }
      assert gs[..|gs|] == gs;
      EachSame(check, g => CheckSpec.CheckGlobal(ops, bi, lso, top, g), gs);
    }

    method CheckFunctions(ghost top: Scope, fs: seq<Func>) returns (out: seq<Func>)
      requires Sees(Env(bi, lso, [top]))
      modifies this, st
      ensures var r := Each(f => CheckSpec.CheckFunc(bi, lso, states, top, f), fs);
        out == r.v && errors == old(errors) + r.errs
      ensures Sees(Env(bi, lso, [top])) && st.chain == old(st.chain) && st.cur == old(st.cur)
    {
      hide Checker.Sees, CheckSpec.CheckFunc;
      ghost var check := f => CheckSpec.CheckFunc(bi, lso, states, top, f);
      out := [];
      for i := 0 to |fs|
        invariant Sees(Env(bi, lso, [top])) && st.chain == old(st.chain) && st.cur == old(st.cur)
        invariant out == Each(check, fs[..i]).v && errors == old(errors) + Each(check, fs[..i]).errs
      {
        EachNext(check, fs, i);
        var f := CheckFunctionBody(top, fs[i]);
        out := out + [f];
      }
      assert fs[..|fs|] == fs;
      EachSame(check, f => CheckSpec.CheckFunc(bi, lso, states, top, f), fs);
    }

    method CheckStates(ghost top: Scope, ss: seq<State>) returns (out: seq<State>)
      requires Sees(Env(bi, lso, [top]))
      modifies this, st
      ensures var r := Each(s => CheckSpec.CheckState(bi, lso, states, top, s), ss);
        out == r.v && errors == old(errors) + r.errs
    {
      hide Checker.Sees, CheckSpec.CheckState;
      ghost var check := s => CheckSpec.CheckState(bi, lso, states, top, s);
      out := [];
      for i := 0 to |ss|
        invariant Sees(Env(bi, lso, [top]))
        invariant out == Each(check, ss[..i]).v && errors == old(errors) + Each(check, ss[..i]).errs
      {
        EachNext(check, ss, i);
        var s := CheckState(top, ss[i]);
        out := out + [s];
      }
      assert ss[..|ss|] == ss;
      EachSame(check, s => CheckSpec.CheckState(bi, lso, states, top, s), ss);
    }

    lemma Current(env: Env)
      requires Sees(env)
      ensures st.chain != [] && st.cur == st.chain[|st.chain| - 1] && |st.chain| == |env.scopes|
    {
    }
  }

  lemma DeclareInner(outer: seq<Scope>, here: Scope, name: string, sym: Sym)
    ensures CheckSpec.Declare(outer + [here], name, sym)
      == outer + [if name in here then here else here[name := sym]]
  {
  }

  lemma EachNext<T>(f: T -> Checked<T>, xs: seq<T>, i: nat)
    requires i < |xs|
    ensures Each(f, xs[..i + 1]).v == Each(f, xs[..i]).v + [f(xs[i]).v]
    ensures Each(f, xs[..i + 1]).errs == Each(f, xs[..i]).errs + f(xs[i]).errs
  {
    assert xs[..i + 1][..i] == xs[..i];
  }

  lemma {:induction false} EachSame<T>(f: T -> Checked<T>, g: T -> Checked<T>, xs: seq<T>)
    requires forall x :: f(x) == g(x)
    ensures Each(f, xs) == Each(g, xs)
    decreases |xs|
  {
    if xs != [] { EachSame(f, g, xs[..|xs| - 1]); }
  }

  /** The whole check: globals with their initialisers, then functions and states by name,
      then the bodies. */
  method SemCheck(ops: FloatOps, bi: Tables, lso: bool, hash: string -> nat, s: Script)
    returns (out: Script, errors: nat)
    requires bi.beyond.FromMemory?
    ensures Checked(out, errors) == CheckScript(ops, bi, lso, s)
  {
    hide Checker.Sees, CheckSpec.CheckGlobal, CheckSpec.CheckFunc, CheckSpec.CheckState, DeclareAll, SawDefault,
         GlobalNames, GlobalSyms, FuncNames, FuncSyms, StateNames, StateSyms;
    var c := new Checker(ops, bi, lso, StateNames(s.states), hash);
    c.Sees0();
    c.DeclareTop(map[], GlobalNames(s.globals), GlobalSyms(s.globals));
    ghost var globals := DeclareAll(map[], GlobalNames(s.globals), GlobalSyms(s.globals));
    var gs := c.CheckGlobals(globals.scope, s.globals);
    c.DeclareTop(globals.scope, FuncNames(s.funcs), FuncSyms(s.funcs));
    ghost var funcs := DeclareAll(globals.scope, FuncNames(s.funcs), FuncSyms(s.funcs));
    var sawDefault := c.DeclareStates(funcs.scope, s.states);
    c.Report(!sawDefault);
    ghost var states := DeclareAll(funcs.scope, StateNames(s.states), StateSyms(s.states));
    var fs := c.CheckFunctions(states.scope, s.funcs);
    var ss := c.CheckStates(states.scope, s.states);
    out, errors := Script(gs, fs, ss), c.errors;
  }

  // ------------------------------------------- what statements leave untouched

  lemma {:induction false} StmtKeepsOuter(ctx: Ctx, scopes: Scopes, s: Stmt)
    ensures var r := CheckSpec.CheckStmt(ctx, scopes, s).scopes;
      |r| == |scopes| && r[..|r| - 1] == scopes[..|scopes| - 1]
    decreases s, 0
  {
    hide CheckSpec.CheckExpr, CheckSpec.CheckAll, CheckSpec.CheckBlock, CheckSpec.CheckReturn, CheckSpec.CheckInit,
         CheckSpec.CheckOption;
    match s.kind
    case If(_, thn, els) =>
      StmtKeepsOuter(ctx, scopes, thn);
      if els.Some? { StmtKeepsOuter(ctx, CheckSpec.CheckStmt(ctx, scopes, thn).scopes, els.value); }
    case While(_, body) => StmtKeepsOuter(ctx, scopes, body);
    case DoWhile(body, _) => StmtKeepsOuter(ctx, scopes, body);
    case For(_, _, _, body) => StmtKeepsOuter(ctx, scopes, body);
    case _ =>
  }

  lemma {:induction false} StmtsKeepOuter(ctx: Ctx, scopes: Scopes, ss: seq<Stmt>)
    ensures var r := CheckSpec.CheckStmts(ctx, scopes, ss).scopes;
      |r| == |scopes| && r[..|r| - 1] == scopes[..|scopes| - 1]
    decreases ss
  {
    hide CheckSpec.CheckStmt;
    if ss != [] {
      StmtKeepsOuter(ctx, scopes, ss[0]);
      StmtsKeepOuter(ctx, CheckSpec.CheckStmt(ctx, scopes, ss[0]).scopes, ss[1..]);
    }
  }
}
