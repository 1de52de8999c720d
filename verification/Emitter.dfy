/** The two-pass emitter.  Pass 1 fills the string pool; pass 2 writes the bytes and,
    finding every name in the pool, never adds to it. */
module Emitter {
  import opened Syntax
  import opened Seqs
  import opened Slbc
  import opened SlbcProofs

  lemma InternAllNone(pool: seq<string>)
    ensures InternAll(pool, []) == pool
  {
  }

  class Emit {
    var strs: seq<string>
    var out: seq<Byte>

    constructor ()
      ensures strs == [] && out == []
    {
      strs, out := [], [];
    }

    /** Index of `s` in the pool, appending it first if it is not there. */
    method PoolIntern(s: string) returns (i: nat)
      modifies this`strs
      ensures strs == Intern(old(strs), s)
      ensures i == IndexOf(strs, s) && i < |strs| && strs[i] == s
    {
      i := 0;
      while i < |strs|
        invariant i <= |strs|
        invariant forall k :: 0 <= k < i ==> strs[k] != s
      {
        if strs[i] == s {
          assert strs[IndexOf(strs, s)] == s;
          return;
        }
        i := i + 1;
      }
      strs := strs + [s];
      assert forall k :: 0 <= k < i ==> strs[k] != s;
      assert strs[i] == s;
      assert strs[IndexOf(strs, s)] == s;
    }

    // ------------------------------------------------------------- writers

    method WriteBytes(bs: seq<Byte>)
      modifies this`out
      ensures out == old(out) + bs
    {
      out := out + bs;
    }

    method WriteByte(v: Byte)
      modifies this`out
      ensures out == old(out) + [v]
    {
      WriteBytes([v]);
    }

    /** The `n` low bytes of `u`, shifted out one at a time. */
    method WriteLittleEndian(n: nat, u: nat)
      modifies this`out
      ensures out == old(out) + LittleEndian(n, u)
    {
      var b: seq<Byte>, v := [], u;
      for i := 0 to n
        invariant b + LittleEndian(n - i, v) == LittleEndian(n, u)
      {
        assert b + LittleEndian(n - i, v) == (b + [v % 256]) + LittleEndian(n - (i + 1), v / 256);
        b, v := b + [v % 256], v / 256;
      }
      assert LittleEndian(0, v) == [] && b + [] == b;
      WriteBytes(b);
    }

    method WriteU32(v: nat)
      modifies this`out
      ensures out == old(out) + U32(v)
    {
      WriteLittleEndian(4, v);
    }

    method WriteI64(v: Int64)
      modifies this`out
      ensures out == old(out) + LittleEndian(8, AsUnsigned64(v))
    {
      WriteLittleEndian(8, if v < 0 then v + TWO_64 else v);
    }

    method WriteF64(v: Bits64)
      modifies this`out
      ensures out == old(out) + LittleEndian(8, v)
    {
      WriteLittleEndian(8, v);
    }

    method WriteName(s: string)
      requires s in strs
      modifies this
      ensures strs == old(strs)
      ensures out == old(out) + NameBytes(strs, s)
    {
      var i := PoolIntern(s);
      WriteU32(i);
    }

    // ------------------------------------------------- pass 1: collecting

    method CollectExpr(e: Expr)
      modifies this`strs
      ensures strs == InternAll(old(strs), ExprStrings(e))
      decreases e
    {
      hide InternAll;
      ghost var s0 := strs;
      match e.kind {
        case IntLit(_) => InternAllNone(s0);
        case FloatLit(_) => InternAllNone(s0);
        case StringLit(s) => CollectName(s);
        case Ident(name) => CollectName(name);
        case VectorLit(x, y, z) =>
          CollectExpr(x);
          CollectExpr(y);
          CollectExpr(z);
          InternAllConcat(s0, ExprStrings(x), ExprStrings(y) + ExprStrings(z));
          InternAllConcat(InternAll(s0, ExprStrings(x)), ExprStrings(y), ExprStrings(z));
        case RotLit(x, y, z, w) =>
          CollectExpr(x);
          CollectExpr(y);
          CollectExpr(z);
          CollectExpr(w);
          InternAllConcat(s0, ExprStrings(x), ExprStrings(y) + (ExprStrings(z) + ExprStrings(w)));
          InternAllConcat(InternAll(s0, ExprStrings(x)), ExprStrings(y), ExprStrings(z) + ExprStrings(w));
          InternAllConcat(InternAll(InternAll(s0, ExprStrings(x)), ExprStrings(y)), ExprStrings(z), ExprStrings(w));
        case ListLit(items) => CollectExprs(items);
        case Call(fn, args) =>
          CollectName(fn);
          CollectExprs(args);
          InternAllConcat(s0, [fn], ExprsStrings(args, 0));
        case Member(base, _) => CollectExpr(base);
        case Cast(_, inner) => CollectExpr(inner);
        case Unary(_, inner) => CollectExpr(inner);
        case Postfix(_, inner) => CollectExpr(inner);
        case Binary(_, l, r) =>
          CollectExpr(l);
          CollectExpr(r);
          InternAllConcat(s0, ExprStrings(l), ExprStrings(r));
        case Assign(_, l, r) =>
          CollectExpr(l);
          CollectExpr(r);
          InternAllConcat(s0, ExprStrings(l), ExprStrings(r));
      }
    }

    method CollectName(s: string)
      modifies this`strs
      ensures strs == InternAll(old(strs), [s])
    {
      assert [s][..0] == [] && InternAll(strs, []) == strs;
      var _ := PoolIntern(s);
    }

    method CollectExprs(es: seq<Expr>)
      modifies this`strs
      ensures strs == InternAll(old(strs), ExprsStrings(es, 0))
      decreases es
    {
      ghost var s0 := strs;
      for k := 0 to |es|
        invariant InternAll(strs, ExprsStrings(es, k)) == InternAll(s0, ExprsStrings(es, 0))
      {
        InternAllConcat(strs, ExprStrings(es[k]), ExprsStrings(es, k + 1));
        CollectExpr(es[k]);
      }
    }

    method CollectOptExpr(e: Option<Expr>)
      modifies this`strs
      ensures strs == InternAll(old(strs), OptExprStrings(e))
    {
      if e.Some? { CollectExpr(e.value); }
    }

    static lemma InternThree(pool: seq<string>, a: seq<string>, b: seq<string>, c: seq<string>)
      ensures InternAll(pool, a + (b + c)) == InternAll(InternAll(InternAll(pool, a), b), c)
    {
      hide InternAll;
      InternAllConcat(pool, a, b + c);
      InternAllConcat(InternAll(pool, a), b, c);
    }

    method CollectStmt(s: Stmt)
      modifies this`strs
      ensures strs == InternAll(old(strs), StmtStrings(s))
      decreases s
    {
      hide ExprStrings, ExprsStrings, OptExprStrings, InternAll;
      ghost var s0 := strs;
      match s.kind {
        case Empty => InternAllNone(s0);
        case ExprStmt(e) => CollectExpr(e);
        case Decl(_, name, init) =>
          CollectName(name);
          CollectOptExpr(init);
          InternAllConcat(s0, [name], OptExprStrings(init));
        case Block(stmts) =>
          for k := 0 to |stmts|
            invariant InternAll(strs, StmtsStrings(stmts, k)) == InternAll(s0, StmtsStrings(stmts, 0))
          {
            InternAllConcat(strs, StmtStrings(stmts[k]), StmtsStrings(stmts, k + 1));
            CollectStmt(stmts[k]);
          }
          InternAllNone(strs);
        case If(cond, thn, els) =>
          CollectExpr(cond);
          CollectStmt(thn);
          if els.Some? { CollectStmt(els.value); } else { InternAllNone(strs); }
          ghost var tail := if els.Some? then StmtStrings(els.value) else [];
          InternThree(s0, ExprStrings(cond), StmtStrings(thn), tail);
        case While(cond, body) =>
          CollectExpr(cond);
          CollectStmt(body);
          InternAllConcat(s0, ExprStrings(cond), StmtStrings(body));
        case DoWhile(body, cond) =>
          CollectStmt(body);
          CollectExpr(cond);
          InternAllConcat(s0, StmtStrings(body), ExprStrings(cond));
        case For(inits, test, posts, body) =>
          CollectExprs(inits);
          ghost var s1 := strs;
          CollectOptExpr(test);
          CollectExprs(posts);
          CollectStmt(body);
          ghost var tail := ExprsStrings(posts, 0) + StmtStrings(body);
          InternAllConcat(s0, ExprsStrings(inits, 0), OptExprStrings(test) + tail);
          InternThree(s1, OptExprStrings(test), ExprsStrings(posts, 0), StmtStrings(body));
        case Return(result) => CollectOptExpr(result);
        case Jump(target) => CollectName(target.GetOr(""));
        case Label(target) => CollectName(target.GetOr(""));
        case StateChange(target) => CollectName(target.GetOr(""));
      }
    }

    method CollectParams(ps: seq<Param>)
      modifies this`strs
      ensures strs == InternAll(old(strs), ParamStrings(ps, 0))
    {
      ghost var s0 := strs;
      for k := 0 to |ps|
        invariant InternAll(strs, ParamStrings(ps, k)) == InternAll(s0, ParamStrings(ps, 0))
      {
        InternAllConcat(strs, [ps[k].name], ParamStrings(ps, k + 1));
        CollectName(ps[k].name);
      }
    }

    method CollectEvents(es: seq<Event>)
      modifies this`strs
      ensures strs == InternAll(old(strs), EventStrings(es, 0))
    {
      hide StmtStrings, ParamStrings;
      ghost var s0 := strs;
      for k := 0 to |es|
        invariant InternAll(strs, EventStrings(es, k)) == InternAll(s0, EventStrings(es, 0))
      {
        var e := es[k];
        ghost var tail := StmtStrings(e.body) + EventStrings(es, k + 1);
        InternAllConcat(strs, [e.name], ParamStrings(e.params, 0) + tail);
        CollectName(e.name);
        InternAllConcat(strs, ParamStrings(e.params, 0), tail);
        CollectParams(e.params);
        InternAllConcat(strs, StmtStrings(e.body), EventStrings(es, k + 1));
        CollectStmt(e.body);
      }
    }

    method CollectGlobals(gs: seq<Global>)
      modifies this`strs
      ensures strs == InternAll(old(strs), GlobalStrings(gs, 0))
    {
      hide OptExprStrings;
      ghost var s0 := strs;
      for k := 0 to |gs|
        invariant InternAll(strs, GlobalStrings(gs, k)) == InternAll(s0, GlobalStrings(gs, 0))
      {
        InternAllConcat(strs, [gs[k].name], OptExprStrings(gs[k].init) + GlobalStrings(gs, k + 1));
        CollectName(gs[k].name);
        InternAllConcat(strs, OptExprStrings(gs[k].init), GlobalStrings(gs, k + 1));
        CollectOptExpr(gs[k].init);
      }
    }

    method CollectFuncs(fs: seq<Func>)
      modifies this`strs
      ensures strs == InternAll(old(strs), FuncStrings(fs, 0))
    {
      hide StmtStrings, ParamStrings;
      ghost var s0 := strs;
      for k := 0 to |fs|
        invariant InternAll(strs, FuncStrings(fs, k)) == InternAll(s0, FuncStrings(fs, 0))
      {
        var f := fs[k];
        ghost var tail := StmtStrings(f.body) + FuncStrings(fs, k + 1);
        InternAllConcat(strs, [f.name], ParamStrings(f.params, 0) + tail);
        CollectName(f.name);
        InternAllConcat(strs, ParamStrings(f.params, 0), tail);
        CollectParams(f.params);
        InternAllConcat(strs, StmtStrings(f.body), FuncStrings(fs, k + 1));
        CollectStmt(f.body);
      }
    }

    method CollectStates(ss: seq<State>)
      modifies this`strs
      ensures strs == InternAll(old(strs), StateStrings(ss, 0))
    {
      hide EventStrings;
      ghost var s0 := strs;
      for k := 0 to |ss|
        invariant InternAll(strs, StateStrings(ss, k)) == InternAll(s0, StateStrings(ss, 0))
      {
        InternAllConcat(strs, [ss[k].name], EventStrings(ss[k].events, 0) + StateStrings(ss, k + 1));
        CollectName(ss[k].name);
        InternAllConcat(strs, EventStrings(ss[k].events, 0), StateStrings(ss, k + 1));
        CollectEvents(ss[k].events);
      }
    }

    /** Pass 1. */
    method Collect(sc: Script)
      modifies this`strs
      ensures strs == InternAll(old(strs), ScriptStrings(sc))
    {
      hide GlobalStrings, FuncStrings, StateStrings;
      var fs := FuncStrings(sc.funcs, 0) + StateStrings(sc.states, 0);
      InternAllConcat(strs, GlobalStrings(sc.globals, 0), fs);
      CollectGlobals(sc.globals);
      InternAllConcat(strs, FuncStrings(sc.funcs, 0), StateStrings(sc.states, 0));
      CollectFuncs(sc.funcs);
      CollectStates(sc.states);
    }

    // --------------------------------------------------- pass 2: writing

    method EmitExpr(e: Expr)
      requires Covers(strs, ExprStrings(e))
      modifies this
      ensures strs == old(strs)
      ensures out == old(out) + ExprBytes(strs, e)
      decreases e, 2
    {
      hide PayloadBytes, ExprStrings;
      ghost var o := out;
      WriteByte(ExprTag(e.kind));
      WriteByte(TypeTag(e.ty));
      WriteByte(Flag(e.lv));
      EmitPayload(e);
      assert out == o + (ExprHeader(e) + PayloadBytes(strs, e));
    }

    method EmitPayload(e: Expr)
      requires Covers(strs, ExprStrings(e))
      modifies this
      ensures strs == old(strs)
      ensures out == old(out) + PayloadBytes(strs, e)
      decreases e, 1
    {
      hide ExprBytes, ExprsBytes, NameBytes, U32;
      ghost var o := out;
      match e.kind {
        case IntLit(i) => WriteI64(i);
        case FloatLit(f) => WriteF64(f);
        case StringLit(s) => WriteName(s);
        case Ident(name) => WriteName(name);
        case VectorLit(_, _, _) => EmitComponents(e);
        case RotLit(_, _, _, _) => EmitComponents(e);
        case ListLit(items) =>
          WriteU32(|items|);
          EmitExprs(items);
          assert out == o + (U32(|items|) + ExprsBytes(strs, items, 0));
        case Call(fn, args) =>
          WriteName(fn);
          WriteU32(|args|);
          EmitExprs(args);
          assert out == o + (NameBytes(strs, fn) + (U32(|args|) + ExprsBytes(strs, args, 0)));
        case Member(base, m) =>
          EmitExpr(base);
          WriteByte(CharByte(m));
          assert out == o + (ExprBytes(strs, base) + [CharByte(m)]);
        case Cast(to, inner) =>
          WriteByte(TypeTag(to));
          EmitExpr(inner);
          assert out == o + ([TypeTag(to)] + ExprBytes(strs, inner));
        case Unary(op, inner) =>
          WriteByte(OpTag(op));
          EmitExpr(inner);
          assert out == o + ([OpTag(op)] + ExprBytes(strs, inner));
        case Postfix(op, inner) =>
          WriteByte(OpTag(op));
          EmitExpr(inner);
          assert out == o + ([OpTag(op)] + ExprBytes(strs, inner));
        case Binary(_, _, _) => EmitOperands(e);
        case Assign(_, _, _) => EmitOperands(e);
      }
    }

    method EmitComponents(e: Expr)
      requires Covers(strs, ExprStrings(e)) && (e.kind.VectorLit? || e.kind.RotLit?)
      modifies this
      ensures strs == old(strs)
      ensures out == old(out) + PayloadBytes(strs, e)
      decreases e, 0
    {
      hide ExprBytes;
      ghost var o := out;
      EmitExpr(e.kind.x);
      EmitExpr(e.kind.y);
      EmitExpr(e.kind.z);
      ghost var x, y, z := ExprBytes(strs, e.kind.x), ExprBytes(strs, e.kind.y), ExprBytes(strs, e.kind.z);
      if e.kind.VectorLit? {
        assert out == o + (x + (y + z));
      } else {
        EmitExpr(e.kind.w);
        assert out == o + (x + (y + (z + ExprBytes(strs, e.kind.w))));
      }
    }

    method EmitOperands(e: Expr)
      requires Covers(strs, ExprStrings(e)) && (e.kind.Binary? || e.kind.Assign?)
      modifies this
      ensures strs == old(strs)
      ensures out == old(out) + PayloadBytes(strs, e)
      decreases e, 0
    {
      hide ExprBytes, OpTag;
      ghost var o := out;
      WriteByte(OpTag(e.kind.op));
      EmitExpr(e.kind.l);
      EmitExpr(e.kind.r);
      assert out == o + ([OpTag(e.kind.op)] + (ExprBytes(strs, e.kind.l) + ExprBytes(strs, e.kind.r)));
    }

    method EmitExprs(es: seq<Expr>)
      requires Covers(strs, ExprsStrings(es, 0))
      modifies this
      ensures strs == old(strs)
      ensures out == old(out) + ExprsBytes(strs, es, 0)
      decreases es
    {
      hide ExprBytes, ExprStrings;
      ghost var o := out;
      for k := 0 to |es|
        invariant strs == old(strs) && Covers(strs, ExprsStrings(es, k))
        invariant out + ExprsBytes(strs, es, k) == o + ExprsBytes(strs, es, 0)
      {
        assert out + (ExprBytes(strs, es[k]) + ExprsBytes(strs, es, k + 1)) ==
               (out + ExprBytes(strs, es[k])) + ExprsBytes(strs, es, k + 1);
        EmitExpr(es[k]);
      }
      assert out + [] == out;
    }

    method EmitOptExpr(e: Option<Expr>)
      requires Covers(strs, OptExprStrings(e))
      modifies this
      ensures strs == old(strs)
      ensures out == old(out) + OptExprBytes(strs, e)
    {
      hide ExprBytes, ExprStrings;
      ghost var o := out;
      WriteByte(if e.Some? then 1 else 0);
      if e.Some? {
        EmitExpr(e.value);
        assert out == o + ([1] + ExprBytes(strs, e.value));
      }
    }

    method WriteLine(line: int)
      modifies this`out
      ensures out == old(out) + LineBytes(line)
    {
      WriteU32(if line > 0 then line else 0);
    }

    method EmitStmt(s: Stmt)
      requires Covers(strs, StmtStrings(s))
      modifies this
      ensures strs == old(strs)
      ensures out == old(out) + StmtBytes(strs, s)
      decreases s, 1
    {
      hide StmtPayloadBytes, StmtStrings, LineBytes;
      ghost var o := out;
      WriteByte(StmtTag(s.kind));
      WriteLine(s.line);
      EmitStmtPayload(s);
      assert out == o + (([StmtTag(s.kind)] + LineBytes(s.line)) + StmtPayloadBytes(strs, s));
    }

    method EmitStmtPayload(s: Stmt)
      requires Covers(strs, StmtStrings(s))
      modifies this
      ensures strs == old(strs)
      ensures out == old(out) + StmtPayloadBytes(strs, s)
      decreases s, 0
    {
      hide ExprBytes, ExprsBytes, OptExprBytes, StmtBytes, NameBytes, U32, ExprStrings, ExprsStrings, OptExprStrings;
      ghost var o := out;
      match s.kind {
        case Empty =>
        case ExprStmt(e) => EmitExpr(e);
        case Decl(ty, name, init) =>
          WriteByte(TypeTag(ty));
          WriteName(name);
          EmitOptExpr(init);
          assert out == o + ([TypeTag(ty)] + (NameBytes(strs, name) + OptExprBytes(strs, init)));
        case Block(stmts) =>
          WriteU32(|stmts|);
          EmitStmts(stmts);
          assert out == o + (U32(|stmts|) + StmtsBytes(strs, stmts, 0));
        case If(cond, thn, els) =>
          EmitExpr(cond);
          EmitStmt(thn);
          WriteByte(if els.Some? then 1 else 0);
          if els.Some? {
            EmitStmt(els.value);
            assert out == o + (ExprBytes(strs, cond) + (StmtBytes(strs, thn) + ([1] + StmtBytes(strs, els.value))));
          } else {
            assert out == o + (ExprBytes(strs, cond) + (StmtBytes(strs, thn) + [0]));
          }
        case While(cond, body) =>
          EmitExpr(cond);
          EmitStmt(body);
          assert out == o + (ExprBytes(strs, cond) + StmtBytes(strs, body));
        case DoWhile(body, cond) =>
          EmitStmt(body);
          EmitExpr(cond);
          assert out == o + (StmtBytes(strs, body) + ExprBytes(strs, cond));
        case For(inits, test, posts, body) =>
          WriteByte(|inits| % 256);
          EmitExprs(inits);
          EmitOptExpr(test);
          WriteByte(|posts| % 256);
          EmitExprs(posts);
          EmitStmt(body);
          ghost var last := [|posts| % 256] + (ExprsBytes(strs, posts, 0) + StmtBytes(strs, body));
          assert out == o + ([|inits| % 256] + (ExprsBytes(strs, inits, 0) + (OptExprBytes(strs, test) + last)));
        case Return(result) => EmitOptExpr(result);
        case Jump(target) => WriteName(target.GetOr(""));
        case Label(target) => WriteName(target.GetOr(""));
        case StateChange(target) => WriteName(target.GetOr(""));
      }
    }

    method EmitStmts(ss: seq<Stmt>)
      requires Covers(strs, StmtsStrings(ss, 0))
      modifies this
      ensures strs == old(strs)
      ensures out == old(out) + StmtsBytes(strs, ss, 0)
      decreases ss
    {
      hide StmtBytes, StmtStrings;
      ghost var o := out;
      for k := 0 to |ss|
        invariant strs == old(strs) && Covers(strs, StmtsStrings(ss, k))
        invariant out + StmtsBytes(strs, ss, k) == o + StmtsBytes(strs, ss, 0)
      {
        assert out + (StmtBytes(strs, ss[k]) + StmtsBytes(strs, ss, k + 1)) ==
               (out + StmtBytes(strs, ss[k])) + StmtsBytes(strs, ss, k + 1);
        EmitStmt(ss[k]);
      }
      assert out + [] == out;
    }

    method EmitParams(ps: seq<Param>)
      requires Covers(strs, ParamStrings(ps, 0))
      modifies this
      ensures strs == old(strs)
      ensures out == old(out) + ParamsBytes(strs, ps, 0)
    {
      hide NameBytes;
      ghost var o := out;
      for k := 0 to |ps|
        invariant strs == old(strs) && Covers(strs, ParamStrings(ps, k))
        invariant out + ParamsBytes(strs, ps, k) == o + ParamsBytes(strs, ps, 0)
      {
        var p := ps[k];
        assert out + ([TypeTag(p.ty)] + (NameBytes(strs, p.name) + ParamsBytes(strs, ps, k + 1))) ==
               ((out + [TypeTag(p.ty)]) + NameBytes(strs, p.name)) + ParamsBytes(strs, ps, k + 1);
        WriteByte(TypeTag(p.ty));
        WriteName(p.name);
      }
      assert out + [] == out;
    }

    method EmitGlobals(gs: seq<Global>)
      requires Covers(strs, GlobalStrings(gs, 0))
      modifies this
      ensures strs == old(strs)
      ensures out == old(out) + GlobalsBytes(strs, gs, 0)
    {
      hide NameBytes, OptExprBytes, OptExprStrings;
      ghost var o := out;
      for k := 0 to |gs|
        invariant strs == old(strs) && Covers(strs, GlobalStrings(gs, k))
        invariant out + GlobalsBytes(strs, gs, k) == o + GlobalsBytes(strs, gs, 0)
      {
        var g := gs[k];
        assert out + (GlobalBytes(strs, g) + GlobalsBytes(strs, gs, k + 1)) ==
               (out + GlobalBytes(strs, g)) + GlobalsBytes(strs, gs, k + 1);
        ghost var before := out;
        WriteByte(TypeTag(g.ty));
        WriteName(g.name);
        EmitOptExpr(g.init);
        assert out == before + GlobalBytes(strs, g);
      }
      assert out + [] == out;
    }

    method EmitFunc(f: Func)
      requires f.name in strs && Covers(strs, ParamStrings(f.params, 0)) && Covers(strs, StmtStrings(f.body))
      modifies this
      ensures strs == old(strs)
      ensures out == old(out) + FuncBytes(strs, f)
    {
      hide NameBytes, LineBytes, ParamsBytes, StmtBytes, ParamStrings, StmtStrings;
      ghost var o := out;
      WriteName(f.name);
      WriteLine(f.line);
      WriteByte(TypeTag(f.ret));
      WriteByte(Flag(f.hasRet));
      WriteByte(|f.params| % 256);
      EmitParams(f.params);
      EmitStmt(f.body);
      assert out == o + (NameBytes(strs, f.name) +
                         (LineBytes(f.line) +
                          ([TypeTag(f.ret), Flag(f.hasRet), |f.params| % 256] +
                           (ParamsBytes(strs, f.params, 0) + StmtBytes(strs, f.body)))));
    }

    method EmitFuncs(fs: seq<Func>)
      requires Covers(strs, FuncStrings(fs, 0))
      modifies this
      ensures strs == old(strs)
      ensures out == old(out) + FuncsBytes(strs, fs, 0)
    {
      hide FuncBytes, ParamStrings, StmtStrings;
      ghost var o := out;
      for k := 0 to |fs|
        invariant strs == old(strs) && Covers(strs, FuncStrings(fs, k))
        invariant out + FuncsBytes(strs, fs, k) == o + FuncsBytes(strs, fs, 0)
      {
        assert out + (FuncBytes(strs, fs[k]) + FuncsBytes(strs, fs, k + 1)) ==
               (out + FuncBytes(strs, fs[k])) + FuncsBytes(strs, fs, k + 1);
        EmitFunc(fs[k]);
      }
      assert out + [] == out;
    }

    method EmitEvent(e: Event)
      requires e.name in strs && Covers(strs, ParamStrings(e.params, 0)) && Covers(strs, StmtStrings(e.body))
      modifies this
      ensures strs == old(strs)
      ensures out == old(out) + EventBytes(strs, e)
    {
      hide NameBytes, LineBytes, ParamsBytes, StmtBytes, ParamStrings, StmtStrings;
      ghost var o := out;
      WriteName(e.name);
      WriteLine(e.line);
      WriteByte(|e.params| % 256);
      EmitParams(e.params);
      EmitStmt(e.body);
      assert out == o + (NameBytes(strs, e.name) +
                         (LineBytes(e.line) +
                          ([|e.params| % 256] + (ParamsBytes(strs, e.params, 0) + StmtBytes(strs, e.body)))));
    }

    method EmitState(s: State)
      requires s.name in strs && Covers(strs, EventStrings(s.events, 0))
      modifies this
      ensures strs == old(strs)
      ensures out == old(out) + StateBytes(strs, s)
    {
      hide NameBytes, LineBytes, EventBytes, ParamStrings, StmtStrings, U32;
      ghost var o := out;
      WriteName(s.name);
      WriteLine(s.line);
      WriteByte(Flag(s.isDefault));
      WriteU32(|s.events|);
      ghost var o1 := out;
      for k := 0 to |s.events|
        invariant strs == old(strs) && Covers(strs, EventStrings(s.events, k))
        invariant out + EventsBytes(strs, s.events, k) == o1 + EventsBytes(strs, s.events, 0)
      {
        assert out + (EventBytes(strs, s.events[k]) + EventsBytes(strs, s.events, k + 1)) ==
               (out + EventBytes(strs, s.events[k])) + EventsBytes(strs, s.events, k + 1);
        EmitEvent(s.events[k]);
      }
      assert out + [] == out;
      assert out == o + (NameBytes(strs, s.name) +
                         (LineBytes(s.line) +
                          ([Flag(s.isDefault)] + (U32(|s.events|) + EventsBytes(strs, s.events, 0)))));
    }

    method EmitStates(ss: seq<State>)
      requires Covers(strs, StateStrings(ss, 0))
      modifies this
      ensures strs == old(strs)
      ensures out == old(out) + StatesBytes(strs, ss, 0)
    {
      hide StateBytes, EventStrings;
      ghost var o := out;
      for k := 0 to |ss|
        invariant strs == old(strs) && Covers(strs, StateStrings(ss, k))
        invariant out + StatesBytes(strs, ss, k) == o + StatesBytes(strs, ss, 0)
      {
        assert out + (StateBytes(strs, ss[k]) + StatesBytes(strs, ss, k + 1)) ==
               (out + StateBytes(strs, ss[k])) + StatesBytes(strs, ss, k + 1);
        EmitState(ss[k]);
      }
      assert out + [] == out;
    }

    /** Pass 2, after the header and the pool. */
    method EmitScript(sc: Script)
      requires Covers(strs, ScriptStrings(sc))
      modifies this
      ensures strs == old(strs)
      ensures out == old(out) + ScriptBytes(strs, sc)
    {
      hide GlobalsBytes, FuncsBytes, StatesBytes, U32, GlobalStrings, FuncStrings, StateStrings;
      ghost var o := out;
      WriteU32(|sc.globals|);
      EmitGlobals(sc.globals);
      WriteU32(|sc.funcs|);
      EmitFuncs(sc.funcs);
      WriteU32(|sc.states|);
      EmitStates(sc.states);
      assert out == o + ((U32(|sc.globals|) + GlobalsBytes(strs, sc.globals, 0)) +
                         ((U32(|sc.funcs|) + FuncsBytes(strs, sc.funcs, 0)) +
                          (U32(|sc.states|) + StatesBytes(strs, sc.states, 0))));
    }

    method WritePool()
      modifies this`out
      ensures out == old(out) + (U32(|strs|) + PoolBytes(strs, 0))
    {
      hide U32, StringBytes;
      ghost var o := out;
      WriteU32(|strs|);
      ghost var o1 := out;
      for i := 0 to |strs|
        invariant out + PoolBytes(strs, i) == o1 + PoolBytes(strs, 0)
      {
        assert out + (U32(|strs[i]|) + (StringBytes(strs[i]) + PoolBytes(strs, i + 1))) ==
               ((out + U32(|strs[i]|)) + StringBytes(strs[i])) + PoolBytes(strs, i + 1);
        WriteU32(|strs[i]|);
        WriteBytes(StringBytes(strs[i]));
      }
      assert out + [] == out;
      assert out == o + (U32(|strs|) + PoolBytes(strs, 0));
    }

    /** Both passes.  The pool that the header counts is the pool that every
        index in the tree refers to. */
    method EmitBytecode(sc: Script, lso: bool)
      requires strs == [] && out == []
      modifies this
      ensures strs == PoolOf(sc) && FirstOccurrences(strs, ScriptStrings(sc))
      ensures out == FileBytes(sc, lso)
    {
      hide ScriptBytes, PoolBytes, U32, ScriptStrings, InternAll, FirstOccurrences;
      Collect(sc);
      InternAllFirstOccurrences(ScriptStrings(sc));
      PoolOfCovers(sc);
      WriteBytes([83, 76, 66, 67, 0]);
      WriteU32(2);
      WriteU32(if lso then 1 else 0);
      assert out == HeaderBytes(lso);
      WritePool();
      EmitScript(sc);
      assert out == HeaderBytes(lso) + ((U32(|strs|) + PoolBytes(strs, 0)) + ScriptBytes(strs, sc));
    }
  }
}
