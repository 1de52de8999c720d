/** The SLBC format loses nothing: decoding undoes encoding exactly when the script
    fits the format's field widths. */
module SlbcProofs {
  import opened Syntax
  import opened Seqs
  import opened Slbc

  const TWO_32: int := 0x1_0000_0000

  // --------------------------------------------------------- field widths

  /** How many fields inside an expression are too narrow for it. */
  function ExprMisfits(e: Expr): nat {
    match e.kind
    case IntLit(_) => 0
    case FloatLit(_) => 0
    case StringLit(_) => 0
    case Ident(_) => 0
    case VectorLit(x, y, z) => ExprMisfits(x) + ExprMisfits(y) + ExprMisfits(z)
    case RotLit(x, y, z, w) => ExprMisfits(x) + ExprMisfits(y) + ExprMisfits(z) + ExprMisfits(w)
    case ListLit(items) => Excess(|items|, TWO_32) + ExprsMisfits(items, 0)
    case Call(_, args) => Excess(|args|, TWO_32) + ExprsMisfits(args, 0)
    case Member(base, m) => Excess(m as int, 256) + ExprMisfits(base)
    case Cast(_, inner) => ExprMisfits(inner)
    case Unary(_, inner) => ExprMisfits(inner)
    case Postfix(_, inner) => ExprMisfits(inner)
    case Binary(_, l, r) => ExprMisfits(l) + ExprMisfits(r)
    case Assign(_, l, r) => ExprMisfits(l) + ExprMisfits(r)
  }

  /** 1 if `n` needs a wider field than one with `limit` values. */
  function Excess(n: int, limit: int): nat {
    if n < limit then 0 else 1
  }

  function ExprsMisfits(es: seq<Expr>, k: nat): nat
    requires k <= |es|
    decreases es, |es| - k
  {
    if k == |es| then 0 else ExprMisfits(es[k]) + ExprsMisfits(es, k + 1)
  }

  function OptExprMisfits(e: Option<Expr>): nat {
    match e
    case None => 0
    case Some(x) => ExprMisfits(x)
  }

  function StmtMisfits(s: Stmt): nat {
    Excess(s.line, TWO_32) +
    match s.kind
    case Empty => 0
    case ExprStmt(e) => ExprMisfits(e)
    case Decl(_, _, init) => OptExprMisfits(init)
    case Block(stmts) => Excess(|stmts|, TWO_32) + StmtsMisfits(stmts, 0)
    case If(cond, thn, els) =>
      ExprMisfits(cond) + StmtMisfits(thn) + (if els.Some? then StmtMisfits(els.value) else 0)
    case While(cond, body) => ExprMisfits(cond) + StmtMisfits(body)
    case DoWhile(body, cond) => StmtMisfits(body) + ExprMisfits(cond)
    case For(inits, test, posts, body) =>
      Excess(|inits|, 256) + Excess(|posts|, 256) + ExprsMisfits(inits, 0) + OptExprMisfits(test) +
      ExprsMisfits(posts, 0) + StmtMisfits(body)
    case Return(result) => OptExprMisfits(result)
    case Jump(_) => 0
    case Label(_) => 0
    case StateChange(_) => 0
  }

  function StmtsMisfits(ss: seq<Stmt>, k: nat): nat
    requires k <= |ss|
    decreases ss, |ss| - k
  {
    if k == |ss| then 0 else StmtMisfits(ss[k]) + StmtsMisfits(ss, k + 1)
  }

  predicate FuncFits(f: Func) {
    f.line < TWO_32 && |f.params| < 256 && StmtMisfits(f.body) == 0
  }

  predicate EventFits(e: Event) {
    e.line < TWO_32 && |e.params| < 256 && StmtMisfits(e.body) == 0
  }

  predicate StateFits(s: State) {
    s.line < TWO_32 && |s.events| < TWO_32 && forall k :: 0 <= k < |s.events| ==> EventFits(s.events[k])
  }

  predicate TreeFits(sc: Script) {
    && |sc.globals| < TWO_32 && |sc.funcs| < TWO_32 && |sc.states| < TWO_32
    && (forall k :: 0 <= k < |sc.globals| ==> OptExprMisfits(sc.globals[k].init) == 0)
    && (forall k :: 0 <= k < |sc.funcs| ==> FuncFits(sc.funcs[k]))
    && (forall k :: 0 <= k < |sc.states| ==> StateFits(sc.states[k]))
  }

  predicate PoolFits(pool: seq<string>) {
    |pool| < TWO_32 && forall k :: 0 <= k < |pool| ==> |pool[k]| < TWO_32 && IsCString(pool[k])
  }

  /** Every count, line, member letter and string of the script fits its field. */
  predicate Fits(sc: Script) {
    TreeFits(sc) && PoolFits(PoolOf(sc))
  }

  // ------------------------------------------------------------- erasure

  /** What the file keeps: an absent name is an empty one, a line that is not
      positive is line 0. */
  function EraseLine(line: int): int {
    if line > 0 then line else 0
  }

  function EraseName(s: Option<string>): Option<string> {
    Some(s.GetOr(""))
  }

  function EraseStmt(s: Stmt): Stmt {
    Stmt(EraseLine(s.line),
         match s.kind
         case Block(stmts) => Block(EraseStmts(stmts, 0))
         case If(cond, thn, els) =>
           If(cond, EraseStmt(thn), if els.Some? then Some(EraseStmt(els.value)) else None)
         case While(cond, body) => While(cond, EraseStmt(body))
         case DoWhile(body, cond) => DoWhile(EraseStmt(body), cond)
         case For(inits, test, posts, body) => For(inits, test, posts, EraseStmt(body))
         case Jump(target) => Jump(EraseName(target))
         case Label(target) => Label(EraseName(target))
         case StateChange(target) => StateChange(EraseName(target))
         case ExprStmt(e) => ExprStmt(e)
         case Decl(ty, name, init) => Decl(ty, name, init)
         case Return(result) => Return(result)
         case Empty => Empty)
  }

  function EraseStmts(ss: seq<Stmt>, k: nat): (r: seq<Stmt>)
    requires k <= |ss|
    ensures |r| == |ss| - k
    decreases ss, |ss| - k
  {
    if k == |ss| then [] else [EraseStmt(ss[k])] + EraseStmts(ss, k + 1)
  }

  function EraseFunc(f: Func): Func {
    f.(body := EraseStmt(f.body), line := EraseLine(f.line))
  }

  function EraseEvent(e: Event): Event {
    e.(body := EraseStmt(e.body), line := EraseLine(e.line))
  }

  function EraseEvents(es: seq<Event>, k: nat): (r: seq<Event>)
    requires k <= |es|
    ensures |r| == |es| - k
    decreases |es| - k
  {
    if k == |es| then [] else [EraseEvent(es[k])] + EraseEvents(es, k + 1)
  }

  function EraseState(s: State): State {
    s.(events := EraseEvents(s.events, 0), line := EraseLine(s.line))
  }

  function EraseFuncs(fs: seq<Func>, k: nat): (r: seq<Func>)
    requires k <= |fs|
    ensures |r| == |fs| - k
    decreases |fs| - k
  {
    if k == |fs| then [] else [EraseFunc(fs[k])] + EraseFuncs(fs, k + 1)
  }

  function EraseStates(ss: seq<State>, k: nat): (r: seq<State>)
    requires k <= |ss|
    ensures |r| == |ss| - k
    decreases |ss| - k
  {
    if k == |ss| then [] else [EraseState(ss[k])] + EraseStates(ss, k + 1)
  }

  function Erase(sc: Script): Script {
    Script(sc.globals, EraseFuncs(sc.funcs, 0), EraseStates(sc.states, 0))
  }

  // ------------------------------------------------------------- the pool

  /** Every name has a place in the pool. */
  ghost predicate Covers(pool: seq<string>, names: seq<string>) {
    forall s :: s in names ==> s in pool
  }

  /** The pool lists each name once, in the order of its first occurrence. */
  ghost predicate FirstOccurrences(pool: seq<string>, names: seq<string>) {
    && NoDup(pool)
    && (forall s :: s in pool <==> s in names)
    && (forall i, j :: 0 <= i < j < |pool| ==> IndexOf(names, pool[i]) < IndexOf(names, pool[j]))
  }

  lemma {:induction false} IndexFromExtend(names: seq<string>, x: string, s: string, i: nat)
    requires i <= |names|
    requires IndexFrom(names, s, i) < |names| || s == x
    ensures IndexFrom(names + [x], s, i) == IndexFrom(names, s, i)
    decreases |names| - i
  {
    if i < |names| && names[i] != s { IndexFromExtend(names, x, s, i + 1); }
  }

  /** Interning a list of names yields their first occurrences. */
  lemma {:induction false} InternAllFirstOccurrences(names: seq<string>)
    ensures FirstOccurrences(InternAll([], names), names)
  {
    if names != [] {
      var init, x := names[..|names| - 1], names[|names| - 1];
      InternAllFirstOccurrences(init);
      var before, pool := InternAll([], init), InternAll([], names);
      assert names == init + [x];
      forall i, j | 0 <= i < j < |pool|
        ensures IndexOf(names, pool[i]) < IndexOf(names, pool[j])
      {
        assert pool[i] in before && pool[i] in init;
        IndexFromExtend(init, x, pool[i], 0);
        if j < |before| {
          assert pool[j] in before && pool[j] in init;
        }
        IndexFromExtend(init, x, pool[j], 0);
      }
    }
  }

  lemma {:induction false} InternAllConcat(pool: seq<string>, a: seq<string>, b: seq<string>)
    ensures InternAll(pool, a + b) == InternAll(InternAll(pool, a), b)
  {
    if b == [] {
      assert a + b == a;
    } else {
      assert (a + b)[..|a + b| - 1] == a + b[..|b| - 1];
      InternAllConcat(pool, a, b[..|b| - 1]);
    }
  }

  // ------------------------------------------------------------- scalars

  function Pow256(n: nat): nat {
    if n == 0 then 1 else 256 * Pow256(n - 1)
  }

  lemma {:induction false} LittleEndianInverse(bs: seq<Byte>, i: nat, n: nat, u: nat)
    requires At(bs, i, LittleEndian(n, u)) && u < Pow256(n)
    ensures FromLittleEndian(bs, i, n) == u
    decreases n
  {
    if n > 0 {
      AtSplit(bs, i, [u % 256], LittleEndian(n - 1, u / 256));
      AtElement(bs, i, [u % 256], 0);
      LittleEndianInverse(bs, i + 1, n - 1, u / 256);
    }
  }

  lemma ReadU32Bytes(bs: seq<Byte>, i: nat, v: nat)
    requires At(bs, i, U32(v)) && v < TWO_32
    ensures ReadU32(bs, i) == Got(v, i + 4)
  {
    assert Pow256(4) == 256 * (256 * (256 * 256));
    LittleEndianInverse(bs, i, 4, v);
  }

  lemma ReadU64Bytes(bs: seq<Byte>, i: nat, v: Bits64)
    requires At(bs, i, LittleEndian(8, v))
    ensures ReadU64(bs, i) == Got(v, i + 8)
  {
    assert Pow256(4) == 256 * (256 * (256 * 256));
    assert Pow256(8) == 256 * (256 * (256 * (256 * Pow256(4))));
    LittleEndianInverse(bs, i, 8, v);
  }

  lemma {:induction false} FromLittleEndianBound(bs: seq<Byte>, i: nat, n: nat)
    requires i + n <= |bs|
    ensures FromLittleEndian(bs, i, n) < Pow256(n)
    decreases n
  {
    if n > 0 { FromLittleEndianBound(bs, i + 1, n - 1); }
  }

  lemma ReadU32Bound(bs: seq<Byte>, i: nat)
    ensures ReadU32(bs, i).Got? ==> ReadU32(bs, i).value < TWO_32
  {
    assert Pow256(4) == 256 * (256 * (256 * 256));
    if i + 4 <= |bs| { FromLittleEndianBound(bs, i, 4); }
  }

  lemma ReadNameBytes(bs: seq<Byte>, i: nat, pool: seq<string>, s: string)
    requires At(bs, i, NameBytes(pool, s)) && s in pool && |pool| < TWO_32
    ensures ReadName(bs, i, pool) == Got(s, i + 4)
  {
    ReadU32Bytes(bs, i, IndexOf(pool, s));
  }

  lemma ReadTypeBytes(bs: seq<Byte>, i: nat, t: Type)
    requires At(bs, i, [TypeTag(t)])
    ensures ReadType(bs, i) == Got(t, i + 1)
  {
    AtElement(bs, i, [TypeTag(t)], 0);
  }

  lemma ReadOpBytes(bs: seq<Byte>, i: nat, op: Op)
    requires At(bs, i, [OpTag(op)])
    ensures ReadOp(bs, i) == Got(op, i + 1)
  {
    AtElement(bs, i, [OpTag(op)], 0);
  }

  // --------------------------------------------------- decode after encode

  lemma ReadHeaderBytes(bs: seq<Byte>, i: nat, tag: Byte, ty: Type, lv: bool)
    requires At(bs, i, [tag, TypeTag(ty), Flag(lv)])
    ensures ReadByte(bs, i) == Got(tag, i + 1)
    ensures ReadType(bs, i + 1) == Got(ty, i + 2)
    ensures ReadFlag(bs, i + 2) == Got(lv, i + 3)
  {
    AtElement(bs, i, [tag, TypeTag(ty), Flag(lv)], 0);
    AtElement(bs, i, [tag, TypeTag(ty), Flag(lv)], 1);
    AtElement(bs, i, [tag, TypeTag(ty), Flag(lv)], 2);
  }

  /** Decoding an encoded expression returns it and stops just after it. */
  lemma {:induction false} ReadExprBytes(bs: seq<Byte>, i: nat, pool: seq<string>, e: Expr)
    requires |pool| < TWO_32 && Covers(pool, ExprStrings(e)) && ExprMisfits(e) == 0
    requires At(bs, i, ExprBytes(pool, e))
    ensures ReadExpr(bs, i, pool) == Got(e, i + |ExprBytes(pool, e)|)
    decreases e, 3
  {
    AtSplit(bs, i, ExprHeader(e), PayloadBytes(pool, e));
    ReadHeaderBytes(bs, i, ExprTag(e.kind), e.ty, e.lv);
    ReadPayloadBytes(bs, i + 3, pool, e);
  }

  lemma {:induction false} ReadPayloadBytes(bs: seq<Byte>, p: nat, pool: seq<string>, e: Expr)
    requires |pool| < TWO_32 && Covers(pool, ExprStrings(e)) && ExprMisfits(e) == 0
    requires At(bs, p, PayloadBytes(pool, e))
    ensures ReadKind(bs, p, pool, ExprTag(e.kind)) == Got(e.kind, p + |PayloadBytes(pool, e)|)
    decreases e, 2
  {
    match e.kind
    case IntLit(v) => ReadU64Bytes(bs, p, AsUnsigned64(v));
    case FloatLit(f) => ReadU64Bytes(bs, p, f);
    case StringLit(s) => ReadNameBytes(bs, p, pool, s);
    case Ident(name) => ReadNameBytes(bs, p, pool, name);
    case VectorLit(_, _, _) => ReadVectorBytes(bs, p, pool, e);
    case RotLit(_, _, _, _) => ReadRotBytes(bs, p, pool, e);
    case ListLit(_) => ReadListBytes(bs, p, pool, e);
    case Call(_, _) => ReadCallBytes(bs, p, pool, e);
    case Member(_, _) => ReadMemberBytes(bs, p, pool, e);
    case Cast(_, _) => ReadPrefixedBytes(bs, p, pool, e);
    case Unary(_, _) => ReadPrefixedBytes(bs, p, pool, e);
    case Postfix(_, _) => ReadPrefixedBytes(bs, p, pool, e);
    case Binary(_, _, _) => ReadBinaryBytes(bs, p, pool, e);
    case Assign(_, _, _) => ReadBinaryBytes(bs, p, pool, e);
  }

  lemma {:induction false} ReadVectorBytes(bs: seq<Byte>, p: nat, pool: seq<string>, e: Expr)
    requires e.kind.VectorLit?
    requires |pool| < TWO_32 && Covers(pool, ExprStrings(e)) && ExprMisfits(e) == 0
    requires At(bs, p, PayloadBytes(pool, e))
    ensures ReadKind(bs, p, pool, ExprTag(e.kind)) == Got(e.kind, p + |PayloadBytes(pool, e)|)
    decreases e, 1
  {
    hide ReadExpr, ExprBytes;
    var VectorLit(x, y, z) := e.kind;
    AtSplit(bs, p, ExprBytes(pool, x), ExprBytes(pool, y) + ExprBytes(pool, z));
    ReadExprBytes(bs, p, pool, x);
    ReadPairBytes(bs, p + |ExprBytes(pool, x)|, pool, e, y, z);
  }

  lemma {:induction false} ReadRotBytes(bs: seq<Byte>, p: nat, pool: seq<string>, e: Expr)
    requires e.kind.RotLit?
    requires |pool| < TWO_32 && Covers(pool, ExprStrings(e)) && ExprMisfits(e) == 0
    requires At(bs, p, PayloadBytes(pool, e))
    ensures ReadKind(bs, p, pool, ExprTag(e.kind)) == Got(e.kind, p + |PayloadBytes(pool, e)|)
    decreases e, 1
  {
    hide ReadExpr, ExprBytes;
    var RotLit(x, y, z, w) := e.kind;
    AtSplit(bs, p, ExprBytes(pool, x), ExprBytes(pool, y) + (ExprBytes(pool, z) + ExprBytes(pool, w)));
    ReadExprBytes(bs, p, pool, x);
    var p1 := p + |ExprBytes(pool, x)|;
    AtSplit(bs, p1, ExprBytes(pool, y), ExprBytes(pool, z) + ExprBytes(pool, w));
    ReadExprBytes(bs, p1, pool, y);
    ReadPairBytes(bs, p1 + |ExprBytes(pool, y)|, pool, e, z, w);
  }

  lemma {:induction false} ReadListBytes(bs: seq<Byte>, p: nat, pool: seq<string>, e: Expr)
    requires e.kind.ListLit?
    requires |pool| < TWO_32 && Covers(pool, ExprStrings(e)) && ExprMisfits(e) == 0
    requires At(bs, p, PayloadBytes(pool, e))
    ensures ReadKind(bs, p, pool, ExprTag(e.kind)) == Got(e.kind, p + |PayloadBytes(pool, e)|)
    decreases e, 1
  {
    var ListLit(items) := e.kind;
    AtSplit(bs, p, U32(|items|), ExprsBytes(pool, items, 0));
    ReadU32Bytes(bs, p, |items|);
    ReadExprsBytes(bs, p + 4, pool, items, 0);
  }

  lemma {:induction false} ReadCallBytes(bs: seq<Byte>, p: nat, pool: seq<string>, e: Expr)
    requires e.kind.Call?
    requires |pool| < TWO_32 && Covers(pool, ExprStrings(e)) && ExprMisfits(e) == 0
    requires At(bs, p, PayloadBytes(pool, e))
    ensures ReadKind(bs, p, pool, ExprTag(e.kind)) == Got(e.kind, p + |PayloadBytes(pool, e)|)
    decreases e, 1
  {
    var Call(fn, args) := e.kind;
    AtSplit(bs, p, NameBytes(pool, fn), U32(|args|) + ExprsBytes(pool, args, 0));
    AtSplit(bs, p + 4, U32(|args|), ExprsBytes(pool, args, 0));
    ReadNameBytes(bs, p, pool, fn);
    ReadU32Bytes(bs, p + 4, |args|);
    ReadExprsBytes(bs, p + 8, pool, args, 0);
  }

  lemma {:induction false} ReadMemberBytes(bs: seq<Byte>, p: nat, pool: seq<string>, e: Expr)
    requires e.kind.Member?
    requires |pool| < TWO_32 && Covers(pool, ExprStrings(e)) && ExprMisfits(e) == 0
    requires At(bs, p, PayloadBytes(pool, e))
    ensures ReadKind(bs, p, pool, ExprTag(e.kind)) == Got(e.kind, p + |PayloadBytes(pool, e)|)
    decreases e, 1
  {
    var Member(base, m) := e.kind;
    AtSplit(bs, p, ExprBytes(pool, base), [CharByte(m)]);
    ReadExprBytes(bs, p, pool, base);
    AtElement(bs, p + |ExprBytes(pool, base)|, [CharByte(m)], 0);
  }

  lemma {:induction false} ReadPrefixedBytes(bs: seq<Byte>, p: nat, pool: seq<string>, e: Expr)
    requires e.kind.Cast? || e.kind.Unary? || e.kind.Postfix?
    requires |pool| < TWO_32 && Covers(pool, ExprStrings(e)) && ExprMisfits(e) == 0
    requires At(bs, p, PayloadBytes(pool, e))
    ensures ReadKind(bs, p, pool, ExprTag(e.kind)) == Got(e.kind, p + |PayloadBytes(pool, e)|)
    decreases e, 1
  {
    hide At, ReadExpr, ExprBytes, Covers, ReadType, ReadOp;
    var inner := e.kind.inner;
    if e.kind.Cast? {
      AtSplit(bs, p, [TypeTag(e.kind.to)], ExprBytes(pool, inner));
      ReadTypeBytes(bs, p, e.kind.to);
    } else {
      AtSplit(bs, p, [OpTag(e.kind.op)], ExprBytes(pool, inner));
      ReadOpBytes(bs, p, e.kind.op);
    }
    ReadExprBytes(bs, p + 1, pool, inner);
  }

  lemma {:induction false} ReadBinaryBytes(bs: seq<Byte>, p: nat, pool: seq<string>, e: Expr)
    requires e.kind.Binary? || e.kind.Assign?
    requires |pool| < TWO_32 && Covers(pool, ExprStrings(e)) && ExprMisfits(e) == 0
    requires At(bs, p, PayloadBytes(pool, e))
    ensures ReadKind(bs, p, pool, ExprTag(e.kind)) == Got(e.kind, p + |PayloadBytes(pool, e)|)
    decreases e, 1
  {
    hide ReadExpr, ExprBytes;
    var op, l, r := e.kind.op, e.kind.l, e.kind.r;
    AtSplit(bs, p, [OpTag(op)], ExprBytes(pool, l) + ExprBytes(pool, r));
    ReadOpBytes(bs, p, op);
    ReadPairBytes(bs, p + 1, pool, e, l, r);
  }

  /** Two neighbouring children of one node. */
  lemma {:induction false} ReadPairBytes(bs: seq<Byte>, p: nat, pool: seq<string>, parent: Expr, l: Expr, r: Expr)
    requires l < parent && r < parent
    requires |pool| < TWO_32 && ExprMisfits(l) == 0 && ExprMisfits(r) == 0
    requires Covers(pool, ExprStrings(l)) && Covers(pool, ExprStrings(r))
    requires At(bs, p, ExprBytes(pool, l) + ExprBytes(pool, r))
    ensures ReadExpr(bs, p, pool) == Got(l, p + |ExprBytes(pool, l)|)
    ensures ReadExpr(bs, p + |ExprBytes(pool, l)|, pool) ==
            Got(r, p + |ExprBytes(pool, l)| + |ExprBytes(pool, r)|)
    decreases parent, 0
  {
    hide ReadExpr, ExprBytes, ExprMisfits, ExprStrings, Covers, At;
    AtSplit(bs, p, ExprBytes(pool, l), ExprBytes(pool, r));
    ReadExprBytes(bs, p, pool, l);
    ReadExprBytes(bs, p + |ExprBytes(pool, l)|, pool, r);
  }

  lemma {:induction false} ReadExprsBytes(bs: seq<Byte>, i: nat, pool: seq<string>, es: seq<Expr>, k: nat)
    requires k <= |es| && |pool| < TWO_32 && Covers(pool, ExprsStrings(es, k)) && ExprsMisfits(es, k) == 0
    requires At(bs, i, ExprsBytes(pool, es, k))
    ensures ReadExprs(bs, i, pool, |es| - k) == Got(es[k..], i + |ExprsBytes(pool, es, k)|)
    decreases es, |es| - k
  {
    hide At, ReadExpr, ExprBytes, ExprStrings, ExprMisfits;
    if k < |es| {
      AtSplit(bs, i, ExprBytes(pool, es[k]), ExprsBytes(pool, es, k + 1));
      ReadExprBytes(bs, i, pool, es[k]);
      ReadExprsBytes(bs, i + |ExprBytes(pool, es[k])|, pool, es, k + 1);
      assert es[k..] == [es[k]] + es[k + 1..];
    } else {
      assert es[k..] == [];
    }
  }

  lemma ReadOptExprBytes(bs: seq<Byte>, i: nat, pool: seq<string>, e: Option<Expr>)
    requires |pool| < TWO_32 && Covers(pool, OptExprStrings(e)) && OptExprMisfits(e) == 0
    requires At(bs, i, OptExprBytes(pool, e))
    ensures ReadOptExpr(bs, i, pool) == Got(e, i + |OptExprBytes(pool, e)|)
  {
    hide ReadExpr, ExprBytes, ExprStrings, ExprMisfits;
    match e
    case None => AtElement(bs, i, [0], 0);
    case Some(x) =>
      AtSplit(bs, i, [1], ExprBytes(pool, x));
      AtElement(bs, i, [1], 0);
      ReadExprBytes(bs, i + 1, pool, x);
  }

  lemma ReadLineBytes(bs: seq<Byte>, i: nat, line: int)
    requires At(bs, i, LineBytes(line)) && line < TWO_32
    ensures ReadU32(bs, i) == Got(EraseLine(line), i + 4)
  {
    ReadU32Bytes(bs, i, EraseLine(line));
  }

  /** Decoding an encoded statement returns its erasure and stops just after it. */
  lemma {:induction false} ReadStmtBytes(bs: seq<Byte>, i: nat, pool: seq<string>, s: Stmt)
    requires |pool| < TWO_32 && Covers(pool, StmtStrings(s)) && StmtMisfits(s) == 0
    requires At(bs, i, StmtBytes(pool, s))
    ensures ReadStmt(bs, i, pool) == Got(EraseStmt(s), i + |StmtBytes(pool, s)|)
    decreases s, 3
  {
    hide ReadStmtKind, StmtPayloadBytes;
    AtSplit(bs, i, StmtHeader(s), StmtPayloadBytes(pool, s));
    AtSplit(bs, i, [StmtTag(s.kind)], LineBytes(s.line));
    AtElement(bs, i, [StmtTag(s.kind)], 0);
    ReadLineBytes(bs, i + 1, s.line);
    ReadStmtPayloadBytes(bs, i + 5, pool, s);
  }

  lemma {:induction false} ReadStmtPayloadBytes(bs: seq<Byte>, p: nat, pool: seq<string>, s: Stmt)
    requires |pool| < TWO_32 && Covers(pool, StmtStrings(s)) && StmtMisfits(s) == 0
    requires At(bs, p, StmtPayloadBytes(pool, s))
    ensures ReadStmtKind(bs, p, pool, StmtTag(s.kind)) ==
            Got(EraseStmt(s).kind, p + |StmtPayloadBytes(pool, s)|)
    decreases s, 2
  {
    hide ReadStmt, ReadExpr, StmtBytes, ExprBytes, ReadOptExpr, OptExprBytes, ReadName, NameBytes;
    match s.kind
    case Empty =>
    case ExprStmt(e) => ReadExprBytes(bs, p, pool, e);
    case Decl(_, _, _) => ReadDeclBytes(bs, p, pool, s);
    case Block(_) => ReadBlockBytes(bs, p, pool, s);
    case If(_, _, _) => ReadIfBytes(bs, p, pool, s);
    case While(_, _) => ReadLoopBytes(bs, p, pool, s);
    case DoWhile(_, _) => ReadLoopBytes(bs, p, pool, s);
    case For(_, _, _, _) => ReadForBytes(bs, p, pool, s);
    case Return(result) => ReadOptExprBytes(bs, p, pool, result);
    case Jump(target) => ReadNameBytes(bs, p, pool, target.GetOr(""));
    case Label(target) => ReadNameBytes(bs, p, pool, target.GetOr(""));
    case StateChange(target) => ReadNameBytes(bs, p, pool, target.GetOr(""));
  }

  lemma {:induction false} ReadDeclBytes(bs: seq<Byte>, p: nat, pool: seq<string>, s: Stmt)
    requires s.kind.Decl?
    requires |pool| < TWO_32 && Covers(pool, StmtStrings(s)) && StmtMisfits(s) == 0
    requires At(bs, p, StmtPayloadBytes(pool, s))
    ensures ReadStmtKind(bs, p, pool, StmtTag(s.kind)) ==
            Got(EraseStmt(s).kind, p + |StmtPayloadBytes(pool, s)|)
    decreases s, 1
  {
    hide ReadStmt, ReadExpr, StmtBytes, ExprBytes, ExprStrings, ExprMisfits;
    var Decl(ty, name, init) := s.kind;
    AtSplit(bs, p, [TypeTag(ty)], NameBytes(pool, name) + OptExprBytes(pool, init));
    AtSplit(bs, p + 1, NameBytes(pool, name), OptExprBytes(pool, init));
    ReadTypeBytes(bs, p, ty);
    ReadNameBytes(bs, p + 1, pool, name);
    ReadOptExprBytes(bs, p + 5, pool, init);
  }

  lemma {:induction false} ReadBlockBytes(bs: seq<Byte>, p: nat, pool: seq<string>, s: Stmt)
    requires s.kind.Block?
    requires |pool| < TWO_32 && Covers(pool, StmtStrings(s)) && StmtMisfits(s) == 0
    requires At(bs, p, StmtPayloadBytes(pool, s))
    ensures ReadStmtKind(bs, p, pool, StmtTag(s.kind)) ==
            Got(EraseStmt(s).kind, p + |StmtPayloadBytes(pool, s)|)
    decreases s, 1
  {
    hide ReadStmt, ReadExpr, StmtBytes, ExprBytes, ExprStrings, ExprMisfits;
    var Block(stmts) := s.kind;
    AtSplit(bs, p, U32(|stmts|), StmtsBytes(pool, stmts, 0));
    ReadU32Bytes(bs, p, |stmts|);
    ReadStmtsBytes(bs, p + 4, pool, stmts, 0);
  }

  lemma IfFits(pool: seq<string>, s: Stmt)
    requires s.kind.If? && Covers(pool, StmtStrings(s)) && StmtMisfits(s) == 0
    ensures Covers(pool, ExprStrings(s.kind.cond)) && ExprMisfits(s.kind.cond) == 0
    ensures Covers(pool, StmtStrings(s.kind.thn)) && StmtMisfits(s.kind.thn) == 0
    ensures s.kind.els.Some? ==>
              Covers(pool, StmtStrings(s.kind.els.value)) && StmtMisfits(s.kind.els.value) == 0
  {
    hide ExprStrings, ExprMisfits;
  }

  /** The parts of an `if`, read one after the other. */
  lemma IfRead(bs: seq<Byte>, p: nat, pool: seq<string>, cond: Decoded<Expr>, thn: Decoded<Stmt>, els: Decoded<Stmt>)
    requires cond.Got? && thn.Got? && p <= cond.next <= thn.next < |bs|
    requires ReadExpr(bs, p, pool) == cond && ReadStmt(bs, cond.next, pool) == thn
    requires bs[thn.next] == 0 || (bs[thn.next] == 1 && els.Got? && ReadStmt(bs, thn.next + 1, pool) == els)
    ensures ReadStmtKind(bs, p, pool, 3) ==
            if bs[thn.next] == 0 then Got(If(cond.value, thn.value, None), thn.next + 1)
            else Got(If(cond.value, thn.value, Some(els.value)), els.next)
  {
    hide ReadExpr, ReadStmt;
  }

  lemma {:induction false} ReadIfBytes(bs: seq<Byte>, p: nat, pool: seq<string>, s: Stmt)
    requires s.kind.If?
    requires |pool| < TWO_32 && Covers(pool, StmtStrings(s)) && StmtMisfits(s) == 0
    requires At(bs, p, StmtPayloadBytes(pool, s))
    ensures ReadStmtKind(bs, p, pool, StmtTag(s.kind)) ==
            Got(EraseStmt(s).kind, p + |StmtPayloadBytes(pool, s)|)
    decreases s, 1
  {
    hide ReadStmt, ReadExpr, StmtBytes, ExprBytes, ExprStrings, ExprMisfits, At, Covers, ReadStmtKind, StmtMisfits,
         StmtStrings;
    IfFits(pool, s);
    var If(cond, thn, els) := s.kind;
    var one: seq<Byte>, zero: seq<Byte> := [1], [0];
    var tail := if els.Some? then one + StmtBytes(pool, els.value) else zero;
    AtSplit(bs, p, ExprBytes(pool, cond), StmtBytes(pool, thn) + tail);
    ReadExprBytes(bs, p, pool, cond);
    var p1 := p + |ExprBytes(pool, cond)|;
    AtSplit(bs, p1, StmtBytes(pool, thn), tail);
    ReadStmtBytes(bs, p1, pool, thn);
    var p2 := p1 + |StmtBytes(pool, thn)|;
    if els.Some? {
      AtSplit(bs, p2, one, StmtBytes(pool, els.value));
      AtElement(bs, p2, one, 0);
      ReadStmtBytes(bs, p2 + 1, pool, els.value);
      IfRead(bs, p, pool, ReadExpr(bs, p, pool), ReadStmt(bs, p1, pool), ReadStmt(bs, p2 + 1, pool));
    } else {
      AtElement(bs, p2, zero, 0);
      IfRead(bs, p, pool, ReadExpr(bs, p, pool), ReadStmt(bs, p1, pool), Bad);
    }
  }

  lemma {:induction false} ReadLoopBytes(bs: seq<Byte>, p: nat, pool: seq<string>, s: Stmt)
    requires s.kind.While? || s.kind.DoWhile?
    requires |pool| < TWO_32 && Covers(pool, StmtStrings(s)) && StmtMisfits(s) == 0
    requires At(bs, p, StmtPayloadBytes(pool, s))
    ensures ReadStmtKind(bs, p, pool, StmtTag(s.kind)) ==
            Got(EraseStmt(s).kind, p + |StmtPayloadBytes(pool, s)|)
    decreases s, 1
  {
    hide ReadStmt, ReadExpr, StmtBytes, ExprBytes, ExprStrings, ExprMisfits;
    var cond, body := s.kind.cond, s.kind.body;
    if s.kind.While? {
      AtSplit(bs, p, ExprBytes(pool, cond), StmtBytes(pool, body));
      ReadExprBytes(bs, p, pool, cond);
      ReadStmtBytes(bs, p + |ExprBytes(pool, cond)|, pool, body);
    } else {
      AtSplit(bs, p, StmtBytes(pool, body), ExprBytes(pool, cond));
      ReadStmtBytes(bs, p, pool, body);
      ReadExprBytes(bs, p + |StmtBytes(pool, body)|, pool, cond);
    }
  }

  lemma ForParts(pool: seq<string>, s: Stmt)
    requires s.kind.For? && Covers(pool, StmtStrings(s)) && StmtMisfits(s) == 0
    ensures |s.kind.inits| < 256 && |s.kind.posts| < 256
    ensures Covers(pool, ExprsStrings(s.kind.inits, 0)) && ExprsMisfits(s.kind.inits, 0) == 0
    ensures Covers(pool, OptExprStrings(s.kind.test)) && OptExprMisfits(s.kind.test) == 0
    ensures Covers(pool, ExprsStrings(s.kind.posts, 0)) && ExprsMisfits(s.kind.posts, 0) == 0
    ensures Covers(pool, StmtStrings(s.kind.body)) && StmtMisfits(s.kind.body) == 0
  {
    hide ExprsStrings, OptExprStrings, ExprsMisfits, OptExprMisfits;
  }

  /** The parts of a `for`, read one after the other. */
  lemma ForRead(bs: seq<Byte>, p: nat, pool: seq<string>, inits: Decoded<seq<Expr>>, test: Decoded<Option<Expr>>,
                posts: Decoded<seq<Expr>>, body: Decoded<Stmt>)
    requires inits.Got? && test.Got? && posts.Got? && body.Got?
    requires p < inits.next <= test.next < posts.next <= |bs|
    requires ReadExprs(bs, p + 1, pool, bs[p]) == inits && ReadOptExpr(bs, inits.next, pool) == test
    requires ReadExprs(bs, test.next + 1, pool, bs[test.next]) == posts && ReadStmt(bs, posts.next, pool) == body
    ensures ReadStmtKind(bs, p, pool, 6) ==
            Got(For(inits.value, test.value, posts.value, body.value), body.next)
  {
    hide ReadExprs, ReadOptExpr, ReadStmt;
  }

  lemma {:induction false} ReadForBytes(bs: seq<Byte>, p: nat, pool: seq<string>, s: Stmt)
    requires s.kind.For?
    requires |pool| < TWO_32 && Covers(pool, StmtStrings(s)) && StmtMisfits(s) == 0
    requires At(bs, p, StmtPayloadBytes(pool, s))
    ensures ReadStmtKind(bs, p, pool, StmtTag(s.kind)) ==
            Got(EraseStmt(s).kind, p + |StmtPayloadBytes(pool, s)|)
    decreases s, 1
  {
    hide ReadStmt, ReadExpr, StmtBytes, ExprBytes, ExprStrings, ExprMisfits;
    hide ReadExprs, ExprsBytes, ReadOptExpr, OptExprBytes, At, Covers, StmtMisfits, StmtStrings, ReadStmtKind;
    ForParts(pool, s);
    var For(inits, test, posts, body) := s.kind;
    var m: seq<Byte>, n: seq<Byte> := [|inits| % 256], [|posts| % 256];
    var last := ExprsBytes(pool, posts, 0) + StmtBytes(pool, body);
    var third := n + last;
    var second := OptExprBytes(pool, test) + third;
    AtSplit(bs, p, m, ExprsBytes(pool, inits, 0) + second);
    AtElement(bs, p, m, 0);
    AtSplit(bs, p + 1, ExprsBytes(pool, inits, 0), second);
    ReadExprsBytes(bs, p + 1, pool, inits, 0);
    var p2 := p + 1 + |ExprsBytes(pool, inits, 0)|;
    AtSplit(bs, p2, OptExprBytes(pool, test), third);
    ReadOptExprBytes(bs, p2, pool, test);
    var p3 := p2 + |OptExprBytes(pool, test)|;
    AtSplit(bs, p3, n, last);
    AtElement(bs, p3, n, 0);
    AtSplit(bs, p3 + 1, ExprsBytes(pool, posts, 0), StmtBytes(pool, body));
    ReadExprsBytes(bs, p3 + 1, pool, posts, 0);
    var p4 := p3 + 1 + |ExprsBytes(pool, posts, 0)|;
    ReadStmtBytes(bs, p4, pool, body);
    ForRead(bs, p, pool, ReadExprs(bs, p + 1, pool, |inits|), ReadOptExpr(bs, p2, pool),
            ReadExprs(bs, p3 + 1, pool, |posts|), ReadStmt(bs, p4, pool));
  }

  lemma {:induction false} ReadStmtsBytes(bs: seq<Byte>, i: nat, pool: seq<string>, ss: seq<Stmt>, k: nat)
    requires k <= |ss| && |pool| < TWO_32 && Covers(pool, StmtsStrings(ss, k)) && StmtsMisfits(ss, k) == 0
    requires At(bs, i, StmtsBytes(pool, ss, k))
    ensures ReadStmts(bs, i, pool, |ss| - k) == Got(EraseStmts(ss, k), i + |StmtsBytes(pool, ss, k)|)
    decreases ss, |ss| - k
  {
    hide ReadStmt, StmtBytes;
    if k < |ss| {
      AtSplit(bs, i, StmtBytes(pool, ss[k]), StmtsBytes(pool, ss, k + 1));
      ReadStmtBytes(bs, i, pool, ss[k]);
      ReadStmtsBytes(bs, i + |StmtBytes(pool, ss[k])|, pool, ss, k + 1);
    }
  }

  lemma {:induction false} ReadParamsBytes(bs: seq<Byte>, i: nat, pool: seq<string>, ps: seq<Param>, k: nat)
    requires k <= |ps| && |pool| < TWO_32 && Covers(pool, ParamStrings(ps, k))
    requires At(bs, i, ParamsBytes(pool, ps, k))
    ensures ReadParams(bs, i, pool, |ps| - k) == Got(ps[k..], i + |ParamsBytes(pool, ps, k)|)
    decreases |ps| - k
  {
    hide ReadType, ReadName, NameBytes;
    if k < |ps| {
      var rest := NameBytes(pool, ps[k].name) + ParamsBytes(pool, ps, k + 1);
      AtSplit(bs, i, [TypeTag(ps[k].ty)], rest);
      AtSplit(bs, i + 1, NameBytes(pool, ps[k].name), ParamsBytes(pool, ps, k + 1));
      ReadTypeBytes(bs, i, ps[k].ty);
      ReadNameBytes(bs, i + 1, pool, ps[k].name);
      ReadParamsBytes(bs, i + 5, pool, ps, k + 1);
      assert ps[k..] == [ps[k]] + ps[k + 1..];
    } else {
      assert ps[k..] == [];
    }
  }

  lemma {:induction false} ReadGlobalsBytes(bs: seq<Byte>, i: nat, pool: seq<string>, gs: seq<Global>, k: nat)
    requires k <= |gs| && |pool| < TWO_32 && Covers(pool, GlobalStrings(gs, k))
    requires forall j :: k <= j < |gs| ==> OptExprMisfits(gs[j].init) == 0
    requires At(bs, i, GlobalsBytes(pool, gs, k))
    ensures ReadGlobals(bs, i, pool, |gs| - k) == Got(gs[k..], i + |GlobalsBytes(pool, gs, k)|)
    decreases |gs| - k
  {
    hide ReadType, ReadName, NameBytes, ReadOptExpr, OptExprBytes, OptExprStrings, OptExprMisfits;
    if k < |gs| {
      var g := gs[k];
      AtSplit(bs, i, GlobalBytes(pool, g), GlobalsBytes(pool, gs, k + 1));
      AtSplit(bs, i, [TypeTag(g.ty)], NameBytes(pool, g.name) + OptExprBytes(pool, g.init));
      AtSplit(bs, i + 1, NameBytes(pool, g.name), OptExprBytes(pool, g.init));
      ReadTypeBytes(bs, i, g.ty);
      ReadNameBytes(bs, i + 1, pool, g.name);
      ReadOptExprBytes(bs, i + 5, pool, g.init);
      ReadGlobalsBytes(bs, i + |GlobalBytes(pool, g)|, pool, gs, k + 1);
      assert gs[k..] == [g] + gs[k + 1..];
    } else {
      assert gs[k..] == [];
    }
  }

  lemma FuncLayout(pool: seq<string>, f: Func)
    ensures FuncBytes(pool, f) ==
      NameBytes(pool, f.name) +
      (LineBytes(f.line) +
       ([TypeTag(f.ret), Flag(f.hasRet), |f.params| % 256] +
        (ParamsBytes(pool, f.params, 0) + StmtBytes(pool, f.body))))
    ensures |FuncBytes(pool, f)| == 11 + |ParamsBytes(pool, f.params, 0)| + |StmtBytes(pool, f.body)|
  {
    hide ParamsBytes, StmtBytes;
  }

  lemma ReadFuncBytes(bs: seq<Byte>, i: nat, pool: seq<string>, f: Func)
    requires |pool| < TWO_32 && FuncFits(f) && f.name in pool
    requires Covers(pool, ParamStrings(f.params, 0)) && Covers(pool, StmtStrings(f.body))
    requires At(bs, i, FuncBytes(pool, f))
    ensures ReadFunc(bs, i, pool) == Got(EraseFunc(f), i + |FuncBytes(pool, f)|)
  {
    hide ReadType, ReadName, NameBytes, ReadStmt, StmtBytes, StmtStrings, StmtMisfits, EraseStmt, ReadParams,
         ParamsBytes, At, Covers, ReadU32, LineBytes, FuncBytes;
    FuncLayout(pool, f);
    var tail := ParamsBytes(pool, f.params, 0) + StmtBytes(pool, f.body);
    var flags: seq<Byte> := [TypeTag(f.ret), Flag(f.hasRet), |f.params| % 256];
    AtSplit(bs, i, NameBytes(pool, f.name), LineBytes(f.line) + (flags + tail));
    ReadNameBytes(bs, i, pool, f.name);
    AtSplit(bs, i + 4, LineBytes(f.line), flags + tail);
    ReadLineBytes(bs, i + 4, f.line);
    AtSplit(bs, i + 8, flags, tail);
    var ret: seq<Byte>, more: seq<Byte> := [TypeTag(f.ret)], [Flag(f.hasRet), |f.params| % 256];
    assert flags == ret + more;
    AtSplit(bs, i + 8, ret, more);
    ReadTypeBytes(bs, i + 8, f.ret);
    AtElement(bs, i + 8, flags, 1);
    AtElement(bs, i + 8, flags, 2);
    AtSplit(bs, i + 11, ParamsBytes(pool, f.params, 0), StmtBytes(pool, f.body));
    ReadParamsBytes(bs, i + 11, pool, f.params, 0);
    ReadStmtBytes(bs, i + 11 + |ParamsBytes(pool, f.params, 0)|, pool, f.body);
  }

  lemma ReadEventBytes(bs: seq<Byte>, i: nat, pool: seq<string>, e: Event)
    requires |pool| < TWO_32 && EventFits(e) && e.name in pool
    requires Covers(pool, ParamStrings(e.params, 0)) && Covers(pool, StmtStrings(e.body))
    requires At(bs, i, EventBytes(pool, e))
    ensures ReadEvent(bs, i, pool) == Got(EraseEvent(e), i + |EventBytes(pool, e)|)
  {
    hide ReadName, NameBytes, ReadStmt, StmtBytes, StmtStrings, StmtMisfits, EraseStmt, ReadParams, ParamsBytes;
    var tail := ParamsBytes(pool, e.params, 0) + StmtBytes(pool, e.body);
    AtSplit(bs, i, NameBytes(pool, e.name), LineBytes(e.line) + ([|e.params| % 256] + tail));
    ReadNameBytes(bs, i, pool, e.name);
    AtSplit(bs, i + 4, LineBytes(e.line), [|e.params| % 256] + tail);
    ReadLineBytes(bs, i + 4, e.line);
    AtSplit(bs, i + 8, [|e.params| % 256], tail);
    AtElement(bs, i + 8, [|e.params| % 256], 0);
    AtSplit(bs, i + 9, ParamsBytes(pool, e.params, 0), StmtBytes(pool, e.body));
    ReadParamsBytes(bs, i + 9, pool, e.params, 0);
    ReadStmtBytes(bs, i + 9 + |ParamsBytes(pool, e.params, 0)|, pool, e.body);
  }

  lemma {:induction false} ReadEventsBytes(bs: seq<Byte>, i: nat, pool: seq<string>, es: seq<Event>, k: nat)
    requires k <= |es| && |pool| < TWO_32 && Covers(pool, EventStrings(es, k))
    requires forall j :: k <= j < |es| ==> EventFits(es[j])
    requires At(bs, i, EventsBytes(pool, es, k))
    ensures ReadEvents(bs, i, pool, |es| - k) ==
            Got(EraseEvents(es, k), i + |EventsBytes(pool, es, k)|)
    decreases |es| - k
  {
    hide ReadEvent, EventBytes, StmtStrings, StmtMisfits, EraseEvent;
    if k < |es| {
      var e := es[k];
      AtSplit(bs, i, EventBytes(pool, e), EventsBytes(pool, es, k + 1));
      ReadEventBytes(bs, i, pool, e);
      ReadEventsBytes(bs, i + |EventBytes(pool, e)|, pool, es, k + 1);
    }
  }

  lemma {:induction false} ReadFuncsBytes(bs: seq<Byte>, i: nat, pool: seq<string>, fs: seq<Func>, k: nat)
    requires k <= |fs| && |pool| < TWO_32 && Covers(pool, FuncStrings(fs, k))
    requires forall j :: k <= j < |fs| ==> FuncFits(fs[j])
    requires At(bs, i, FuncsBytes(pool, fs, k))
    ensures ReadFuncs(bs, i, pool, |fs| - k) ==
            Got(EraseFuncs(fs, k), i + |FuncsBytes(pool, fs, k)|)
    decreases |fs| - k
  {
    hide ReadFunc, FuncBytes, StmtStrings, StmtMisfits, EraseFunc;
    if k < |fs| {
      var f := fs[k];
      AtSplit(bs, i, FuncBytes(pool, f), FuncsBytes(pool, fs, k + 1));
      ReadFuncBytes(bs, i, pool, f);
      ReadFuncsBytes(bs, i + |FuncBytes(pool, f)|, pool, fs, k + 1);
    }
  }

  lemma ReadStateBytes(bs: seq<Byte>, i: nat, pool: seq<string>, s: State)
    requires |pool| < TWO_32 && StateFits(s) && s.name in pool && Covers(pool, EventStrings(s.events, 0))
    requires At(bs, i, StateBytes(pool, s))
    ensures ReadState(bs, i, pool) == Got(EraseState(s), i + |StateBytes(pool, s)|)
  {
    hide ReadName, NameBytes, ReadEvents, EventsBytes, EventStrings;
    var tail := U32(|s.events|) + EventsBytes(pool, s.events, 0);
    AtSplit(bs, i, NameBytes(pool, s.name), LineBytes(s.line) + ([Flag(s.isDefault)] + tail));
    ReadNameBytes(bs, i, pool, s.name);
    AtSplit(bs, i + 4, LineBytes(s.line), [Flag(s.isDefault)] + tail);
    ReadLineBytes(bs, i + 4, s.line);
    AtSplit(bs, i + 8, [Flag(s.isDefault)], tail);
    AtElement(bs, i + 8, [Flag(s.isDefault)], 0);
    AtSplit(bs, i + 9, U32(|s.events|), EventsBytes(pool, s.events, 0));
    ReadU32Bytes(bs, i + 9, |s.events|);
    ReadEventsBytes(bs, i + 13, pool, s.events, 0);
  }

  lemma {:induction false} ReadStatesBytes(bs: seq<Byte>, i: nat, pool: seq<string>, ss: seq<State>, k: nat)
    requires k <= |ss| && |pool| < TWO_32 && Covers(pool, StateStrings(ss, k))
    requires forall j :: k <= j < |ss| ==> StateFits(ss[j])
    requires At(bs, i, StatesBytes(pool, ss, k))
    ensures ReadStates(bs, i, pool, |ss| - k) ==
            Got(EraseStates(ss, k), i + |StatesBytes(pool, ss, k)|)
    decreases |ss| - k
  {
    hide ReadState, StateBytes, EventStrings, EraseState;
    if k < |ss| {
      var s := ss[k];
      AtSplit(bs, i, StateBytes(pool, s), StatesBytes(pool, ss, k + 1));
      ReadStateBytes(bs, i, pool, s);
      ReadStatesBytes(bs, i + |StateBytes(pool, s)|, pool, ss, k + 1);
    }
  }

  lemma ReadStringBytes(bs: seq<Byte>, i: nat, s: string)
    requires At(bs, i, StringBytes(s)) && IsCString(s)
    ensures ReadString(bs, i, |s|) == Got(s, i + |s|)
  {
    forall k | 0 <= k < |s|
      ensures bs[i + k] as int == s[k] as int
    {
      AtElement(bs, i, StringBytes(s), k);
    }
    forall k | i <= k < i + |s|
      ensures bs[k] != 0
    {
      assert bs[i + (k - i)] as int == s[k - i] as int;
    }
    assert ReadString(bs, i, |s|).value == s;
  }

  lemma {:induction false} ReadPoolBytes(bs: seq<Byte>, i: nat, strs: seq<string>, k: nat)
    requires k <= |strs|
    requires forall j :: k <= j < |strs| ==> |strs[j]| < TWO_32 && IsCString(strs[j])
    requires At(bs, i, PoolBytes(strs, k))
    ensures ReadPool(bs, i, |strs| - k) == Got(strs[k..], i + |PoolBytes(strs, k)|)
    decreases |strs| - k
  {
    hide ReadString, StringBytes, U32, ReadU32;
    if k < |strs| {
      AtSplit(bs, i, U32(|strs[k]|), StringBytes(strs[k]) + PoolBytes(strs, k + 1));
      ReadU32Bytes(bs, i, |strs[k]|);
      AtSplit(bs, i + 4, StringBytes(strs[k]), PoolBytes(strs, k + 1));
      ReadStringBytes(bs, i + 4, strs[k]);
      ReadPoolBytes(bs, i + 4 + |strs[k]|, strs, k + 1);
      assert strs[k..] == [strs[k]] + strs[k + 1..];
    } else {
      assert strs[k..] == [];
    }
  }

  /** The three parts of a script, read one after the other. */
  lemma ScriptRead(bs: seq<Byte>, i: nat, pool: seq<string>, gs: Decoded<seq<Global>>, fs: Decoded<seq<Func>>,
                   ss: Decoded<seq<State>>)
    requires i + 4 <= |bs| && ReadU32(bs, i).Got? && ReadU32(bs, i).next == i + 4
    requires gs.Got? && ReadGlobals(bs, i + 4, pool, ReadU32(bs, i).value) == gs && gs.next + 4 <= |bs|
    requires ReadU32(bs, gs.next).Got? && ReadU32(bs, gs.next).next == gs.next + 4
    requires fs.Got? && ReadFuncs(bs, gs.next + 4, pool, ReadU32(bs, gs.next).value) == fs && fs.next + 4 <= |bs|
    requires ReadU32(bs, fs.next).Got? && ReadU32(bs, fs.next).next == fs.next + 4
    requires ss.Got? && ReadStates(bs, fs.next + 4, pool, ReadU32(bs, fs.next).value) == ss
    ensures ReadScript(bs, i, pool) == Got(Script(gs.value, fs.value, ss.value), ss.next)
  {
    hide ReadU32, ReadGlobals, ReadFuncs, ReadStates;
  }

  lemma ReadScriptBytes(bs: seq<Byte>, i: nat, pool: seq<string>, sc: Script)
    requires |pool| < TWO_32 && Covers(pool, ScriptStrings(sc)) && TreeFits(sc)
    requires At(bs, i, ScriptBytes(pool, sc))
    ensures ReadScript(bs, i, pool) == Got(Erase(sc), i + |ScriptBytes(pool, sc)|)
  {
    hide ReadGlobals, GlobalsBytes, ReadFuncs, FuncsBytes, ReadStates, StatesBytes,
         GlobalStrings, FuncStrings, StateStrings, EraseFuncs, EraseStates, U32, ReadU32, ReadScript, At;
    var g := U32(|sc.globals|) + GlobalsBytes(pool, sc.globals, 0);
    var f := U32(|sc.funcs|) + FuncsBytes(pool, sc.funcs, 0);
    var s := U32(|sc.states|) + StatesBytes(pool, sc.states, 0);
    AtSplit(bs, i, g, f + s);
    AtSplit(bs, i, U32(|sc.globals|), GlobalsBytes(pool, sc.globals, 0));
    ReadU32Bytes(bs, i, |sc.globals|);
    ReadGlobalsBytes(bs, i + 4, pool, sc.globals, 0);
    AtSplit(bs, i + |g|, f, s);
    AtSplit(bs, i + |g|, U32(|sc.funcs|), FuncsBytes(pool, sc.funcs, 0));
    ReadU32Bytes(bs, i + |g|, |sc.funcs|);
    ReadFuncsBytes(bs, i + |g| + 4, pool, sc.funcs, 0);
    AtSplit(bs, i + |g| + |f|, U32(|sc.states|), StatesBytes(pool, sc.states, 0));
    ReadU32Bytes(bs, i + |g| + |f|, |sc.states|);
    ReadStatesBytes(bs, i + |g| + |f| + 4, pool, sc.states, 0);
    ScriptRead(bs, i, pool, ReadGlobals(bs, i + 4, pool, |sc.globals|), ReadFuncs(bs, i + |g| + 4, pool, |sc.funcs|),
               ReadStates(bs, i + |g| + |f| + 4, pool, |sc.states|));
  }

  lemma HeadersDiffer()
    ensures HeaderBytes(true) != HeaderBytes(false)
  {
    assert HeaderBytes(true)[9] == U32(1)[0] == 1;
    assert HeaderBytes(false)[9] == U32(0)[0] == 0;
  }

  /** Decoding `bytes` with anything after it gives the target, the pool and the script, and
      stops where `bytes` ends. */
  predicate ReadsBack(bytes: seq<Byte>, suffix: seq<Byte>, sc: Script, lso: bool) {
    ReadFile(bytes + suffix) == Got(File(lso, PoolOf(sc), Erase(sc)), |bytes|)
  }

  /** The round trip: a file that fits is read back, with whatever follows it left over. */
  lemma ReadFileBytes(sc: Script, lso: bool, suffix: seq<Byte>)
    requires Fits(sc)
    ensures ReadFile(FileBytes(sc, lso) + suffix) ==
            Got(File(lso, PoolOf(sc), Erase(sc)), |FileBytes(sc, lso)|)
  {
    hide ReadPool, PoolBytes, ReadScript, ScriptBytes, PoolOf, HeaderBytes, Erase, U32, ReadU32;
    var pool := PoolOf(sc);
    var bs := FileBytes(sc, lso) + suffix;
    var body := (U32(|pool|) + PoolBytes(pool, 0)) + ScriptBytes(pool, sc);
    assert At(bs, 0, HeaderBytes(lso) + body);
    AtSplit(bs, 0, HeaderBytes(lso), body);
    HeadersDiffer();
    AtSplit(bs, 13, U32(|pool|) + PoolBytes(pool, 0), ScriptBytes(pool, sc));
    AtSplit(bs, 13, U32(|pool|), PoolBytes(pool, 0));
    ReadU32Bytes(bs, 13, |pool|);
    ReadPoolBytes(bs, 17, pool, 0);
    PoolOfCovers(sc);
    ReadScriptBytes(bs, 17 + |PoolBytes(pool, 0)|, pool, sc);
  }

  lemma PoolOfCovers(sc: Script)
    ensures Covers(PoolOf(sc), ScriptStrings(sc))
  {
    InternAllFirstOccurrences(ScriptStrings(sc));
  }
}
