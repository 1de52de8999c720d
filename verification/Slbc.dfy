/** The SLBC byte format: what a script looks like on disk, and a decoder for it. */
module Slbc {
  import opened Syntax
  import opened Seqs

  // ------------------------------------------------------ the string pool

  /** Position of the first `s` in `pool` at or after `i`, or the length if there is none. */
  function IndexFrom(pool: seq<string>, s: string, i: nat): (r: nat)
    requires i <= |pool|
    ensures i <= r <= |pool|
    ensures r < |pool| ==> pool[r] == s
    ensures forall k :: i <= k < r ==> pool[k] != s
    decreases |pool| - i
  {
    if i == |pool| || pool[i] == s then i else IndexFrom(pool, s, i + 1)
  }

  function IndexOf(pool: seq<string>, s: string): nat {
    IndexFrom(pool, s, 0)
  }

  function Intern(pool: seq<string>, s: string): seq<string> {
    if s in pool then pool else pool + [s]
  }

  function InternAll(pool: seq<string>, names: seq<string>): seq<string> {
    if names == [] then pool
    else Intern(InternAll(pool, names[..|names| - 1]), names[|names| - 1])
  }

  // --------------------------------- the strings of a tree, in pass order

  function ExprStrings(e: Expr): seq<string> {
    match e.kind
    case IntLit(_) => []
    case FloatLit(_) => []
    case StringLit(s) => [s]
    case Ident(name) => [name]
    case VectorLit(x, y, z) => ExprStrings(x) + (ExprStrings(y) + ExprStrings(z))
    case RotLit(x, y, z, w) => ExprStrings(x) + (ExprStrings(y) + (ExprStrings(z) + ExprStrings(w)))
    case ListLit(items) => ExprsStrings(items, 0)
    case Call(fn, args) => [fn] + ExprsStrings(args, 0)
    case Member(base, _) => ExprStrings(base)
    case Cast(_, inner) => ExprStrings(inner)
    case Unary(_, inner) => ExprStrings(inner)
    case Postfix(_, inner) => ExprStrings(inner)
    case Binary(_, l, r) => ExprStrings(l) + ExprStrings(r)
    case Assign(_, l, r) => ExprStrings(l) + ExprStrings(r)
  }

  function ExprsStrings(es: seq<Expr>, k: nat): seq<string>
    requires k <= |es|
    decreases es, |es| - k
  {
    if k == |es| then [] else ExprStrings(es[k]) + ExprsStrings(es, k + 1)
  }

  function OptExprStrings(e: Option<Expr>): seq<string> {
    match e
    case None => []
    case Some(x) => ExprStrings(x)
  }

  function StmtStrings(s: Stmt): seq<string> {
    match s.kind
    case Empty => []
    case ExprStmt(e) => ExprStrings(e)
    case Decl(_, name, init) => [name] + OptExprStrings(init)
    case Block(stmts) => StmtsStrings(stmts, 0)
    case If(cond, thn, els) =>
      ExprStrings(cond) + (StmtStrings(thn) + (if els.Some? then StmtStrings(els.value) else []))
    case While(cond, body) => ExprStrings(cond) + StmtStrings(body)
    case DoWhile(body, cond) => StmtStrings(body) + ExprStrings(cond)
    case For(inits, test, posts, body) =>
      ExprsStrings(inits, 0) + (OptExprStrings(test) + (ExprsStrings(posts, 0) + StmtStrings(body)))
    case Return(result) => OptExprStrings(result)
    case Jump(target) => [target.GetOr("")]
    case Label(target) => [target.GetOr("")]
    case StateChange(target) => [target.GetOr("")]
  }

  function StmtsStrings(ss: seq<Stmt>, k: nat): seq<string>
    requires k <= |ss|
    decreases ss, |ss| - k
  {
    if k == |ss| then [] else StmtStrings(ss[k]) + StmtsStrings(ss, k + 1)
  }

  function ParamStrings(ps: seq<Param>, k: nat): seq<string>
    requires k <= |ps|
    decreases |ps| - k
  {
    if k == |ps| then [] else [ps[k].name] + ParamStrings(ps, k + 1)
  }

  function GlobalStrings(gs: seq<Global>, k: nat): seq<string>
    requires k <= |gs|
    decreases |gs| - k
  {
    if k == |gs| then []
    else [gs[k].name] + (OptExprStrings(gs[k].init) + GlobalStrings(gs, k + 1))
  }

  function FuncStrings(fs: seq<Func>, k: nat): seq<string>
    requires k <= |fs|
    decreases |fs| - k
  {
    if k == |fs| then []
    else [fs[k].name] + (ParamStrings(fs[k].params, 0) + (StmtStrings(fs[k].body) + FuncStrings(fs, k + 1)))
  }

  function EventStrings(es: seq<Event>, k: nat): seq<string>
    requires k <= |es|
    decreases |es| - k
  {
    if k == |es| then []
    else [es[k].name] + (ParamStrings(es[k].params, 0) + (StmtStrings(es[k].body) + EventStrings(es, k + 1)))
  }

  function StateStrings(ss: seq<State>, k: nat): seq<string>
    requires k <= |ss|
    decreases |ss| - k
  {
    if k == |ss| then [] else [ss[k].name] + (EventStrings(ss[k].events, 0) + StateStrings(ss, k + 1))
  }

  function ScriptStrings(sc: Script): seq<string> {
    GlobalStrings(sc.globals, 0) + (FuncStrings(sc.funcs, 0) + StateStrings(sc.states, 0))
  }

  function PoolOf(sc: Script): seq<string> {
    InternAll([], ScriptStrings(sc))
  }

  // ------------------------------------------------------- scalar encoding

  /** The `n` low bytes of `u`, least significant first. */
  function LittleEndian(n: nat, u: nat): (bs: seq<Byte>)
    ensures |bs| == n
  {
    if n == 0 then [] else [u % 256] + LittleEndian(n - 1, u / 256)
  }

  function U32(v: nat): (bs: seq<Byte>)
    ensures |bs| == 4
  {
    LittleEndian(4, v)
  }

  function AsUnsigned64(v: Int64): nat {
    if v < 0 then v + TWO_64 else v
  }

  function AsSigned64(u: nat): Int64
    requires u < TWO_64
  {
    if u < TWO_63 then u else u - TWO_64
  }

  function Flag(b: bool): Byte {
    if b then 1 else 0
  }

  function CharByte(c: char): Byte {
    c as int % 256
  }

  function StringBytes(s: string): (bs: seq<Byte>)
    ensures |bs| == |s|
  {
    seq(|s|, i requires 0 <= i < |s| => CharByte(s[i]))
  }

  function TypeTag(t: Type): Byte {
    match t
    case TVoid => 0 case TInteger => 1 case TFloat => 2 case TString => 3 case TKey => 4
    case TVector => 5 case TRotation => 6 case TList => 7 case TAny => 8 case TError => 9
  }

  /** The token number of an operator. */
  function OpTag(op: Op): Byte {
    match op
    case OpAssign => 36 case OpPlusAssign => 37 case OpMinusAssign => 38
    case OpStarAssign => 39 case OpSlashAssign => 40 case OpPercentAssign => 41
    case OpPlus => 42 case OpMinus => 43 case OpStar => 44 case OpSlash => 45 case OpPercent => 46
    case OpAnd => 47 case OpOr => 48 case OpXor => 49 case OpTilde => 50
    case OpLAnd => 51 case OpLOr => 52 case OpNot => 53
    case OpEq => 54 case OpNeq => 55 case OpLe => 56 case OpGe => 57 case OpLt => 58 case OpGt => 59
    case OpShl => 60 case OpShr => 61 case OpInc => 62 case OpDec => 63
  }

  function ExprTag(k: ExprKind): Byte {
    match k
    case IntLit(_) => 0 case FloatLit(_) => 1 case StringLit(_) => 2 case Ident(_) => 3
    case VectorLit(_, _, _) => 4 case RotLit(_, _, _, _) => 5 case ListLit(_) => 6
    case Call(_, _) => 7 case Member(_, _) => 8 case Cast(_, _) => 9 case Unary(_, _) => 10
    case Postfix(_, _) => 11 case Binary(_, _, _) => 12 case Assign(_, _, _) => 13
  }

  function StmtTag(k: StmtKind): Byte {
    match k
    case ExprStmt(_) => 0 case Decl(_, _, _) => 1 case Block(_) => 2 case If(_, _, _) => 3
    case While(_, _) => 4 case DoWhile(_, _) => 5 case For(_, _, _, _) => 6 case Return(_) => 7
    case Jump(_) => 8 case Label(_) => 9 case StateChange(_) => 10 case Empty => 11
  }

  // --------------------------------------------------------- tree encoding

  function NameBytes(pool: seq<string>, s: string): (bs: seq<Byte>)
    ensures |bs| == 4
  {
    U32(IndexOf(pool, s))
  }

  function ExprHeader(e: Expr): seq<Byte> {
    [ExprTag(e.kind), TypeTag(e.ty), Flag(e.lv)]
  }

  function ExprBytes(pool: seq<string>, e: Expr): seq<Byte>
    decreases e, 1
  {
    ExprHeader(e) + PayloadBytes(pool, e)
  }

  function PayloadBytes(pool: seq<string>, e: Expr): seq<Byte>
    decreases e, 0
  {
    match e.kind
    case IntLit(i) => LittleEndian(8, AsUnsigned64(i))
    case FloatLit(f) => LittleEndian(8, f)
    case StringLit(s) => NameBytes(pool, s)
    case Ident(name) => NameBytes(pool, name)
    case VectorLit(x, y, z) => ExprBytes(pool, x) + (ExprBytes(pool, y) + ExprBytes(pool, z))
    case RotLit(x, y, z, w) =>
      ExprBytes(pool, x) + (ExprBytes(pool, y) + (ExprBytes(pool, z) + ExprBytes(pool, w)))
    case ListLit(items) => U32(|items|) + ExprsBytes(pool, items, 0)
    case Call(fn, args) => NameBytes(pool, fn) + (U32(|args|) + ExprsBytes(pool, args, 0))
    case Member(base, m) => ExprBytes(pool, base) + [CharByte(m)]
    case Cast(to, inner) => [TypeTag(to)] + ExprBytes(pool, inner)
    case Unary(op, inner) => [OpTag(op)] + ExprBytes(pool, inner)
    case Postfix(op, inner) => [OpTag(op)] + ExprBytes(pool, inner)
    case Binary(op, l, r) => [OpTag(op)] + (ExprBytes(pool, l) + ExprBytes(pool, r))
    case Assign(op, l, r) => [OpTag(op)] + (ExprBytes(pool, l) + ExprBytes(pool, r))
  }

  function ExprsBytes(pool: seq<string>, es: seq<Expr>, k: nat): seq<Byte>
    requires k <= |es|
    decreases es, |es| - k
  {
    if k == |es| then [] else ExprBytes(pool, es[k]) + ExprsBytes(pool, es, k + 1)
  }

  function OptExprBytes(pool: seq<string>, e: Option<Expr>): seq<Byte> {
    match e
    case None => [0]
    case Some(x) => [1] + ExprBytes(pool, x)
  }

  function LineBytes(line: int): (bs: seq<Byte>)
    ensures |bs| == 4
  {
    U32(if line > 0 then line else 0)
  }

  function StmtHeader(s: Stmt): seq<Byte> {
    [StmtTag(s.kind)] + LineBytes(s.line)
  }

  function StmtBytes(pool: seq<string>, s: Stmt): seq<Byte>
    decreases s, 1
  {
    StmtHeader(s) + StmtPayloadBytes(pool, s)
  }

  function StmtPayloadBytes(pool: seq<string>, s: Stmt): seq<Byte>
    decreases s, 0
  {
    match s.kind
    case Empty => []
    case ExprStmt(e) => ExprBytes(pool, e)
    case Decl(ty, name, init) => [TypeTag(ty)] + (NameBytes(pool, name) + OptExprBytes(pool, init))
    case Block(stmts) => U32(|stmts|) + StmtsBytes(pool, stmts, 0)
    case If(cond, thn, els) =>
      ExprBytes(pool, cond) + (StmtBytes(pool, thn) +
                               (if els.Some? then [1] + StmtBytes(pool, els.value) else [0]))
    case While(cond, body) => ExprBytes(pool, cond) + StmtBytes(pool, body)
    case DoWhile(body, cond) => StmtBytes(pool, body) + ExprBytes(pool, cond)
    case For(inits, test, posts, body) =>
      [|inits| % 256] + (ExprsBytes(pool, inits, 0) +
                         (OptExprBytes(pool, test) +
                          ([|posts| % 256] + (ExprsBytes(pool, posts, 0) + StmtBytes(pool, body)))))
    case Return(result) => OptExprBytes(pool, result)
    case Jump(target) => NameBytes(pool, target.GetOr(""))
    case Label(target) => NameBytes(pool, target.GetOr(""))
    case StateChange(target) => NameBytes(pool, target.GetOr(""))
  }

  function StmtsBytes(pool: seq<string>, ss: seq<Stmt>, k: nat): seq<Byte>
    requires k <= |ss|
    decreases ss, |ss| - k
  {
    if k == |ss| then [] else StmtBytes(pool, ss[k]) + StmtsBytes(pool, ss, k + 1)
  }

  function ParamsBytes(pool: seq<string>, ps: seq<Param>, k: nat): seq<Byte>
    requires k <= |ps|
    decreases |ps| - k
  {
    if k == |ps| then []
    else [TypeTag(ps[k].ty)] + (NameBytes(pool, ps[k].name) + ParamsBytes(pool, ps, k + 1))
  }

  function GlobalBytes(pool: seq<string>, g: Global): seq<Byte> {
    [TypeTag(g.ty)] + (NameBytes(pool, g.name) + OptExprBytes(pool, g.init))
  }

  function FuncBytes(pool: seq<string>, f: Func): seq<Byte> {
    NameBytes(pool, f.name) +
    (LineBytes(f.line) +
     ([TypeTag(f.ret), Flag(f.hasRet), |f.params| % 256] +
      (ParamsBytes(pool, f.params, 0) + StmtBytes(pool, f.body))))
  }

  function EventBytes(pool: seq<string>, e: Event): seq<Byte> {
    NameBytes(pool, e.name) +
    (LineBytes(e.line) +
     ([|e.params| % 256] + (ParamsBytes(pool, e.params, 0) + StmtBytes(pool, e.body))))
  }

  function EventsBytes(pool: seq<string>, es: seq<Event>, k: nat): seq<Byte>
    requires k <= |es|
    decreases |es| - k
  {
    if k == |es| then [] else EventBytes(pool, es[k]) + EventsBytes(pool, es, k + 1)
  }

  function StateBytes(pool: seq<string>, s: State): seq<Byte> {
    NameBytes(pool, s.name) +
    (LineBytes(s.line) +
     ([Flag(s.isDefault)] + (U32(|s.events|) + EventsBytes(pool, s.events, 0))))
  }

  function GlobalsBytes(pool: seq<string>, gs: seq<Global>, k: nat): seq<Byte>
    requires k <= |gs|
    decreases |gs| - k
  {
    if k == |gs| then [] else GlobalBytes(pool, gs[k]) + GlobalsBytes(pool, gs, k + 1)
  }

  function FuncsBytes(pool: seq<string>, fs: seq<Func>, k: nat): seq<Byte>
    requires k <= |fs|
    decreases |fs| - k
  {
    if k == |fs| then [] else FuncBytes(pool, fs[k]) + FuncsBytes(pool, fs, k + 1)
  }

  function StatesBytes(pool: seq<string>, ss: seq<State>, k: nat): seq<Byte>
    requires k <= |ss|
    decreases |ss| - k
  {
    if k == |ss| then [] else StateBytes(pool, ss[k]) + StatesBytes(pool, ss, k + 1)
  }

  function PoolBytes(strs: seq<string>, k: nat): seq<Byte>
    requires k <= |strs|
    decreases |strs| - k
  {
    if k == |strs| then [] else U32(|strs[k]|) + (StringBytes(strs[k]) + PoolBytes(strs, k + 1))
  }

  /** "SLBC" and a NUL, version 2, and the LSO flag. */
  function HeaderBytes(lso: bool): (bs: seq<Byte>)
    ensures |bs| == 13
  {
    [83, 76, 66, 67, 0] + (U32(2) + U32(if lso then 1 else 0))
  }

  function ScriptBytes(pool: seq<string>, sc: Script): seq<Byte> {
    (U32(|sc.globals|) + GlobalsBytes(pool, sc.globals, 0)) +
    ((U32(|sc.funcs|) + FuncsBytes(pool, sc.funcs, 0)) +
     (U32(|sc.states|) + StatesBytes(pool, sc.states, 0)))
  }

  function FileBytes(sc: Script, lso: bool): seq<Byte> {
    var pool := PoolOf(sc);
    HeaderBytes(lso) + ((U32(|pool|) + PoolBytes(pool, 0)) + ScriptBytes(pool, sc))
  }

  // --------------------------------------------------------------- decoder

  datatype Decoded<+T> = Bad | Got(value: T, next: nat) {
    predicate IsFailure() { Bad? }
    function PropagateFailure<U>(): Decoded<U>
      requires Bad?
    {
      Bad
    }
    function Extract(): (T, nat)
      requires Got?
    {
      (value, next)
    }
  }

  /** The number whose little-endian digits are `bs[i..i + n]`. */
  function FromLittleEndian(bs: seq<Byte>, i: nat, n: nat): nat
    requires i + n <= |bs|
    decreases n
  {
    if n == 0 then 0 else bs[i] + 256 * FromLittleEndian(bs, i + 1, n - 1)
  }

  function ReadByte(bs: seq<Byte>, i: nat): (r: Decoded<Byte>)
    ensures r.Got? ==> r.next == i + 1 <= |bs|
  {
    if i < |bs| then Got(bs[i], i + 1) else Bad
  }

  function ReadU32(bs: seq<Byte>, i: nat): (r: Decoded<nat>)
    ensures r.Got? ==> r.next == i + 4 <= |bs|
  {
    if i + 4 <= |bs| then Got(FromLittleEndian(bs, i, 4), i + 4) else Bad
  }

  function ReadU64(bs: seq<Byte>, i: nat): (r: Decoded<Bits64>)
    ensures r.Got? ==> r.next == i + 8 <= |bs|
  {
    if i + 8 <= |bs| && FromLittleEndian(bs, i, 8) < TWO_64
    then Got(FromLittleEndian(bs, i, 8), i + 8) else Bad
  }

  function ReadFlag(bs: seq<Byte>, i: nat): (r: Decoded<bool>)
    ensures r.Got? ==> r.next == i + 1 <= |bs|
  {
    if i < |bs| && bs[i] <= 1 then Got(bs[i] == 1, i + 1) else Bad
  }

  function ReadName(bs: seq<Byte>, i: nat, pool: seq<string>): (r: Decoded<string>)
    ensures r.Got? ==> r.next == i + 4 <= |bs| && r.value in pool
  {
    var (k, j) :- ReadU32(bs, i);
    if k < |pool| then Got(pool[k], j) else Bad
  }

  function ReadType(bs: seq<Byte>, i: nat): (r: Decoded<Type>)
    ensures r.Got? ==> r.next == i + 1 <= |bs|
  {
    var (b, j) :- ReadByte(bs, i);
    match b
    case 0 => Got(TVoid, j) case 1 => Got(TInteger, j) case 2 => Got(TFloat, j)
    case 3 => Got(TString, j) case 4 => Got(TKey, j) case 5 => Got(TVector, j)
    case 6 => Got(TRotation, j) case 7 => Got(TList, j) case 8 => Got(TAny, j)
    case 9 => Got(TError, j)
    case _ => Bad
  }

  const OPS: seq<Op> :=
    [OpAssign, OpPlusAssign, OpMinusAssign, OpStarAssign, OpSlashAssign, OpPercentAssign,
     OpPlus, OpMinus, OpStar, OpSlash, OpPercent, OpAnd, OpOr, OpXor, OpTilde,
     OpLAnd, OpLOr, OpNot, OpEq, OpNeq, OpLe, OpGe, OpLt, OpGt, OpShl, OpShr, OpInc, OpDec]

  function ReadOp(bs: seq<Byte>, i: nat): (r: Decoded<Op>)
    ensures r.Got? ==> r.next == i + 1 <= |bs|
  {
    var (b, j) :- ReadByte(bs, i);
    if 36 <= b <= 63 then Got(OPS[b - 36], j) else Bad
  }

  function ReadExpr(bs: seq<Byte>, i: nat, pool: seq<string>): (r: Decoded<Expr>)
    ensures r.Got? ==> i < r.next <= |bs|
    decreases |bs| - i, 0
  {
    var (tag, i1) :- ReadByte(bs, i);
    var (ty, i2) :- ReadType(bs, i1);
    var (lv, p) :- ReadFlag(bs, i2);
    var (kind, j) :- ReadKind(bs, p, pool, tag);
    Got(Node(ty, lv, kind), j)
  }

  function ReadKind(bs: seq<Byte>, i: nat, pool: seq<string>, tag: Byte): (r: Decoded<ExprKind>)
    requires i <= |bs|
    ensures r.Got? ==> i <= r.next <= |bs|
    decreases |bs| - i, 2
  {
    match tag
    case 0 => var (u, j) :- ReadU64(bs, i); Got(IntLit(AsSigned64(u)), j)
    case 1 => var (u, j) :- ReadU64(bs, i); Got(FloatLit(u), j)
    case 2 => var (s, j) :- ReadName(bs, i, pool); Got(StringLit(s), j)
    case 3 => var (s, j) :- ReadName(bs, i, pool); Got(Ident(s), j)
    case 4 =>
      var (x, j1) :- ReadExpr(bs, i, pool);
      var (y, j2) :- ReadExpr(bs, j1, pool);
      var (z, j3) :- ReadExpr(bs, j2, pool);
      Got(VectorLit(x, y, z), j3)
    case 5 =>
      var (x, j1) :- ReadExpr(bs, i, pool);
      var (y, j2) :- ReadExpr(bs, j1, pool);
      var (z, j3) :- ReadExpr(bs, j2, pool);
      var (w, j4) :- ReadExpr(bs, j3, pool);
      Got(RotLit(x, y, z, w), j4)
    case 6 =>
      var (n, j1) :- ReadU32(bs, i);
      var (items, j2) :- ReadExprs(bs, j1, pool, n);
      Got(ListLit(items), j2)
    case 7 =>
      var (fn, j1) :- ReadName(bs, i, pool);
      var (n, j2) :- ReadU32(bs, j1);
      var (args, j3) :- ReadExprs(bs, j2, pool, n);
      Got(Call(fn, args), j3)
    case 8 =>
      var (base, j1) :- ReadExpr(bs, i, pool);
      var (m, j2) :- ReadByte(bs, j1);
      Got(Member(base, m as char), j2)
    case 9 =>
      var (to, j1) :- ReadType(bs, i);
      var (inner, j2) :- ReadExpr(bs, j1, pool);
      Got(Cast(to, inner), j2)
    case 10 =>
      var (op, j1) :- ReadOp(bs, i);
      var (inner, j2) :- ReadExpr(bs, j1, pool);
      Got(Unary(op, inner), j2)
    case 11 =>
      var (op, j1) :- ReadOp(bs, i);
      var (inner, j2) :- ReadExpr(bs, j1, pool);
      Got(Postfix(op, inner), j2)
    case 12 =>
      var (op, j1) :- ReadOp(bs, i);
      var (l, j2) :- ReadExpr(bs, j1, pool);
      var (r, j3) :- ReadExpr(bs, j2, pool);
      Got(Binary(op, l, r), j3)
    case 13 =>
      var (op, j1) :- ReadOp(bs, i);
      var (l, j2) :- ReadExpr(bs, j1, pool);
      var (r, j3) :- ReadExpr(bs, j2, pool);
      Got(Assign(op, l, r), j3)
    case _ => Bad
  }

  /** `n` expressions in a row. */
  function ReadExprs(bs: seq<Byte>, i: nat, pool: seq<string>, n: nat): (r: Decoded<seq<Expr>>)
    requires i <= |bs|
    ensures r.Got? ==> i <= r.next <= |bs| && |r.value| == n
    decreases |bs| - i, 1
  {
    if n == 0 then Got([], i)
    else
      var (e, j) :- ReadExpr(bs, i, pool);
      var (es, j2) :- ReadExprs(bs, j, pool, n - 1);
      Got([e] + es, j2)
  }

  function ReadOptExpr(bs: seq<Byte>, i: nat, pool: seq<string>): (r: Decoded<Option<Expr>>)
    ensures r.Got? ==> i < r.next <= |bs|
  {
    var (has, j) :- ReadFlag(bs, i);
    if !has then Got(None, j)
    else
      var (e, j2) :- ReadExpr(bs, j, pool);
      Got(Some(e), j2)
  }

  function ReadStmt(bs: seq<Byte>, i: nat, pool: seq<string>): (r: Decoded<Stmt>)
    ensures r.Got? ==> i < r.next <= |bs|
    decreases |bs| - i, 0
  {
    var (tag, i1) :- ReadByte(bs, i);
    var (line, p) :- ReadU32(bs, i1);
    var (kind, j) :- ReadStmtKind(bs, p, pool, tag);
    Got(Stmt(line, kind), j)
  }

  function ReadStmtKind(bs: seq<Byte>, i: nat, pool: seq<string>, tag: Byte): (r: Decoded<StmtKind>)
    requires i <= |bs|
    ensures r.Got? ==> i <= r.next <= |bs|
    decreases |bs| - i, 2
  {
    match tag
    case 0 => var (e, j) :- ReadExpr(bs, i, pool); Got(ExprStmt(e), j)
    case 1 =>
      var (ty, j1) :- ReadType(bs, i);
      var (name, j2) :- ReadName(bs, j1, pool);
      var (init, j3) :- ReadOptExpr(bs, j2, pool);
      Got(Decl(ty, name, init), j3)
    case 2 =>
      var (n, j1) :- ReadU32(bs, i);
      var (stmts, j2) :- ReadStmts(bs, j1, pool, n);
      Got(Block(stmts), j2)
    case 3 =>
      var (cond, j1) :- ReadExpr(bs, i, pool);
      var (thn, j2) :- ReadStmt(bs, j1, pool);
      var (has, j3) :- ReadFlag(bs, j2);
      if !has then Got(If(cond, thn, None), j3)
      else
        var (els, j4) :- ReadStmt(bs, j3, pool);
        Got(If(cond, thn, Some(els)), j4)
    case 4 =>
      var (cond, j1) :- ReadExpr(bs, i, pool);
      var (body, j2) :- ReadStmt(bs, j1, pool);
      Got(While(cond, body), j2)
    case 5 =>
      var (body, j1) :- ReadStmt(bs, i, pool);
      var (cond, j2) :- ReadExpr(bs, j1, pool);
      Got(DoWhile(body, cond), j2)
    case 6 =>
      var (n, j1) :- ReadByte(bs, i);
      var (inits, j2) :- ReadExprs(bs, j1, pool, n);
      var (test, j3) :- ReadOptExpr(bs, j2, pool);
      var (m, j4) :- ReadByte(bs, j3);
      var (posts, j5) :- ReadExprs(bs, j4, pool, m);
      var (body, j6) :- ReadStmt(bs, j5, pool);
      Got(For(inits, test, posts, body), j6)
    case 7 => var (e, j) :- ReadOptExpr(bs, i, pool); Got(Return(e), j)
    case 8 => var (s, j) :- ReadName(bs, i, pool); Got(Jump(Some(s)), j)
    case 9 => var (s, j) :- ReadName(bs, i, pool); Got(Label(Some(s)), j)
    case 10 => var (s, j) :- ReadName(bs, i, pool); Got(StateChange(Some(s)), j)
    case 11 => Got(Empty, i)
    case _ => Bad
  }

  function ReadStmts(bs: seq<Byte>, i: nat, pool: seq<string>, n: nat): (r: Decoded<seq<Stmt>>)
    requires i <= |bs|
    ensures r.Got? ==> i <= r.next <= |bs| && |r.value| == n
    decreases |bs| - i, 1
  {
    if n == 0 then Got([], i)
    else
      var (s, j) :- ReadStmt(bs, i, pool);
      var (ss, j2) :- ReadStmts(bs, j, pool, n - 1);
      Got([s] + ss, j2)
  }

  function ReadParams(bs: seq<Byte>, i: nat, pool: seq<string>, n: nat): (r: Decoded<seq<Param>>)
    requires i <= |bs|
    ensures r.Got? ==> i <= r.next <= |bs| && |r.value| == n
    decreases n
  {
    if n == 0 then Got([], i)
    else
      var (ty, j1) :- ReadType(bs, i);
      var (name, j2) :- ReadName(bs, j1, pool);
      var (ps, j3) :- ReadParams(bs, j2, pool, n - 1);
      Got([Param(ty, name)] + ps, j3)
  }

  function ReadGlobals(bs: seq<Byte>, i: nat, pool: seq<string>, n: nat): (r: Decoded<seq<Global>>)
    requires i <= |bs|
    ensures r.Got? ==> i <= r.next <= |bs| && |r.value| == n
    decreases n
  {
    if n == 0 then Got([], i)
    else
      var (ty, j1) :- ReadType(bs, i);
      var (name, j2) :- ReadName(bs, j1, pool);
      var (init, j3) :- ReadOptExpr(bs, j2, pool);
      var (gs, j4) :- ReadGlobals(bs, j3, pool, n - 1);
      Got([Global(ty, name, init)] + gs, j4)
  }

  function ReadFunc(bs: seq<Byte>, i: nat, pool: seq<string>): (r: Decoded<Func>)
    ensures r.Got? ==> i < r.next <= |bs|
  {
    var (name, j1) :- ReadName(bs, i, pool);
    var (line, j2) :- ReadU32(bs, j1);
    var (ret, j3) :- ReadType(bs, j2);
    var (hasRet, j4) :- ReadFlag(bs, j3);
    var (n, j5) :- ReadByte(bs, j4);
    var (params, j6) :- ReadParams(bs, j5, pool, n);
    var (body, j7) :- ReadStmt(bs, j6, pool);
    Got(Func(ret, hasRet, name, params, body, line), j7)
  }

  function ReadFuncs(bs: seq<Byte>, i: nat, pool: seq<string>, n: nat): (r: Decoded<seq<Func>>)
    requires i <= |bs|
    ensures r.Got? ==> i <= r.next <= |bs| && |r.value| == n
    decreases n
  {
    if n == 0 then Got([], i)
    else
      var (f, j1) :- ReadFunc(bs, i, pool);
      var (fs, j2) :- ReadFuncs(bs, j1, pool, n - 1);
      Got([f] + fs, j2)
  }

  function ReadEvent(bs: seq<Byte>, i: nat, pool: seq<string>): (r: Decoded<Event>)
    ensures r.Got? ==> i < r.next <= |bs|
  {
    var (name, j1) :- ReadName(bs, i, pool);
    var (line, j2) :- ReadU32(bs, j1);
    var (n, j3) :- ReadByte(bs, j2);
    var (params, j4) :- ReadParams(bs, j3, pool, n);
    var (body, j5) :- ReadStmt(bs, j4, pool);
    Got(Event(name, params, body, line), j5)
  }

  function ReadEvents(bs: seq<Byte>, i: nat, pool: seq<string>, n: nat): (r: Decoded<seq<Event>>)
    requires i <= |bs|
    ensures r.Got? ==> i <= r.next <= |bs| && |r.value| == n
    decreases n
  {
    if n == 0 then Got([], i)
    else
      var (e, j1) :- ReadEvent(bs, i, pool);
      var (es, j2) :- ReadEvents(bs, j1, pool, n - 1);
      Got([e] + es, j2)
  }

  function ReadState(bs: seq<Byte>, i: nat, pool: seq<string>): (r: Decoded<State>)
    ensures r.Got? ==> i < r.next <= |bs|
  {
    var (name, j1) :- ReadName(bs, i, pool);
    var (line, j2) :- ReadU32(bs, j1);
    var (isDefault, j3) :- ReadFlag(bs, j2);
    var (n, j4) :- ReadU32(bs, j3);
    var (events, j5) :- ReadEvents(bs, j4, pool, n);
    Got(State(name, isDefault, events, line), j5)
  }

  function ReadStates(bs: seq<Byte>, i: nat, pool: seq<string>, n: nat): (r: Decoded<seq<State>>)
    requires i <= |bs|
    ensures r.Got? ==> i <= r.next <= |bs| && |r.value| == n
    decreases n
  {
    if n == 0 then Got([], i)
    else
      var (s, j1) :- ReadState(bs, i, pool);
      var (ss, j2) :- ReadStates(bs, j1, pool, n - 1);
      Got([s] + ss, j2)
  }

  /** A character a C string can hold. */
  predicate IsCChar(c: char) {
    0 < c as int < 256
  }

  predicate IsCString(s: string) {
    forall k :: 0 <= k < |s| ==> IsCChar(s[k])
  }

  function ReadString(bs: seq<Byte>, i: nat, n: nat): (r: Decoded<string>)
    ensures r.Got? ==> r.next == i + n <= |bs| && |r.value| == n
  {
    if i + n <= |bs| && (forall k :: i <= k < i + n ==> bs[k] != 0)
    then Got(seq(n, k requires 0 <= k < n => bs[i + k] as char), i + n) else Bad
  }

  function ReadPool(bs: seq<Byte>, i: nat, n: nat): (r: Decoded<seq<string>>)
    requires i <= |bs|
    ensures r.Got? ==> i <= r.next <= |bs| && |r.value| == n
    decreases n
  {
    if n == 0 then Got([], i)
    else
      var (len, j1) :- ReadU32(bs, i);
      var (s, j2) :- ReadString(bs, j1, len);
      var (ss, j3) :- ReadPool(bs, j2, n - 1);
      Got([s] + ss, j3)
  }

  datatype File = File(lso: bool, pool: seq<string>, script: Script)

  function ReadScript(bs: seq<Byte>, i: nat, pool: seq<string>): (r: Decoded<Script>)
    requires i <= |bs|
    ensures r.Got? ==> i <= r.next <= |bs|
  {
    var (ng, j1) :- ReadU32(bs, i);
    var (globals, j2) :- ReadGlobals(bs, j1, pool, ng);
    var (nf, j3) :- ReadU32(bs, j2);
    var (funcs, j4) :- ReadFuncs(bs, j3, pool, nf);
    var (ns, j5) :- ReadU32(bs, j4);
    var (states, j6) :- ReadStates(bs, j5, pool, ns);
    Got(Script(globals, funcs, states), j6)
  }

  /** Reads one SLBC file from the front of `bs`; `next` is where it ends. */
  function ReadFile(bs: seq<Byte>): (r: Decoded<File>)
    ensures r.Got? ==> r.next <= |bs|
  {
    if |bs| < 13 then Bad
    else if bs[..13] != HeaderBytes(false) && bs[..13] != HeaderBytes(true) then Bad
    else
      var (n, j1) :- ReadU32(bs, 13);
      var (pool, j2) :- ReadPool(bs, j1, n);
      var (script, j3) :- ReadScript(bs, j2, pool);
      Got(File(bs[..13] == HeaderBytes(true), pool, script), j3)
  }
}
