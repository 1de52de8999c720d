/** The data that every phase of the compiler shares: types, operators, tokens
    and the abstract syntax tree. */
module Syntax {

  datatype Option<+T> = None | Some(value: T) {
    function GetOr(default: T): T {
      match this
      case Some(v) => v
      case None => default
    }
  }

  type Byte = b: int | 0 <= b < 256

  const TWO_63: int := 0x8000_0000_0000_0000
  const TWO_64: int := 0x1_0000_0000_0000_0000

  /** The C type `long long`. */
  type Int64 = i: int | -TWO_63 <= i < TWO_63

  /** A C `double`, known only by its 64-bit pattern. */
  type Bits64 = n: int | 0 <= n < TWO_64

  // ---------------------------------------------------------------- types

  datatype Type =
    | TVoid | TInteger | TFloat | TString | TKey
    | TVector | TRotation | TList | TAny | TError

  // ------------------------------------------------------------ operators

  datatype Op =
    | OpAssign | OpPlusAssign | OpMinusAssign | OpStarAssign | OpSlashAssign | OpPercentAssign
    | OpPlus | OpMinus | OpStar | OpSlash | OpPercent
    | OpAnd | OpOr | OpXor | OpTilde
    | OpLAnd | OpLOr | OpNot
    | OpEq | OpNeq | OpLe | OpGe | OpLt | OpGt
    | OpShl | OpShr
    | OpInc | OpDec

  predicate IsAssignOp(op: Op) {
    op == OpAssign || op == OpPlusAssign || op == OpMinusAssign || op == OpStarAssign || op == OpSlashAssign
    || op == OpPercentAssign
  }

  predicate IsUnaryOp(op: Op) {
    op == OpPlus || op == OpMinus || op == OpNot || op == OpTilde || IsPostfixOp(op)
  }

  predicate IsPostfixOp(op: Op) {
    op == OpInc || op == OpDec
  }

  predicate IsCompareOp(op: Op) {
    op == OpEq || op == OpNeq || op == OpLe || op == OpGe || op == OpLt || op == OpGt
  }

  /** Precedence levels, loosest first.  Level 0 is assignment, 1 to 10 are the
      left-associative binary levels, 11 is prefix and 12 is postfix. */
  const LEVEL_ASSIGN: nat := 0
  const LEVEL_SHIFT: nat := 8
  const LEVEL_UNARY: nat := 11

  /** The level of a binary operator; 0 for an operator that is not binary. */
  function BinaryLevel(op: Op): (k: nat)
    ensures k <= 10
  {
    match op
    case OpLOr => 1
    case OpLAnd => 2
    case OpOr => 3
    case OpXor => 4
    case OpAnd => 5
    case OpEq | OpNeq => 6
    case OpLt | OpGt | OpLe | OpGe => 7
    case OpShl | OpShr => 8
    case OpPlus | OpMinus => 9
    case OpStar | OpSlash | OpPercent => 10
    case _ => 0
  }

  predicate IsBinaryOp(op: Op) {
    BinaryLevel(op) > 0
  }

  // --------------------------------------------------------------- tokens

  /** The type keywords; `quaternion` is a second spelling of `rotation`. */
  datatype TypeKw =
    | KwInteger | KwFloat | KwString | KwKey | KwVector | KwRotation | KwQuaternion | KwList

  function TypeOfKw(kw: TypeKw): Type {
    match kw
    case KwInteger => TInteger
    case KwFloat => TFloat
    case KwString => TString
    case KwKey => TKey
    case KwVector => TVector
    case KwRotation => TRotation
    case KwQuaternion => TRotation
    case KwList => TList
  }

  /** Token kinds with their payload.  The end-of-file token is the end of the sequence. */
  datatype Token =
    | TkIdent(id: string) | TkInt(i: Int64) | TkFloat(f: Bits64) | TkString(s: string)
    | TkType(kw: TypeKw)
    | TkDefault | TkState | TkIf | TkElse | TkWhile | TkDo | TkFor | TkReturn | TkJump | TkPrint
    | TkLParen | TkRParen | TkLBrace | TkRBrace | TkLBrack | TkRBrack
    | TkSemi | TkComma | TkAt | TkColon | TkDot
    | TkOp(op: Op)

  /** A token with the source line it starts on. */
  datatype LToken = LToken(tok: Token, line: int)

  // ---------------------------------------------------------- syntax tree

  /** An expression node: the checker's two annotations and the node proper. */
  datatype Expr = Node(ty: Type, lv: bool, kind: ExprKind)

  datatype ExprKind =
    | IntLit(i: Int64)
    | FloatLit(f: Bits64)
    | StringLit(s: string)
    | Ident(name: string)
    | VectorLit(x: Expr, y: Expr, z: Expr)
    | RotLit(x: Expr, y: Expr, z: Expr, w: Expr)
    | ListLit(items: seq<Expr>)
    | Call(fn: string, args: seq<Expr>)
    | Member(base: Expr, member: char)
    | Cast(to: Type, inner: Expr)
    | Unary(op: Op, inner: Expr)
    | Postfix(op: Op, inner: Expr)
    | Binary(op: Op, l: Expr, r: Expr)
    | Assign(op: Op, l: Expr, r: Expr)

  datatype Stmt = Stmt(line: int, kind: StmtKind)

  /** A name is absent only where the parser recovered from an error. */
  datatype StmtKind =
    | ExprStmt(e: Expr)
    | Decl(ty: Type, name: string, init: Option<Expr>)
    | Block(stmts: seq<Stmt>)
    | If(cond: Expr, thn: Stmt, els: Option<Stmt>)
    | While(cond: Expr, body: Stmt)
    | DoWhile(body: Stmt, cond: Expr)
    | For(inits: seq<Expr>, test: Option<Expr>, posts: seq<Expr>, body: Stmt)
    | Return(result: Option<Expr>)
    | Jump(target: Option<string>)
    | Label(target: Option<string>)
    | StateChange(target: Option<string>)
    | Empty

  datatype Param = Param(ty: Type, name: string)
  datatype Global = Global(ty: Type, name: string, init: Option<Expr>)
  datatype Func = Func(ret: Type, hasRet: bool, name: string, params: seq<Param>, body: Stmt, line: int)
  datatype Event = Event(name: string, params: seq<Param>, body: Stmt, line: int)
  datatype State = State(name: string, isDefault: bool, events: seq<Event>, line: int)
  datatype Script = Script(globals: seq<Global>, funcs: seq<Func>, states: seq<State>)
}
