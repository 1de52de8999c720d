/** The type rules as the compiler computes them, error type included. */
module Types {
  import opened Syntax

  predicate IsNumeric(t: Type) {
    t.TInteger? || t.TFloat?
  }

  /** May a value of type `from` be assigned to `to`?  The error type goes everywhere, so
      that one mistake is not reported twice. */
  predicate ImplicitAssignable(to: Type, from: Type) {
    to.TError? || from.TError? || to.TAny? || to == from
    || (to.TFloat? && from.TInteger?)
    || (to.TKey? && from.TString?)
    || (to.TString? && from.TKey?)
  }

  predicate ExplicitCastable(to: Type, from: Type) {
    to.TError? || from.TError? || to == from || to.TString? || to.TList?
    || (match to
        case TInteger => from.TFloat? || from.TString?
        case TFloat => from.TInteger? || from.TString?
        case TKey | TVector | TRotation => from.TString?
        case _ => false)
  }

  function NumericJoin(l: Type, r: Type): Type {
    if !(IsNumeric(l) && IsNumeric(r)) then TError
    else if l.TFloat? || r.TFloat? then TFloat
    else TInteger
  }

  /** The result type of a binary operator, `TError` if it is not defined. */
  function BinopResult(op: Op, l: Type, r: Type): Type {
    if l.TError? || r.TError? then TError
    else if op == OpLAnd || op == OpLOr || IsCompareOp(op) then TInteger
    else match op
      case OpPlus =>
        if l.TList? || r.TList? then TList
        else if l.TString? && r.TString? then TString
        else if l.TVector? && r.TVector? then TVector
        else if l.TRotation? && r.TRotation? then TRotation
        else NumericJoin(l, r)
      case OpMinus =>
        if l.TVector? && r.TVector? then TVector
        else if l.TRotation? && r.TRotation? then TRotation
        else NumericJoin(l, r)
      case OpStar =>
        if l.TVector? && r.TVector? then TFloat
        else if l.TVector? && IsNumeric(r) then TVector
        else if IsNumeric(l) && r.TVector? then TVector
        else if l.TVector? && r.TRotation? then TVector
        else if l.TRotation? && r.TRotation? then TRotation
        else NumericJoin(l, r)
      case OpSlash =>
        if l.TVector? && IsNumeric(r) then TVector
        else if l.TVector? && r.TRotation? then TVector
        else if l.TRotation? && r.TRotation? then TRotation
        else NumericJoin(l, r)
      case OpPercent =>
        if l.TVector? && r.TVector? then TVector
        else if l.TInteger? && r.TInteger? then TInteger
        else TError
      case OpAnd | OpOr | OpXor | OpShl | OpShr =>
        if l.TInteger? && r.TInteger? then TInteger else TError
      case _ => TError
  }

  function MemberType(m: char, base: Type): Type {
    if base.TVector? then
      if m == 'x' || m == 'y' || m == 'z' then TFloat else TError
    else if base.TRotation? then
      if m == 'x' || m == 'y' || m == 'z' || m == 's' then TFloat else TError
    else TError
  }

  predicate CompatibleCompare(a: Type, b: Type) {
    a.TError? || b.TError? || a == b
    || (IsNumeric(a) && IsNumeric(b))
    || (a.TKey? && b.TString?)
    || (a.TString? && b.TKey?)
  }

  predicate ParamAssignable(want: Type, got: Type) {
    want.TAny? || got.TAny? || ImplicitAssignable(want, got)
  }

  /** What an `if` may test. */
  predicate Testable(t: Type) {
    !t.TVoid? && !t.TAny?
  }

  /** The operator behind a compound assignment. */
  function CompoundOp(op: Op): Op {
    match op
    case OpMinusAssign => OpMinus
    case OpStarAssign => OpStar
    case OpSlashAssign => OpSlash
    case OpPercentAssign => OpPercent
    case _ => OpPlus
  }

}
