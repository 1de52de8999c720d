/** What the lexer makes of a text: tokens with their lines, and the errors it reports. */
module LexSpec {
  import opened Syntax
  import opened Chars
  import opened Directives
  import opened LineFidelity
  import Fold

  // ------------------------------------------------------- white space, comments

  /** A position and the line it is on. */
  datatype Spot = Spot(off: nat, line: int)

  predicate AtLineStart(s: string, i: nat)
    requires i <= |s|
  {
    i == 0 || s[i - 1] == '\n'
  }

  predicate IsSpace(c: char) {
    c == ' ' || c == '\t' || c == '\r' || c == '\n'
  }

  function LineStep(c: char): nat {
    if c == '\n' then 1 else 0
  }

  /** The end of a block comment whose inside starts at `i`, and whether it has one. */
  function CommentEnd(s: string, i: nat, line: int): (r: (Spot, bool))
    requires i <= |s|
    ensures i <= r.0.off <= |s|
    decreases |s| - i
  {
    if i == |s| then (Spot(i, line), false)
    else if s[i] == '*' && Have(s, i + 1, '/') then (Spot(i + 2, line), true)
    else CommentEnd(s, i + 1, line + LineStep(s[i]))
  }

  datatype Skipped = Skipped(spot: Spot, errs: nat)

  /** Past white space, comments and markers.  A comment that never ends is an error. */
  function Skip(s: string, i: nat, line: int): (r: Skipped)
    requires i <= |s|
    ensures i <= r.spot.off <= |s|
    decreases |s| - i
  {
    var m := TryMarker(s, i);
    if AtLineStart(s, i) && m.Some? then Skip(s, m.value.2, m.value.0)
    else if i == |s| then Skipped(Spot(i, line), 0)
    else if IsSpace(s[i]) then Skip(s, i + 1, line + LineStep(s[i]))
    else if s[i] == '/' && Have(s, i + 1, '/') then Skip(s, FirstOf(s, i, '\n'), line)
    else if s[i] == '/' && Have(s, i + 1, '*') then
      var (spot, closed) := CommentEnd(s, i + 2, line);
      var r := Skip(s, spot.off, spot.line);
      Skipped(r.spot, r.errs + if closed then 0 else 1)
    else Skipped(Spot(i, line), 0)
  }

  // ---------------------------------------------------------------------- numbers

  function DigitsEnd(s: string, i: nat): (j: nat)
    requires i <= |s|
    ensures i <= j <= |s|
    decreases |s| - i
  {
    if i < |s| && IsDigit(s[i]) then DigitsEnd(s, i + 1) else i
  }

  function HexEnd(s: string, i: nat): (j: nat)
    requires i <= |s|
    ensures i <= j <= |s|
    decreases |s| - i
  {
    if i < |s| && DigitValue(s[i]) < 16 then HexEnd(s, i + 1) else i
  }

  /** A decimal numeral that is too large becomes the largest integer. */
  function Capped(n: nat): Int64 {
    if n >= TWO_63 then TWO_63 - 1 else n
  }

  /** A hexadecimal one is capped at 64 bits, and read as a signed number. */
  function HexCapped(n: nat): Int64 {
    Fold.Wrap(if n >= TWO_64 then TWO_64 - 1 else n)
  }

  /** The conversion of the C library for floating-point numerals. */
  type FloatReader = string -> Bits64

  function FractionEnd(s: string, i: nat): (j: nat)
    requires i <= |s|
    ensures i <= j <= |s|
  {
    if Have(s, i, '.') then DigitsEnd(s, i + 1) else i
  }

  function ExponentEnd(s: string, i: nat): (j: nat)
    requires i <= |s|
    ensures i <= j <= |s|
  {
    if Have(s, i, 'e') || Have(s, i, 'E') then
      DigitsEnd(s, if Have(s, i + 1, '+') || Have(s, i + 1, '-') then i + 2 else i + 1)
    else i
  }

  /** A number: hexadecimal, decimal, or with any of fraction, exponent and suffix a float. */
  function LexNumber(read: FloatReader, s: string, i: nat): (r: (Token, nat))
    requires i < |s| && (IsDigit(s[i]) || (s[i] == '.' && i + 1 < |s| && IsDigit(s[i + 1])))
    ensures i < r.1 <= |s|
  {
    if s[i] == '0' && (Have(s, i + 1, 'x') || Have(s, i + 1, 'X')) then
      var e := HexEnd(s, i + 2);
      (TkInt(HexCapped(NumberAt(s, i + 2, e, 16))), e)
    else
      var d := DigitsEnd(s, i);
      var e := ExponentEnd(s, FractionEnd(s, d));
      var suffix := Have(s, e, 'f') || Have(s, e, 'F');
      if e > d || suffix then (TkFloat(read(s[i..e])), if suffix then e + 1 else e)
      else (TkInt(Capped(NumberAt(s, i, d, 10))), d)
  }

  // ---------------------------------------------------------------------- strings

  datatype Str = Str(text: string, spot: Spot, closed: bool)

  function Put(c: string, r: Str): (q: Str)
    ensures q.spot == r.spot
  {
    r.(text := c + r.text)
  }

  /** What a string literal holds from `i` on, and where it ends.  Raw newlines stay, an
      escaped newline disappears, and an unknown escape keeps its backslash. */
  function LexString(s: string, i: nat, line: int): (r: Str)
    requires i <= |s|
    ensures i <= r.spot.off <= |s|
    decreases |s| - i
  {
    if i == |s| then Str("", Spot(i, line), false)
    else if s[i] == '"' then Str("", Spot(i + 1, line), true)
    else if s[i] != '\\' then Put([s[i]], LexString(s, i + 1, line + LineStep(s[i])))
    else if i + 1 == |s| then Str("", Spot(i + 1, line), false)
    else
      var rest := LexString(s, i + 2, line + LineStep(s[i + 1]));
      match s[i + 1]
      case '"' => Put("\"", rest)
      case '\\' => Put("\\", rest)
      case 'n' => Put("\n", rest)
      case 't' => Put("\t", rest)
      case '\n' => rest
      case _ => Put(['\\', s[i + 1]], rest)
  }

  // ------------------------------------------------------------- words, operators

  /** A keyword's token, or an identifier. */
  function WordToken(w: string): Token {
    if w == "integer" then TkType(KwInteger)
    else if w == "float" then TkType(KwFloat)
    else if w == "string" then TkType(KwString)
    else if w == "key" then TkType(KwKey)
    else if w == "vector" then TkType(KwVector)
    else if w == "rotation" then TkType(KwRotation)
    else if w == "quaternion" then TkType(KwQuaternion)
    else if w == "list" then TkType(KwList)
    else if w == "default" then TkDefault
    else if w == "state" then TkState
    else if w == "if" then TkIf
    else if w == "else" then TkElse
    else if w == "while" then TkWhile
    else if w == "do" then TkDo
    else if w == "for" then TkFor
    else if w == "return" then TkReturn
    else if w == "jump" then TkJump
    else if w == "print" then TkPrint
    else TkIdent(w)
  }

  /** The longest operator or punctuation mark that starts with `c`, then perhaps `d`; the
      blank stands for the end of the text. */
  function Symbol(c: char, d: char): (r: Option<(Token, nat)>)
    ensures r.Some? ==> 1 <= r.value.1 <= 2 && (r.value.1 == 2 ==> d != ' ')
  {
    match c
    case '(' => Some((TkLParen, 1))
    case ')' => Some((TkRParen, 1))
    case '{' => Some((TkLBrace, 1))
    case '}' => Some((TkRBrace, 1))
    case '[' => Some((TkLBrack, 1))
    case ']' => Some((TkRBrack, 1))
    case ';' => Some((TkSemi, 1))
    case ',' => Some((TkComma, 1))
    case '@' => Some((TkAt, 1))
    case ':' => Some((TkColon, 1))
    case '.' => Some((TkDot, 1))
    case '~' => Some((TkOp(OpTilde), 1))
    case '^' => Some((TkOp(OpXor), 1))
    case '+' =>
      Some(if d == '+' then (TkOp(OpInc), 2) else if d == '=' then (TkOp(OpPlusAssign), 2) else (TkOp(OpPlus), 1))
    case '-' =>
      Some(if d == '-' then (TkOp(OpDec), 2) else if d == '=' then (TkOp(OpMinusAssign), 2) else (TkOp(OpMinus), 1))
    case '*' => Some(if d == '=' then (TkOp(OpStarAssign), 2) else (TkOp(OpStar), 1))
    case '/' => Some(if d == '=' then (TkOp(OpSlashAssign), 2) else (TkOp(OpSlash), 1))
    case '%' => Some(if d == '=' then (TkOp(OpPercentAssign), 2) else (TkOp(OpPercent), 1))
    case '&' => Some(if d == '&' then (TkOp(OpLAnd), 2) else (TkOp(OpAnd), 1))
    case '|' => Some(if d == '|' then (TkOp(OpLOr), 2) else (TkOp(OpOr), 1))
    case '!' => Some(if d == '=' then (TkOp(OpNeq), 2) else (TkOp(OpNot), 1))
    case '=' => Some(if d == '=' then (TkOp(OpEq), 2) else (TkOp(OpAssign), 1))
    case '<' =>
      Some(if d == '=' then (TkOp(OpLe), 2) else if d == '<' then (TkOp(OpShl), 2) else (TkOp(OpLt), 1))
    case '>' =>
      Some(if d == '=' then (TkOp(OpGe), 2) else if d == '>' then (TkOp(OpShr), 2) else (TkOp(OpGt), 1))
    case _ => None
  }

  function CharAt(s: string, i: nat): char {
    if i < |s| then s[i] else ' '
  }

  // ----------------------------------------------------------------------- tokens

  /** A token, where it ends, and the errors of its own; no token at a stray character. */
  datatype Lexed = Lexed(tok: Option<Token>, spot: Spot, errs: nat)

  /** The token that starts at `i`. */
  function TokenAt(read: FloatReader, s: string, i: nat, line: int): (r: Lexed)
    requires i < |s|
    ensures i < r.spot.off <= |s|
  {
    if IsIdStart(s[i]) then
      var e := WordEnd(s, i + 1);
      Lexed(Some(WordToken(s[i..e])), Spot(e, line), 0)
    else if IsDigit(s[i]) || (s[i] == '.' && i + 1 < |s| && IsDigit(s[i + 1])) then
      var n := LexNumber(read, s, i);
      Lexed(Some(n.0), Spot(n.1, line), 0)
    else if s[i] == '"' then
      var r := LexString(s, i + 1, line);
      Lexed(Some(TkString(r.text)), r.spot, if r.closed then 0 else 1)
    else
      var t := Symbol(s[i], CharAt(s, i + 1));
      if t.None? then Lexed(None, Spot(i + 1, line), 1)
      else Lexed(Some(t.value.0), Spot(i + t.value.1, line), 0)
  }

  /** All tokens from a position on, with their lines, and all errors. */
  function LexFrom(read: FloatReader, s: string, i: nat, line: int): (r: (seq<LToken>, nat))
    requires i <= |s|
    decreases |s| - i
  {
    var k := Skip(s, i, line);
    if k.spot.off == |s| then ([], k.errs)
    else
      var t := TokenAt(read, s, k.spot.off, k.spot.line);
      var rest := LexFrom(read, s, t.spot.off, t.spot.line);
      ((if t.tok.Some? then [LToken(t.tok.value, k.spot.line)] else []) + rest.0, k.errs + t.errs + rest.1)
  }

  /** The tokens of a text; a byte-order mark at its start is skipped. */
  function LexText(read: FloatReader, s: string): (seq<LToken>, nat) {
    var bom := |s| >= 3 && s[0] as int == 0xEF && s[1] as int == 0xBB && s[2] as int == 0xBF;
    LexFrom(read, s, if bom then 3 else 0, 1)
  }
}
