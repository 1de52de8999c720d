/** Tokens written out with white space between them lex back to themselves. */
module LexRender {
  import opened Syntax
  import opened Seqs
  import opened Chars
  import opened Directives
  import LineFidelity
  import Fold
  import opened LexSpec

  // -------------------------------------------------------------------- rendering

  function HexDigit(d: nat): (c: char)
    requires d < 16
    ensures DigitValue(c) == d && (d < 10 ==> IsDigit(c))
  {
    if d < 10 then '0' + d as char else 'a' + (d - 10) as char
  }

  /** A number in base 10 or 16. */
  function Numeral(n: nat, base: nat): (s: string)
    requires 2 <= base <= 16
    ensures |s| > 0
    decreases n
  {
    if n < base then [HexDigit(n)] else Numeral(n / base, base) + [HexDigit(n % base)]
  }

  /** A negative integer can only be written in hexadecimal. */
  function IntText(i: Int64): string {
    if i >= 0 then Numeral(i, 10) else "0x" + Numeral(i + TWO_64, 16)
  }

  function EscapeChar(c: char): string {
    if c == '"' then "\\\""
    else if c == '\\' then "\\\\"
    else if c == '\n' then "\\n"
    else if c == '\t' then "\\t"
    else [c]
  }

  function Escape(t: string): string {
    if t == "" then "" else EscapeChar(t[0]) + Escape(t[1..])
  }

  function OpText(op: Op): string {
    match op
    case OpAssign => "="
    case OpPlusAssign => "+="
    case OpMinusAssign => "-="
    case OpStarAssign => "*="
    case OpSlashAssign => "/="
    case OpPercentAssign => "%="
    case OpPlus => "+"
    case OpMinus => "-"
    case OpStar => "*"
    case OpSlash => "/"
    case OpPercent => "%"
    case OpAnd => "&"
    case OpOr => "|"
    case OpXor => "^"
    case OpTilde => "~"
    case OpLAnd => "&&"
    case OpLOr => "||"
    case OpNot => "!"
    case OpEq => "=="
    case OpNeq => "!="
    case OpLe => "<="
    case OpGe => ">="
    case OpLt => "<"
    case OpGt => ">"
    case OpShl => "<<"
    case OpShr => ">>"
    case OpInc => "++"
    case OpDec => "--"
  }

  function KeywordText(t: Token): string {
    match t
    case TkType(KwInteger) => "integer"
    case TkType(KwFloat) => "float"
    case TkType(KwString) => "string"
    case TkType(KwKey) => "key"
    case TkType(KwVector) => "vector"
    case TkType(KwRotation) => "rotation"
    case TkType(KwQuaternion) => "quaternion"
    case TkType(KwList) => "list"
    case TkDefault => "default"
    case TkState => "state"
    case TkIf => "if"
    case TkElse => "else"
    case TkWhile => "while"
    case TkDo => "do"
    case TkFor => "for"
    case TkReturn => "return"
    case TkJump => "jump"
    case _ => "print"
  }

  predicate IsKeyword(t: Token) {
    t.TkType? || t.TkDefault? || t.TkState? || t.TkIf? || t.TkElse? || t.TkWhile? || t.TkDo? || t.TkFor?
    || t.TkReturn? || t.TkJump? || t.TkPrint?
  }

  function MarkText(t: Token): string {
    match t
    case TkOp(op) => OpText(op)
    case TkLParen => "("
    case TkRParen => ")"
    case TkLBrace => "{"
    case TkRBrace => "}"
    case TkLBrack => "["
    case TkRBrack => "]"
    case TkSemi => ";"
    case TkComma => ","
    case TkAt => "@"
    case TkColon => ":"
    case _ => "."
  }

  /** The text of a token; `show` writes floats. */
  function TokenText(show: Bits64 -> string, t: Token): string {
    match t
    case TkIdent(id) => id
    case TkInt(i) => IntText(i)
    case TkFloat(f) => show(f)
    case TkString(s) => "\"" + (Escape(s) + "\"")
    case _ => if IsKeyword(t) then KeywordText(t) else MarkText(t)
  }

  /** Newlines down to the token's line, or a blank. */
  function Gap(n: nat): string {
    if n == 0 then " " else Newlines(n)
  }

  function Newlines(n: nat): (s: string)
    ensures |s| == n
  {
    if n == 0 then "" else "\n" + Newlines(n - 1)
  }

  ghost predicate LinesGrow(ts: seq<LToken>, line: int) {
    ts == [] || (line <= ts[0].line && LinesGrow(ts[1..], ts[0].line))
  }

  ghost function RenderTokens(show: Bits64 -> string, ts: seq<LToken>, line: int): string
    requires LinesGrow(ts, line)
  {
    if ts == [] then ""
    else Gap(ts[0].line - line) + (TokenText(show, ts[0].tok) + RenderTokens(show, ts[1..], ts[0].line))
  }

  // -------------------------------------------------------- tokens that can be written

  /** Digits, a point, digits. */
  predicate FloatNumeral(s: string) {
    exists k :: 0 < k < |s| && s[k] == '.' && forall i :: 0 <= i < |s| && i != k ==> IsDigit(s[i])
  }

  /** Identifiers are words that are no keywords; floats have a numeral that is read back;
      strings have no NUL. */
  predicate TokenOk(read: FloatReader, show: Bits64 -> string, t: Token) {
    match t
    case TkIdent(id) => IsWord(id) && WordToken(id) == t
    case TkFloat(f) => FloatNumeral(show(f)) && read(show(f)) == f
    case TkString(s) => '\0' !in s
    case _ => true
  }

  /** Where a token ends: at the end of the text or before white space. */
  predicate Ends(s: string, e: nat) {
    e == |s| || (e < |s| && IsSpace(s[e]))
  }

  // ------------------------------------------------------------------------ words

  lemma WordLexed(read: FloatReader, s: string, i: nat, w: string, line: int)
    requires At(s, i, w) && IsWord(w) && Ends(s, i + |w|)
    ensures TokenAt(read, s, i, line) == Lexed(Some(WordToken(w)), Spot(i + |w|, line), 0)
  {
    hide WordToken;
    AtElements(s, i, w);
    WordEndAt(s, i + 1, i + |w|);
  }

  lemma KeywordLexed(read: FloatReader, s: string, i: nat, t: Token, line: int)
    requires IsKeyword(t) && At(s, i, KeywordText(t)) && Ends(s, i + |KeywordText(t)|)
    ensures TokenAt(read, s, i, line) == Lexed(Some(t), Spot(i + |KeywordText(t)|, line), 0)
  {
    hide TokenAt, IsWord, WordToken, KeywordText;
    KeywordIsWord(t);
    KeywordToken(t);
    WordLexed(read, s, i, KeywordText(t), line);
  }

  lemma KeywordIsWord(t: Token)
    requires IsKeyword(t)
    ensures IsWord(KeywordText(t))
  {
  }

  lemma TypeKeywordToken(t: Token)
    requires t.TkType?
    ensures WordToken(KeywordText(t)) == t
  {
  }

  lemma OtherKeywordToken(t: Token)
    requires IsKeyword(t) && !t.TkType?
    ensures WordToken(KeywordText(t)) == t
  {
  }

  lemma KeywordToken(t: Token)
    requires IsKeyword(t)
    ensures WordToken(KeywordText(t)) == t
  {
    hide WordToken, KeywordText;
    if t.TkType? { TypeKeywordToken(t); } else { OtherKeywordToken(t); }
  }

  // ---------------------------------------------------------------------- numbers

  lemma {:induction false} NumeralDigits(n: nat, base: nat)
    requires base == 10 || base == 16
    ensures forall k :: 0 <= k < |Numeral(n, base)| ==> DigitValue(Numeral(n, base)[k]) < base
    ensures base == 10 ==> forall k :: 0 <= k < |Numeral(n, base)| ==> IsDigit(Numeral(n, base)[k])
    decreases n
  {
    hide DigitValue;
    if n >= base { NumeralDigits(n / base, base); }
  }

  /** A numeral of more than one digit: all but the last digit, and the last. */
  lemma NumeralGrows(n: nat, base: nat) returns (q: nat, d: nat)
    requires (base == 10 || base == 16) && n >= base
    ensures q < n && d < 16 && q * base + d == n
    ensures Numeral(n, base) == Numeral(q, base) + [HexDigit(d)]
  {
    q, d := n / base, n % base;
    DivMod(n, base);
  }

  lemma NumberGrows(s: string, i: nat, j: nat, base: nat)
    requires i <= j < |s|
    ensures NumberAt(s, i, j + 1, base) == NumberAt(s, i, j, base) * base + DigitValue(s[j])
  {
    hide DigitValue;
  }

  lemma {:induction false} NumeralRead(s: string, i: nat, n: nat, base: nat)
    requires (base == 10 || base == 16) && At(s, i, Numeral(n, base))
    ensures i + |Numeral(n, base)| <= |s|
    ensures NumberAt(s, i, i + |Numeral(n, base)|, base) == n
    decreases n
  {
    hide DigitValue, At;
    if n < base {
      AtElement(s, i, Numeral(n, base), 0);
      assert NumberAt(s, i, i, base) == 0;
    } else {
      hide NumberAt, Numeral;
      var q, d := NumeralGrows(n, base);
      AtSplit(s, i, Numeral(q, base), [HexDigit(d)]);
      NumeralRead(s, i, q, base);
      AtElement(s, i + |Numeral(q, base)|, [HexDigit(d)], 0);
      NumberGrows(s, i, i + |Numeral(q, base)|, base);
    }
  }

  lemma DivMod(n: nat, base: nat)
    requires base == 10 || base == 16
    ensures n / base * base + n % base == n
  {
  }

  lemma {:induction false} DigitsEndAt(s: string, i: nat, j: nat)
    requires i <= j <= |s|
    requires forall k :: i <= k < j ==> IsDigit(s[k])
    requires j < |s| ==> !IsDigit(s[j])
    ensures DigitsEnd(s, i) == j
    decreases j - i
  {
    if i < j { DigitsEndAt(s, i + 1, j); }
  }

  lemma {:induction false} HexEndAt(s: string, i: nat, j: nat)
    requires i <= j <= |s|
    requires forall k :: i <= k < j ==> DigitValue(s[k]) < 16
    requires j < |s| ==> DigitValue(s[j]) == 16
    ensures HexEnd(s, i) == j
    decreases j - i
  {
    hide DigitValue;
    if i < j { HexEndAt(s, i + 1, j); }
  }

  /** A numeral of more than one digit does not start with a zero, and one digit is not a
      hexadecimal prefix. */
  lemma DecimalLexed(read: FloatReader, s: string, i: nat, n: Int64)
    requires n >= 0 && At(s, i, Numeral(n, 10)) && Ends(s, i + |Numeral(n, 10)|)
    ensures i < |s| && IsDigit(s[i])
    ensures LexNumber(read, s, i) == (TkInt(n), i + |Numeral(n, 10)|)
  {
    hide Numeral, NumberAt, HexEnd;
    var t := Numeral(n, 10);
    NumeralDigits(n, 10);
    AtElements(s, i, t);
    AtElement(s, i, t, 0);
    NumeralRead(s, i, n, 10);
    forall k | i <= k < i + |t| ensures IsDigit(s[k]) { AtElement(s, i, t, k - i); }
    DigitsEndAt(s, i, i + |t|);
  }

  lemma HexLexed(read: FloatReader, s: string, i: nat, n: Int64)
    requires n < 0 && At(s, i, "0x" + Numeral(n + TWO_64, 16)) && Ends(s, i + 2 + |Numeral(n + TWO_64, 16)|)
    ensures i < |s| && IsDigit(s[i])
    ensures LexNumber(read, s, i) == (TkInt(n), i + 2 + |Numeral(n + TWO_64, 16)|)
  {
    hide Numeral, NumberAt, HexEnd, DigitsEnd;
    var t := Numeral(n + TWO_64, 16);
    AtSplit(s, i, "0x", t);
    AtElement(s, i, "0x", 0);
    AtElement(s, i, "0x", 1);
    NumeralDigits(n + TWO_64, 16);
    NumeralRead(s, i + 2, n + TWO_64, 16);
    forall k | i + 2 <= k < i + 2 + |t| ensures DigitValue(s[k]) < 16 { AtElement(s, i + 2, t, k - i - 2); }
    HexEndAt(s, i + 2, i + 2 + |t|);
  }

  lemma FloatLexed(read: FloatReader, s: string, i: nat, t: string)
    requires At(s, i, t) && FloatNumeral(t) && Ends(s, i + |t|)
    ensures i < |s| && IsDigit(s[i])
    ensures LexNumber(read, s, i) == (TkFloat(read(t)), i + |t|)
  {
    hide NumberAt, HexEnd;
    var k :| 0 < k < |t| && t[k] == '.' && forall j :: 0 <= j < |t| && j != k ==> IsDigit(t[j]);
    AtElements(s, i, t);
    assert forall j :: i <= j < i + |t| && j != i + k ==> IsDigit(s[j]);
    assert s[i + k] == '.';
    DigitsEndAt(s, i, i + k);
    DigitsEndAt(s, i + k + 1, i + |t|);
  }

  lemma NumberLexed(read: FloatReader, show: Bits64 -> string, s: string, i: nat, t: Token, line: int)
    requires (t.TkInt? || t.TkFloat?) && TokenOk(read, show, t)
    requires At(s, i, TokenText(show, t)) && Ends(s, i + |TokenText(show, t)|)
    ensures i < |s| && TokenAt(read, s, i, line) == Lexed(Some(t), Spot(i + |TokenText(show, t)|, line), 0)
  {
    hide LexNumber, LexString, Symbol, Numeral, FloatNumeral, At;
    match t
    case TkInt(n) => if n >= 0 { DecimalLexed(read, s, i, n); } else { HexLexed(read, s, i, n); }
    case TkFloat(f) => FloatLexed(read, s, i, show(f));
  }

  // ---------------------------------------------------------------------- strings

  /** One character of a string, escaped or not. */
  lemma CharRead(s: string, i: nat, c: char, line: int)
    requires At(s, i, EscapeChar(c))
    ensures i + |EscapeChar(c)| <= |s|
    ensures LexString(s, i, line) == Put([c], LexString(s, i + |EscapeChar(c)|, line))
  {
    hide At;
    var t := EscapeChar(c);
    AtElement(s, i, t, 0);
    if |t| == 2 { AtElement(s, i, t, 1); }
  }

  lemma EscapeStep(t: string)
    requires t != ""
    ensures Escape(t) + "\"" == EscapeChar(t[0]) + (Escape(t[1..]) + "\"")
    ensures |Escape(t)| == |EscapeChar(t[0])| + |Escape(t[1..])|
  {
    hide EscapeChar;
  }

  lemma NothingLeft(s: string, i: nat, line: int)
    requires At(s, i, Escape("") + "\"")
    ensures |Escape("")| == 0 && i + 1 <= |s| && LexString(s, i, line) == Str("", Spot(i + 1, line), true)
  {
    hide At;
    assert Escape("") + "\"" == "\"";
    AtElement(s, i, "\"", 0);
  }

  /** An escaped string is read back, up to and including its closing quote. */
  lemma {:induction false} StringRead(s: string, i: nat, t: string, line: int)
    requires At(s, i, Escape(t) + "\"")
    ensures i + |Escape(t)| + 1 <= |s|
    ensures LexString(s, i, line) == Str(t, Spot(i + |Escape(t)| + 1, line), true)
    decreases |t|
  {
    hide At, Escape, EscapeChar, LexString;
    if t == "" {
      NothingLeft(s, i, line);
    } else {
      EscapeStep(t);
      var c, rest := EscapeChar(t[0]), Escape(t[1..]) + "\"";
      AtSplit(s, i, c, rest);
      CharRead(s, i, t[0], line);
      StringRead(s, i + |c|, t[1..], line);
      assert t == [t[0]] + t[1..];
    }
  }

  lemma StringLexed(read: FloatReader, s: string, i: nat, t: string, line: int)
    requires At(s, i, "\"" + (Escape(t) + "\""))
    ensures i < |s|
    ensures TokenAt(read, s, i, line) == Lexed(Some(TkString(t)), Spot(i + |Escape(t)| + 2, line), 0)
  {
    hide LexNumber, LexString, Symbol, At, Escape;
    AtSplit(s, i, "\"", Escape(t) + "\"");
    AtElement(s, i, "\"", 0);
    StringRead(s, i + 1, t, line);
  }

  // ------------------------------------------------------- operators, punctuation

  predicate IsMark(t: Token) {
    !t.TkIdent? && !t.TkInt? && !t.TkFloat? && !t.TkString? && !IsKeyword(t)
  }

  /** Each mark's text is one or two characters, and is the longest that could be read. */
  lemma MarkSymbol(t: Token, d: char)
    requires IsMark(t) && IsSpace(d)
    ensures var m := MarkText(t);
      && 1 <= |m| <= 2
      && Symbol(m[0], if |m| == 2 then m[1] else d) == Some((t, |m|))
      && !IsIdStart(m[0]) && !IsDigit(m[0]) && m[0] != '"' && m[0] != '#' && !IsSpace(m[0])
      && (m[0] == '/' ==> |m| == 1 || m[1] == '=') && (m[0] == '.' ==> |m| == 1)
  {
  }

  lemma MarkLexed(read: FloatReader, s: string, i: nat, t: Token, line: int)
    requires IsMark(t) && At(s, i, MarkText(t)) && Ends(s, i + |MarkText(t)|)
    ensures i < |s| && TokenAt(read, s, i, line) == Lexed(Some(t), Spot(i + |MarkText(t)|, line), 0)
  {
    hide LexNumber, LexString, Symbol, At, MarkText, IsMark;
    var m := MarkText(t);
    var d := CharAt(s, i + |m|);
    MarkSymbol(t, d);
    AtElement(s, i, m, 0);
    if |m| == 2 { AtElement(s, i, m, 1); }
  }

  // -------------------------------------------------------------- white space

  lemma NotMarker(s: string, i: nat)
    requires i <= |s| && (i < |s| ==> s[i] != '#')
    ensures LineFidelity.TryMarker(s, i).None?
  {
  }

  lemma {:induction false} NewlinesSkipped(s: string, i: nat, n: nat, line: int)
    requires At(s, i, Newlines(n))
    ensures i + n <= |s| && Skip(s, i, line) == Skip(s, i + n, line + n)
    decreases n
  {
    hide At, LineFidelity.TryMarker;
    if n == 0 {
      AtBound(s, i, "");
    } else {
      AtSplit(s, i, "\n", Newlines(n - 1));
      AtElement(s, i, "\n", 0);
      NotMarker(s, i);
      NewlinesSkipped(s, i + 1, n - 1, line + 1);
    }
  }

  lemma AtBound(s: string, i: nat, part: string)
    requires At(s, i, part)
    ensures i + |part| <= |s|
  {
  }

  lemma GapSkipped(s: string, i: nat, n: nat, line: int)
    requires At(s, i, Gap(n))
    ensures i + |Gap(n)| <= |s| && Skip(s, i, line) == Skip(s, i + |Gap(n)|, line + n)
  {
    hide At, LineFidelity.TryMarker;
    if n == 0 {
      AtElement(s, i, " ", 0);
      NotMarker(s, i);
    } else {
      NewlinesSkipped(s, i, n, line);
    }
  }

  lemma GapIsSpace(n: nat)
    ensures |Gap(n)| > 0 && IsSpace(Gap(n)[0])
  {
  }

  lemma SkipStops(s: string, i: nat, line: int)
    requires i < |s| ==> !IsSpace(s[i]) && s[i] != '#'
    requires i + 1 < |s| && s[i] == '/' ==> s[i + 1] != '/' && s[i + 1] != '*'
    requires i <= |s|
    ensures Skip(s, i, line) == Skipped(Spot(i, line), 0)
  {
    hide LineFidelity.TryMarker;
    NotMarker(s, i);
  }

  // ----------------------------------------------------------------- all tokens

  /** A token is read whole, and nothing before it can be taken for white space. */
  lemma TokenRead(read: FloatReader, show: Bits64 -> string, s: string, i: nat, t: Token, line: int)
    requires TokenOk(read, show, t) && At(s, i, TokenText(show, t)) && Ends(s, i + |TokenText(show, t)|)
    ensures i < |s| && TokenAt(read, s, i, line) == Lexed(Some(t), Spot(i + |TokenText(show, t)|, line), 0)
  {
    hide TokenAt, At, Ends, KeywordText, MarkText, Escape, Numeral, IsWord, WordToken, FloatNumeral;
    if t.TkIdent? {
      WordLexed(read, s, i, t.id, line);
      WordStarts(s, i, t.id);
    } else if t.TkInt? || t.TkFloat? {
      NumberLexed(read, show, s, i, t, line);
    } else if t.TkString? {
      StringLexed(read, s, i, t.s, line);
    } else if IsKeyword(t) {
      KeywordLexed(read, s, i, t, line);
      KeywordIsWord(t);
      WordStarts(s, i, KeywordText(t));
    } else {
      MarkLexed(read, s, i, t, line);
    }
  }

  lemma WordStarts(s: string, i: nat, w: string)
    requires At(s, i, w) && IsWord(w)
    ensures i < |s| && IsIdStart(s[i])
  {
    AtElement(s, i, w, 0);
  }

  lemma TokenStarts(read: FloatReader, show: Bits64 -> string, s: string, i: nat, t: Token)
    requires TokenOk(read, show, t) && At(s, i, TokenText(show, t)) && Ends(s, i + |TokenText(show, t)|)
    ensures i < |s| && !IsSpace(s[i]) && s[i] != '#'
    ensures i + 1 < |s| && s[i] == '/' ==> s[i + 1] != '/' && s[i + 1] != '*'
  {
    hide At, KeywordText, MarkText, Escape, Numeral, IsWord, WordToken, FloatNumeral, Symbol;
    if t.TkIdent? {
      WordStarts(s, i, t.id);
    } else if t.TkInt? && t.i >= 0 {
      DecimalLexed(read, s, i, t.i);
    } else if t.TkInt? {
      AtSplit(s, i, "0x", Numeral(t.i + TWO_64, 16));
      AtElement(s, i, "0x", 0);
    } else if t.TkFloat? {
      FloatLexed(read, s, i, show(t.f));
    } else if t.TkString? {
      AtElement(s, i, "\"" + (Escape(t.s) + "\""), 0);
    } else if IsKeyword(t) {
      KeywordIsWord(t);
      WordStarts(s, i, KeywordText(t));
    } else {
      MarkStarts(s, i, t);
    }
  }

  lemma MarkStarts(s: string, i: nat, t: Token)
    requires IsMark(t) && At(s, i, MarkText(t)) && Ends(s, i + |MarkText(t)|)
    ensures i < |s| && !IsSpace(s[i]) && s[i] != '#'
    ensures i + 1 < |s| && s[i] == '/' ==> s[i + 1] != '/' && s[i + 1] != '*'
  {
    hide At, MarkText, Symbol, IsMark;
    var m := MarkText(t);
    MarkSymbol(t, ' ');
    AtElement(s, i, m, 0);
    if |m| == 2 { AtElement(s, i, m, 1); }
  }

  ghost predicate AllOk(read: FloatReader, show: Bits64 -> string, ts: seq<LToken>) {
    forall i :: 0 <= i < |ts| ==> TokenOk(read, show, ts[i].tok)
  }

  lemma AfterToken(show: Bits64 -> string, s: string, e: nat, ts: seq<LToken>, line: int)
    requires LinesGrow(ts, line) && At(s, e, RenderTokens(show, ts, line))
    requires e + |RenderTokens(show, ts, line)| == |s|
    ensures Ends(s, e)
  {
    hide At, Gap, TokenText;
    if ts != [] {
      var gap := Gap(ts[0].line - line);
      GapIsSpace(ts[0].line - line);
      AtSplit(s, e, gap, TokenText(show, ts[0].tok) + RenderTokens(show, ts[1..], ts[0].line));
      AtElement(s, e, gap, 0);
    }
  }

  lemma {:induction false} TokensRead(read: FloatReader, show: Bits64 -> string, s: string, i: nat,
                                      ts: seq<LToken>, line: int)
    requires LinesGrow(ts, line) && AllOk(read, show, ts)
    requires At(s, i, RenderTokens(show, ts, line)) && i + |RenderTokens(show, ts, line)| == |s|
    ensures LexFrom(read, s, i, line) == (ts, 0)
    decreases |ts|
  {
    hide At, Gap, TokenText, Skip, TokenAt, TokenOk, Ends;
    if ts == [] {
      SkipStops(s, i, line);
    } else {
      var t, l, rest := ts[0].tok, ts[0].line, ts[1..];
      var gap, text, tail := Gap(l - line), TokenText(show, t), RenderTokens(show, rest, l);
      AtSplit(s, i, gap, text + tail);
      var j := i + |gap|;
      AtSplit(s, j, text, tail);
      GapSkipped(s, i, l - line, line);
      AfterToken(show, s, j + |text|, rest, l);
      TokenStarts(read, show, s, j, t);
      SkipStops(s, j, l);
      TokenRead(read, show, s, j, t, l);
      TokensRead(read, show, s, j + |text|, rest, l);
      assert ts == [LToken(t, l)] + rest;
    }
  }

  /** A token sequence written with white space between the tokens lexes back to itself, each
      token on its own line, without error. */
  lemma LexUndoesRender(read: FloatReader, show: Bits64 -> string, ts: seq<LToken>)
    requires LinesGrow(ts, 1) && AllOk(read, show, ts)
    ensures LexText(read, RenderTokens(show, ts, 1)) == (ts, 0)
  {
    hide RenderTokens, LexFrom, AllOk;
    var s := RenderTokens(show, ts, 1);
    assert At(s, 0, s);
    TokensRead(read, show, s, 0, ts, 1);
    NoMark(show, ts);
  }

  /** What is rendered does not start with a byte-order mark. */
  lemma NoMark(show: Bits64 -> string, ts: seq<LToken>)
    requires LinesGrow(ts, 1)
    ensures var s := RenderTokens(show, ts, 1); s != "" ==> IsSpace(s[0])
  {
    hide Gap, TokenText;
    if ts != [] { GapIsSpace(ts[0].line - 1); }
  }
}
