/** The texts of the language by their parts, which may touch, and what the lexer makes of them. */
module LexLanguage {
  import opened Syntax
  import opened Chars
  import opened Directives
  import LineFidelity
  import Fold
  import opened LexSpec
  import LexRender
  import IfNumbers

  type Digit = IfNumbers.Digit

  // ------------------------------------------------------------------ the parts

  /** A character of a string literal: as it is, or after a backslash. */
  datatype StringPart = Raw(c: char) | Escaped(c: char)

  /** A part of an exponent: its letter, its sign if it has one, its digits. */
  datatype Exponent = Exponent(letter: char, sign: string, digits: seq<Digit>)

  datatype Part =
    | White(c: char)
    | LineRemark(text: string)
    | BlockRemark(text: string)
    | Word(w: string)
    | Keyword(t: Token)
    | Whole(digits: seq<Digit>)
    | Hexadecimal(prefix: char, capitals: bool, digits: seq<Digit>)
    | Floating(whole: seq<Digit>, fraction: Option<seq<Digit>>, exponent: Option<Exponent>, suffix: string)
    | Quoted(parts: seq<StringPart>)
    | Mark(t: Token)
    | Stray(c: char)

  /** How a text ends: just so, or inside a string literal, perhaps after a backslash, or a comment. */
  datatype Ending = Finished | InString(parts: seq<StringPart>, backslash: bool) | InRemark(text: string)

  function Decimals(ds: seq<Digit>): string {
    IfNumbers.DigitsText(IfNumbers.Decimal, ds)
  }

  predicate AreDecimals(ds: seq<Digit>) {
    forall i :: 0 <= i < |ds| ==> ds[i] < 10
  }

  function PieceText(p: StringPart): string {
    if p.Raw? then [p.c] else ['\\', p.c]
  }

  /** What such a character stands for: an escaped newline for nothing, and one that need not
      be escaped for itself after the backslash. */
  function PieceValue(p: StringPart): string {
    if p.Raw? then [p.c]
    else match p.c
      case '"' => "\""
      case '\\' => "\\"
      case 'n' => "\n"
      case 't' => "\t"
      case '\n' => ""
      case c => ['\\', c]
  }

  function StringText(parts: seq<StringPart>): string {
    if parts == [] then "" else PieceText(parts[0]) + StringText(parts[1..])
  }

  /** What a string literal stands for. */
  function StringValue(parts: seq<StringPart>): string {
    if parts == [] then "" else PieceValue(parts[0]) + StringValue(parts[1..])
  }

  function FractionText(fraction: Option<seq<Digit>>): string {
    if fraction.None? then "" else "." + Decimals(fraction.value)
  }

  function ExponentText(x: Option<Exponent>): string {
    if x.None? then "" else [x.value.letter] + (x.value.sign + Decimals(x.value.digits))
  }

  /** A float without its suffix. */
  function FloatText(p: Part): string
    requires p.Floating?
  {
    Decimals(p.whole) + (FractionText(p.fraction) + ExponentText(p.exponent))
  }

  predicate StringOk(parts: seq<StringPart>) {
    forall i :: 0 <= i < |parts| && parts[i].Raw? ==> parts[i].c != '"' && parts[i].c != '\\'
  }

  predicate NoClose(text: string) {
    forall i :: 0 <= i < |text| - 1 ==> !(text[i] == '*' && text[i + 1] == '/')
  }

  const WORDS: seq<string> :=
    ["integer", "float", "string", "key", "vector", "rotation", "quaternion", "list", "default", "state", "if", "else",
     "while", "do", "for", "return", "jump", "print"]

  /** The parts are what they should be by themselves. */
  predicate PartOk(p: Part) {
    match p
    case White(c) => c in [' ', '\t', '\r', '\n']
    case LineRemark(text) => '\n' !in text
    case BlockRemark(text) => NoClose(text)
    case Word(w) => IsWord(w) && w !in WORDS
    case Keyword(t) => LexRender.IsKeyword(t)
    case Whole(digits) => digits != [] && AreDecimals(digits)
    case Hexadecimal(prefix, _, digits) => prefix in ['x', 'X']
    case Floating(whole, fraction, exponent, suffix) =>
      && AreDecimals(whole) && suffix in ["", "f", "F"]
      && (fraction.Some? ==> AreDecimals(fraction.value))
      && (exponent.Some? ==>
            && exponent.value.letter in ['e', 'E'] && exponent.value.sign in ["", "+", "-"]
            && AreDecimals(exponent.value.digits))
      && (whole != [] || (fraction.Some? && fraction.value != []))
      && (fraction.Some? || exponent.Some? || suffix != "")
    case Quoted(parts) => StringOk(parts)
    case Mark(t) => LexRender.IsMark(t)
    case Stray(c) =>
      && !IsIdStart(c) && !IsDigit(c) && c !in [' ', '\t', '\r', '\n', '"', '#']
      && c !in "(){}[];,@:.~^+-*/%&|!=<>"
  }

  function PartText(p: Part): string {
    match p
    case White(c) => [c]
    case LineRemark(text) => "//" + text
    case BlockRemark(text) => "/*" + (text + "*/")
    case Word(w) => w
    case Keyword(t) => LexRender.KeywordText(t)
    case Whole(digits) => Decimals(digits)
    case Hexadecimal(prefix, capitals, digits) =>
      ['0', prefix] + IfNumbers.DigitsText(IfNumbers.Hex(prefix, capitals), digits)
    case Floating(_, _, _, suffix) => FloatText(p) + suffix
    case Quoted(parts) => "\"" + (StringText(parts) + "\"")
    case Mark(t) => LexRender.MarkText(t)
    case Stray(c) => [c]
  }

  // ------------------------------------------------------------------ where they can stand

  predicate NoneOf(next: string, cs: string) {
    next == "" || next[0] !in cs
  }

  predicate NoDigit(next: string) {
    next == "" || !IsDigit(next[0])
  }

  const PAIRS: seq<string> :=
    ["++", "+=", "--", "-=", "*=", "/=", "%=", "&&", "||", "!=", "==", "<=", "<<", ">=", ">>", "//", "/*"]

  /** The part ends before this text. */
  predicate Stands(p: Part, next: string) {
    match p
    case LineRemark(_) => next == "" || next[0] == '\n'
    case Word(_) => next == "" || !IsIdCont(next[0])
    case Keyword(_) => next == "" || !IsIdCont(next[0])
    case Whole(digits) => NoDigit(next) && NoneOf(next, ".eEfF") && (digits == [0] ==> NoneOf(next, "xX"))
    case Hexadecimal(_, _, _) => next == "" || DigitValue(next[0]) == 16
    case Floating(_, _, exponent, suffix) =>
      suffix == "" ==>
        && NoneOf(next, "fF") && NoDigit(next)
        && (exponent.None? ==> NoneOf(next, "eE"))
        && (exponent.Some? && exponent.value.sign == "" && exponent.value.digits == [] ==> NoneOf(next, "+-"))
    case Mark(t) =>
      var m := LexRender.MarkText(t);
      next != "" && |m| == 1 ==> [m[0], next[0]] !in PAIRS && (m == "." ==> !IsDigit(next[0]))
    case _ => true
  }

  function TextOf(ps: seq<Part>, end: Ending): string {
    if ps == [] then EndText(end) else PartText(ps[0]) + TextOf(ps[1..], end)
  }

  function EndText(end: Ending): string {
    match end
    case Finished => ""
    case InString(parts, backslash) => "\"" + (StringText(parts) + if backslash then "\\" else "")
    case InRemark(text) => "/*" + text
  }

  predicate EndOk(end: Ending) {
    match end
    case Finished => true
    case InString(parts, _) => StringOk(parts)
    case InRemark(text) => NoClose(text)
  }

  predicate AllStand(ps: seq<Part>, end: Ending) {
    ps == [] || (PartOk(ps[0]) && Stands(ps[0], TextOf(ps[1..], end)) && AllStand(ps[1..], end))
  }

  // ------------------------------------------------------------------ what they are

  function LinesIn(text: string): nat {
    if text == "" then 0 else (if text[0] == '\n' then 1 else 0) + LinesIn(text[1..])
  }

  /** The largest integer for a decimal numeral that is too large. */
  function WholeValue(n: nat): Int64 {
    if n > 9223372036854775807 then 9223372036854775807 else n
  }

  /** A hexadecimal numeral is the 64-bit word it writes, all ones if it is too large, with its sign. */
  function HexValue(n: nat): Int64 {
    if n >= 0x1_0000_0000_0000_0000 then -1
    else if n >= 0x8000_0000_0000_0000 then n - 0x1_0000_0000_0000_0000
    else n
  }

  function TokenOf(read: FloatReader, p: Part): Option<Token> {
    match p
    case Word(w) => Some(TkIdent(w))
    case Keyword(t) => Some(t)
    case Whole(digits) => Some(TkInt(WholeValue(IfNumbers.Worth(digits, 10))))
    case Hexadecimal(_, _, digits) => Some(TkInt(HexValue(IfNumbers.Worth(digits, 16))))
    case Floating(_, _, _, _) => Some(TkFloat(read(FloatText(p))))
    case Quoted(parts) => Some(TkString(StringValue(parts)))
    case Mark(t) => Some(t)
    case _ => None
  }

  /** The tokens of the parts, each on the line on which it starts, and of a string that never
      ends; and an error for each stray character and for what never ends. */
  function TokensOf(read: FloatReader, ps: seq<Part>, end: Ending, line: int): seq<LToken> {
    if ps == [] then if end.InString? then [LToken(TkString(StringValue(end.parts)), line)] else []
    else
      var t := TokenOf(read, ps[0]);
      (if t.Some? then [LToken(t.value, line)] else [])
        + TokensOf(read, ps[1..], end, line + LinesIn(PartText(ps[0])))
  }

  function ErrorsOf(ps: seq<Part>, end: Ending): nat {
    if ps == [] then if end.Finished? then 0 else 1
    else (if ps[0].Stray? then 1 else 0) + ErrorsOf(ps[1..], end)
  }

  // ------------------------------------------------------------------ lines

  lemma {:induction false} NoLines(text: string)
    requires '\n' !in text
    ensures LinesIn(text) == 0
    decreases |text|
  {
    if text != "" {
      assert text[0] != '\n';
      NoLines(text[1..]);
    }
  }

  lemma {:induction false} LinesJoin(a: string, b: string)
    ensures LinesIn(a + b) == LinesIn(a) + LinesIn(b)
    decreases |a|
  {
    if a == "" {
      assert a + b == b;
    } else {
      assert (a + b)[1..] == a[1..] + b;
      LinesJoin(a[1..], b);
    }
  }

  // ------------------------------------------------------------------ white space

  lemma SameSkip(read: FloatReader, s: string, i: nat, line: int, e: nat, l: int)
    requires i <= |s| && e <= |s| && Skip(s, i, line) == Skip(s, e, l)
    ensures LexFrom(read, s, i, line) == LexFrom(read, s, e, l)
  {
    hide Skip, TokenAt;
  }

  lemma SpaceSkipped(s: string, i: nat, c: char, rest: string, line: int)
    requires c in [' ', '\t', '\r', '\n'] && i <= |s| && s[i..] == [c] + rest
    ensures i < |s| && Skip(s, i, line) == Skip(s, i + 1, line + LinesIn([c]))
  {
    hide LineFidelity.TryMarker;
    Dropped(s, i, [c], rest);
    LexRender.NotMarker(s, i);
    assert [c][1..] == "";
  }

  lemma LineRemarkSkipped(s: string, i: nat, text: string, rest: string, line: int)
    requires '\n' !in text && i <= |s| && s[i..] == ("//" + text) + rest && (rest == "" || rest[0] == '\n')
    ensures i + 2 + |text| <= |s| && Skip(s, i, line) == Skip(s, i + 2 + |text|, line)
  {
    hide LineFidelity.TryMarker, FirstOf;
    var whole := "//" + text;
    DroppedChars(s, i, whole, rest);
    assert s[i] == whole[0] && s[i + 1] == whole[1];
    LexRender.NotMarker(s, i);
    forall k | i <= k < i + |whole| ensures s[k] != '\n' {
      assert s[k] == whole[k - i];
      if k >= i + 2 { assert s[k] == text[k - i - 2]; }
    }
    FirstOfAt(s, i, i + |whole|, '\n');
  }

  /** Up to the end of the comment, counting lines. */
  lemma {:induction false} CommentClosed(s: string, i: nat, text: string, rest: string, line: int)
    requires NoClose(text) && i <= |s| && s[i..] == text + ("*/" + rest)
    ensures CommentEnd(s, i, line) == (Spot(i + |text| + 2, line + LinesIn(text)), true)
    decreases |text|
  {
    Dropped(s, i, text, "*/" + rest);
    DroppedChars(s, i, text, "*/" + rest);
    if text == "" {
      Dropped(s, i, "*/", rest);
      assert s[i..][1] == '/';
    } else {
      assert s[i] == text[0];
      if |text| > 1 { assert s[i + 1] == text[1]; } else { assert s[i + 1] == '*'; }
      assert s[i + 1..] == text[1..] + ("*/" + rest);
      CommentClosed(s, i + 1, text[1..], rest, line + LineStep(s[i]));
    }
  }

  lemma {:induction false} CommentOpen(s: string, i: nat, text: string, line: int)
    requires NoClose(text) && i <= |s| && s[i..] == text
    ensures CommentEnd(s, i, line) == (Spot(|s|, line + LinesIn(text)), false)
    decreases |text|
  {
    if text != "" {
      assert s[i..][0] == text[0];
      if |text| > 1 { assert s[i..][1] == text[1]; }
      assert s[i + 1..] == text[1..];
      CommentOpen(s, i + 1, text[1..], line + LineStep(s[i]));
    }
  }

  lemma BlockRemarkSkipped(s: string, i: nat, text: string, rest: string, line: int)
    requires NoClose(text) && i <= |s| && s[i..] == ("/*" + (text + "*/")) + rest
    ensures i + |text| + 4 <= |s|
    ensures Skip(s, i, line) == Skip(s, i + |text| + 4, line + LinesIn("/*" + (text + "*/")))
  {
    hide LineFidelity.TryMarker, CommentEnd, NoClose;
    var whole := "/*" + (text + "*/");
    assert s[i..] == "/*" + (text + ("*/" + rest));
    Dropped(s, i, "/*", text + ("*/" + rest));
    assert s[i..][1] == '*';
    LexRender.NotMarker(s, i);
    CommentClosed(s, i + 2, text, rest, line);
    Dropped(s, i + 2, text, "*/" + rest);
    Dropped(s, i + 2 + |text|, "*/", rest);
    LinesJoin("/*", text + "*/");
    LinesJoin(text, "*/");
    NoLines("/*");
    NoLines("*/");
  }

  lemma OpenRemarkSkipped(s: string, i: nat, text: string, line: int)
    requires NoClose(text) && i <= |s| && s[i..] == "/*" + text
    ensures Skip(s, i, line).errs == 1 && Skip(s, i, line).spot.off == |s|
  {
    hide LineFidelity.TryMarker, CommentEnd, NoClose;
    Dropped(s, i, "/*", text);
    assert s[i..][1] == '*';
    LexRender.NotMarker(s, i);
    CommentOpen(s, i + 2, text, line);
    LexRender.SkipStops(s, |s|, line + LinesIn(text));
  }

  // ------------------------------------------------------------------ tokens

  /** A token without errors, from `i` to `e`. */
  predicate Lexes(read: FloatReader, s: string, i: nat, line: int, tok: Token, e: nat, l: int) {
    && i < |s| && TokenAt(read, s, i, line) == Lexed(Some(tok), Spot(e, l), 0)
    && Skip(s, i, line) == Skipped(Spot(i, line), 0)
  }

  lemma WordIsIdent(w: string)
    requires w !in WORDS
    ensures WordToken(w) == TkIdent(w)
  {
  }

  lemma WordLexed(read: FloatReader, s: string, i: nat, w: string, rest: string, line: int)
    requires IsWord(w) && i <= |s| && s[i..] == w + rest && (rest == "" || !IsIdCont(rest[0]))
    ensures Lexes(read, s, i, line, WordToken(w), i + |w|, line) && LinesIn(w) == 0
  {
    hide LineFidelity.TryMarker, WordToken, IsIdCont, WordEnd;
    Dropped(s, i, w, rest);
    DroppedChars(s, i, w, rest);
    WordStart(w[0]);
    WordEndAt(s, i + 1, i + |w|);
    LexRender.SkipStops(s, i, line);
    forall k | 0 <= k < |w| ensures w[k] != '\n' { WordChar(w[k]); }
    NoLines(w);
  }

  lemma WordStart(c: char)
    requires IsIdStart(c)
    ensures !IsSpace(c) && c != '#' && c != '/'
  {
  }

  lemma WordChar(c: char)
    requires IsIdCont(c)
    ensures c != '\n'
  {
  }

  // ------------------------------------------------------------------ numbers

  lemma DecimalIsDigit(d: Digit)
    requires d < 10
    ensures IsDigit(IfNumbers.DigitText(IfNumbers.Decimal, d))
  {
    DigitSpelled(IfNumbers.DigitText(IfNumbers.Decimal, d));
    assert DIGITS[d] == IfNumbers.DigitText(IfNumbers.Decimal, d);
  }

  /** Decimal digits at `i`, and what ends them. */
  lemma DecimalsRead(s: string, i: nat, ds: seq<Digit>, rest: string)
    requires AreDecimals(ds) && i <= |s| && s[i..] == Decimals(ds) + rest && NoDigit(rest)
    ensures DigitsEnd(s, i) == i + |ds| <= |s| && s[i + |ds|..] == rest && (ds != [] ==> IsDigit(s[i]))
  {
    hide IfNumbers.DigitText, IsDigit;
    Dropped(s, i, Decimals(ds), rest);
    DroppedChars(s, i, Decimals(ds), rest);
    forall k | i <= k < i + |ds| ensures IsDigit(s[k]) { DecimalIsDigit(ds[k - i]); }
    LexRender.DigitsEndAt(s, i, i + |ds|);
  }

  lemma WholeWorth(s: string, i: nat, ds: seq<Digit>, rest: string)
    requires AreDecimals(ds) && i <= |s| && s[i..] == Decimals(ds) + rest
    ensures i + |ds| <= |s| && NumberAt(s, i, i + |ds|, 10) == IfNumbers.Worth(ds, 10)
  {
    Dropped(s, i, Decimals(ds), rest);
    IfNumbers.NumberWorth(s, i, IfNumbers.Decimal, ds);
  }

  lemma WholeStep(read: FloatReader, s: string, i: nat, d: nat)
    requires i < |s| && IsDigit(s[i]) && !Prefix(s, i) && DigitsEnd(s, i) == d
    requires !Have(s, d, '.') && !Have(s, d, 'e') && !Have(s, d, 'E') && !Have(s, d, 'f') && !Have(s, d, 'F')
    ensures LexNumber(read, s, i) == (TkInt(Capped(NumberAt(s, i, d, 10))), d)
  {
    hide NumberAt, DigitsEnd, HexEnd, Capped, HexCapped;
  }

  lemma WholeLexed(read: FloatReader, s: string, i: nat, ds: seq<Digit>, rest: string)
    requires AreDecimals(ds) && ds != [] && i <= |s| && s[i..] == Decimals(ds) + rest
    requires NoDigit(rest) && NoneOf(rest, ".eEfF") && (ds == [0] ==> NoneOf(rest, "xX"))
    ensures i < |s| && IsDigit(s[i]) && LexNumber(read, s, i)
      == (TkInt(WholeValue(IfNumbers.Worth(ds, 10))), i + |ds|)
  {
    hide NumberAt, IfNumbers.Worth, DigitsEnd, Decimals, LexNumber, NoneOf, NoDigit, Prefix, IsDigit;
    DecimalsRead(s, i, ds, rest);
    WholeWorth(s, i, ds, rest);
    NoPrefix(s, i, ds, rest);
    NoFloat(s, i + |ds|, rest);
    WholeStep(read, s, i, i + |ds|);
  }

  lemma NoFloat(s: string, d: nat, rest: string)
    requires d <= |s| && s[d..] == rest && NoneOf(rest, ".eEfF")
    ensures !Have(s, d, '.') && !Have(s, d, 'e') && !Have(s, d, 'E') && !Have(s, d, 'f') && !Have(s, d, 'F')
  {
    var cs := ".eEfF";
    NotAhead(s, d, rest, cs);
    assert cs[0] == '.' && cs[1] == 'e' && cs[2] == 'E' && cs[3] == 'f' && cs[4] == 'F';
  }

  lemma NotAhead(s: string, d: nat, rest: string, cs: string)
    requires d <= |s| && s[d..] == rest && NoneOf(rest, cs)
    ensures forall k :: 0 <= k < |cs| ==> !Have(s, d, cs[k])
  {
    if d < |s| { assert s[d..][0] == s[d]; }
  }

  /** No hexadecimal prefix: a `0` with an `x` or `X` after it. */
  predicate Prefix(s: string, i: nat) {
    Have(s, i, '0') && (Have(s, i + 1, 'x') || Have(s, i + 1, 'X'))
  }

  lemma NoPrefix(s: string, i: nat, ds: seq<Digit>, rest: string)
    requires AreDecimals(ds) && ds != [] && i <= |s| && s[i..] == Decimals(ds) + rest
    requires ds == [0] ==> NoneOf(rest, "xX")
    ensures !Prefix(s, i)
  {
    hide IfNumbers.DigitText;
    Dropped(s, i, Decimals(ds), rest);
    DroppedChars(s, i, Decimals(ds), rest);
    assert Decimals(ds)[0] == IfNumbers.DigitText(IfNumbers.Decimal, ds[0]);
    IfNumbers.DigitWorth(IfNumbers.Decimal, ds[0]);
    if |ds| > 1 {
      assert s[i + 1] == IfNumbers.DigitText(IfNumbers.Decimal, ds[1]);
      DecimalIsDigit(ds[1]);
    } else if Have(s, i, '0') {
      DigitsSpelled('0', 0);
      assert ds == [0];
      if rest != "" { assert s[i + 1] == rest[0]; assert "xX"[0] == 'x' && "xX"[1] == 'X'; }
    }
  }

  lemma HexRead(s: string, i: nat, prefix: char, capitals: bool, ds: seq<Digit>, rest: string)
    requires (rest == "" || DigitValue(rest[0]) == 16)
    requires i <= |s| && s[i..] == IfNumbers.DigitsText(IfNumbers.Hex(prefix, capitals), ds) + rest
    ensures HexEnd(s, i) == i + |ds| <= |s|
    ensures NumberAt(s, i, i + |ds|, 16) == IfNumbers.Worth(ds, 16)
  {
    hide IfNumbers.DigitText, NumberAt, DigitValue, IfNumbers.Worth;
    var k := IfNumbers.Hex(prefix, capitals);
    Dropped(s, i, IfNumbers.DigitsText(k, ds), rest);
    DroppedChars(s, i, IfNumbers.DigitsText(k, ds), rest);
    forall j | i <= j < i + |ds| ensures DigitValue(s[j]) < 16 { IfNumbers.DigitWorth(k, ds[j - i]); }
    LexRender.HexEndAt(s, i, i + |ds|);
    IfNumbers.NumberWorth(s, i, k, ds);
  }

  lemma HexLexed(read: FloatReader, s: string, i: nat, prefix: char, capitals: bool, ds: seq<Digit>, rest: string)
    requires prefix in ['x', 'X'] && (rest == "" || DigitValue(rest[0]) == 16)
    requires i <= |s|
    requires s[i..] == ['0', prefix] + (IfNumbers.DigitsText(IfNumbers.Hex(prefix, capitals), ds) + rest)
    ensures i < |s| && IsDigit(s[i])
    ensures LexNumber(read, s, i) == (TkInt(HexValue(IfNumbers.Worth(ds, 16))), i + 2 + |ds|)
  {
    hide IfNumbers.DigitText, NumberAt, DigitValue, IfNumbers.Worth, HexEnd, IfNumbers.DigitsText, LexNumber, Prefix,
         IsDigit, HexCapped, HexValue;
    var digits := IfNumbers.DigitsText(IfNumbers.Hex(prefix, capitals), ds);
    PrefixRead(s, i, prefix, digits + rest);
    HexRead(s, i + 2, prefix, capitals, ds, rest);
    HexStep(read, s, i);
    HexValueIs(IfNumbers.Worth(ds, 16));
  }

  lemma PrefixRead(s: string, i: nat, prefix: char, after: string)
    requires prefix in ['x', 'X'] && i <= |s| && s[i..] == ['0', prefix] + after
    ensures i + 1 < |s| && Prefix(s, i) && s[i + 2..] == after
  {
    Dropped(s, i, ['0', prefix], after);
    assert s[i..][1] == prefix;
  }

  lemma HexStep(read: FloatReader, s: string, i: nat)
    requires i + 1 < |s| && Prefix(s, i)
    ensures var e := HexEnd(s, i + 2);
      IsDigit(s[i]) && LexNumber(read, s, i) == (TkInt(HexCapped(NumberAt(s, i + 2, e, 16))), e)
  {
    hide NumberAt, HexEnd, HexCapped, DigitsEnd;
  }

  lemma HexValueIs(n: nat)
    ensures HexCapped(n) == HexValue(n)
  {
  }

  lemma FractionRead(s: string, d: nat, fraction: Option<seq<Digit>>, next: string)
    requires (fraction.Some? ==> AreDecimals(fraction.value)) && d <= |s| && s[d..] == FractionText(fraction) + next
    requires if fraction.None? then NoneOf(next, ".") else NoDigit(next)
    ensures FractionEnd(s, d) == d + |FractionText(fraction)| <= |s| && s[d + |FractionText(fraction)|..] == next
  {
    hide DigitsEnd, Decimals, IsDigit;
    Dropped(s, d, FractionText(fraction), next);
    if fraction.None? {
      NotAhead(s, d, next, ".");
      assert "."[0] == '.';
    } else {
      var digits := Decimals(fraction.value);
      assert s[d..] == "." + (digits + next);
      Dropped(s, d, ".", digits + next);
      DecimalsRead(s, d + 1, fraction.value, next);
    }
  }

  lemma ExponentRead(s: string, f: nat, x: Option<Exponent>, next: string)
    requires x.Some? ==>
      AreDecimals(x.value.digits) && x.value.letter in ['e', 'E'] && x.value.sign in ["", "+", "-"] && NoDigit(next) &&
      (x.value.sign == "" && x.value.digits == [] ==> NoneOf(next, "+-"))
    requires f <= |s| && s[f..] == ExponentText(x) + next && (x.None? ==> NoneOf(next, "eE"))
    ensures ExponentEnd(s, f) == f + |ExponentText(x)| <= |s| && s[f + |ExponentText(x)|..] == next
  {
    hide DigitsEnd, Decimals, IsDigit, ExponentEnd, NoneOf, NoDigit;
    Dropped(s, f, ExponentText(x), next);
    if x.None? {
      NotAhead(s, f, next, "eE");
      assert "eE"[0] == 'e' && "eE"[1] == 'E';
      NoExponent(s, f);
    } else {
      var letter, sign, digits := [x.value.letter], x.value.sign, Decimals(x.value.digits);
      assert s[f..] == letter + (sign + (digits + next));
      Dropped(s, f, letter, sign + (digits + next));
      Dropped(s, f + 1, sign, digits + next);
      var g := f + 1 + |sign|;
      DecimalsRead(s, g, x.value.digits, next);
      if sign == "" { NoSign(s, g, x.value.digits, next); }
      ExponentStep(s, f, g);
    }
  }

  lemma NoExponent(s: string, f: nat)
    requires f <= |s| && !Have(s, f, 'e') && !Have(s, f, 'E')
    ensures ExponentEnd(s, f) == f
  {
  }

  lemma ExponentStep(s: string, f: nat, g: nat)
    requires f < |s| && s[f] in ['e', 'E'] && f < g <= f + 2 && g <= |s|
    requires if g == f + 1 then !Have(s, g, '+') && !Have(s, g, '-') else s[f + 1] in ['+', '-']
    ensures ExponentEnd(s, f) == DigitsEnd(s, g)
  {
    hide DigitsEnd;
  }

  lemma NoSign(s: string, g: nat, ds: seq<Digit>, next: string)
    requires AreDecimals(ds) && g <= |s| && s[g..] == Decimals(ds) + next && (ds == [] ==> NoneOf(next, "+-"))
    ensures !Have(s, g, '+') && !Have(s, g, '-')
  {
    hide IfNumbers.DigitText;
    if ds == [] {
      NotAhead(s, g, next, "+-");
      assert "+-"[0] == '+' && "+-"[1] == '-';
    } else {
      assert s[g..][0] == IfNumbers.DigitText(IfNumbers.Decimal, ds[0]);
      DecimalIsDigit(ds[0]);
    }
  }

  lemma FloatStep(read: FloatReader, s: string, i: nat, d: nat, f: nat, e: nat, suffix: bool)
    requires i < |s| && (IsDigit(s[i]) || (s[i] == '.' && i + 1 < |s| && IsDigit(s[i + 1]))) && !Prefix(s, i)
    requires DigitsEnd(s, i) == d <= |s| && FractionEnd(s, d) == f <= |s| && ExponentEnd(s, f) == e <= |s|
    requires suffix == (Have(s, e, 'f') || Have(s, e, 'F')) && (e > d || suffix)
    ensures LexNumber(read, s, i) == (TkFloat(read(s[i..e])), if suffix then e + 1 else e)
  {
    hide NumberAt, DigitsEnd, HexEnd, Capped, HexCapped, FractionEnd, ExponentEnd;
  }

  /** What stands after the whole part, and after the fraction. */
  lemma FloatTails(p: Part, rest: string)
    requires p.Floating? && PartOk(p) && Stands(p, rest)
    ensures var x := p.suffix + rest; var y := ExponentText(p.exponent) + x;
      && NoDigit(FractionText(p.fraction) + y) && NoneOf(FractionText(p.fraction) + y, "xX")
      && (if p.fraction.None? then NoneOf(y, ".") else NoDigit(y))
      && (p.exponent.None? ==> NoneOf(x, "eE")) && NoDigit(x)
      && (p.exponent.Some? && p.exponent.value.sign == "" && p.exponent.value.digits == [] ==> NoneOf(x, "+-"))
  {
    hide Decimals;
    var x := p.suffix + rest;
    if p.suffix != "" {
      assert x[0] == p.suffix[0] && x[0] in ['f', 'F'];
      NotAmong(x[0]);
    } else {
      assert x == rest;
    }
    var y := ExponentText(p.exponent) + x;
    if p.exponent.Some? { assert y[0] == p.exponent.value.letter; NotAmong(y[0]); } else { assert y == x; }
    var z := FractionText(p.fraction) + y;
    if p.fraction.Some? { assert z[0] == '.'; NotAmong(z[0]); } else { assert z == y; }
  }

  lemma NotAmong(c: char)
    requires c in ['f', 'F', 'e', 'E', '.']
    ensures !IsDigit(c) && c !in "xX" && c !in "+-"
    ensures c in ['f', 'F'] ==> c !in "eE"
    ensures c != '.' ==> c !in "."
  {
  }

  lemma FloatParts(p: Part, rest: string)
    requires p.Floating? && PartOk(p)
    ensures var x := p.suffix + rest; var y := ExponentText(p.exponent) + x; var z := FractionText(p.fraction) + y;
      (FloatText(p) + p.suffix) + rest == Decimals(p.whole) + z && FloatText(p) + x == Decimals(p.whole) + z
    ensures |FloatText(p)| == |p.whole| + |FractionText(p.fraction)| + |ExponentText(p.exponent)|
  {
    hide IfNumbers.DigitsText, FractionText, ExponentText;
  }

  lemma FloatLexed(read: FloatReader, s: string, i: nat, p: Part, rest: string)
    requires p.Floating? && PartOk(p) && Stands(p, rest) && i <= |s| && s[i..] == (FloatText(p) + p.suffix) + rest
    ensures i < |s| && (IsDigit(s[i]) || (s[i] == '.' && i + 1 < |s| && IsDigit(s[i + 1])))
    ensures LexNumber(read, s, i) == (TkFloat(read(FloatText(p))), i + |FloatText(p)| + |p.suffix|)
  {
    hide DigitsEnd, LexNumber, NoneOf, NoDigit, Prefix, IsDigit, FractionText, ExponentText, FractionEnd, ExponentEnd,
         FloatText, Stands, PartOk, Decimals, Have;
    var x := p.suffix + rest;
    var z := FractionText(p.fraction) + (ExponentText(p.exponent) + x);
    FloatParts(p, rest);
    FloatPieces(s, i, p, rest);
    FloatStart(s, i, p, z, ExponentText(p.exponent) + x);
    var e := i + |FloatText(p)|;
    Dropped(s, i, FloatText(p), x);
    SuffixRead(s, e, p.suffix, rest, p);
    FloatGrows(p);
    FloatStep(read, s, i, i + |p.whole|, i + |p.whole| + |FractionText(p.fraction)|, e, p.suffix != "");
  }

  /** The whole part, the fraction and the exponent. */
  lemma FloatPieces(s: string, i: nat, p: Part, rest: string)
    requires p.Floating? && PartOk(p) && Stands(p, rest) && i <= |s| && s[i..] == (FloatText(p) + p.suffix) + rest
    ensures var d := i + |p.whole|; var f := d + |FractionText(p.fraction)|; var e := i + |FloatText(p)|;
      DigitsEnd(s, i) == d <= |s| && FractionEnd(s, d) == f <= |s| && ExponentEnd(s, f) == e <= |s|
    ensures NoneOf(FractionText(p.fraction) + (ExponentText(p.exponent) + (p.suffix + rest)), "xX")
  {
    hide DigitsEnd, NoneOf, NoDigit, IsDigit, FractionText, ExponentText, FractionEnd, ExponentEnd, FloatText, Stands,
         Decimals;
    var x := p.suffix + rest;
    var y := ExponentText(p.exponent) + x;
    FloatParts(p, rest);
    FloatTails(p, rest);
    DecimalsRead(s, i, p.whole, FractionText(p.fraction) + y);
    var d := i + |p.whole|;
    FractionRead(s, d, p.fraction, y);
    ExponentRead(s, d + |FractionText(p.fraction)|, p.exponent, x);
  }

  lemma SuffixRead(s: string, e: nat, suffix: string, rest: string, p: Part)
    requires p.Floating? && PartOk(p) && Stands(p, rest) && suffix == p.suffix && e <= |s| && s[e..] == suffix + rest
    ensures (suffix != "") == (Have(s, e, 'f') || Have(s, e, 'F')) && |suffix| == if suffix == "" then 0 else 1
  {
    hide FloatText;
    Dropped(s, e, suffix, rest);
    if suffix == "" {
      NotAhead(s, e, rest, "fF");
      assert "fF"[0] == 'f' && "fF"[1] == 'F';
    }
  }

  lemma FloatGrows(p: Part)
    requires p.Floating? && PartOk(p)
    ensures |FloatText(p)| > |p.whole| || p.suffix != ""
  {
  }

  lemma FloatStart(s: string, i: nat, p: Part, z: string, y: string)
    requires p.Floating? && PartOk(p) && i <= |s| && s[i..] == Decimals(p.whole) + z && NoneOf(z, "xX")
    requires z == FractionText(p.fraction) + y
    ensures i < |s| && (IsDigit(s[i]) || (s[i] == '.' && i + 1 < |s| && IsDigit(s[i + 1]))) && !Prefix(s, i)
  {
    hide IsDigit, Decimals, NoneOf;
    if p.whole != [] {
      NoPrefix(s, i, p.whole, z);
      FirstDecimal(s, i, p.whole, z);
    } else {
      var digits := Decimals(p.fraction.value);
      NoDecimals(z);
      assert s[i..] == "." + (digits + y);
      Dropped(s, i, ".", digits + y);
      FirstDecimal(s, i + 1, p.fraction.value, y);
    }
  }

  lemma NoDecimals(z: string)
    ensures Decimals([]) + z == z
  {
  }

  lemma FirstDecimal(s: string, i: nat, ds: seq<Digit>, rest: string)
    requires ds != [] && AreDecimals(ds) && i <= |s| && s[i..] == Decimals(ds) + rest
    ensures i < |s| && IsDigit(s[i])
  {
    hide IfNumbers.DigitText;
    assert s[i..][0] == IfNumbers.DigitText(IfNumbers.Decimal, ds[0]);
    DecimalIsDigit(ds[0]);
  }

  // ------------------------------------------------------------------ strings

  /** One character of a string literal, escaped or not. */
  lemma PieceRead(s: string, i: nat, p: StringPart, rest: string, line: int)
    requires i <= |s| && s[i..] == PieceText(p) + rest && (p.Raw? ==> p.c != '"' && p.c != '\\')
    ensures i + |PieceText(p)| <= |s|
    ensures LexString(s, i, line) == Put(PieceValue(p), LexString(s, i + |PieceText(p)|, line + LinesIn(PieceText(p))))
  {
    Dropped(s, i, PieceText(p), rest);
    if p.Escaped? { assert s[i..][1] == p.c; }
    PieceLines(p);
  }

  lemma PieceLines(p: StringPart)
    ensures LinesIn(PieceText(p)) == LineStep(p.c)
  {
    assert [p.c][1..] == "" && LinesIn([p.c]) == LineStep(p.c);
    if p.Escaped? {
      var text := ['\\', p.c];
      assert text[1..] == [p.c] && text[0] != '\n';
    }
  }

  lemma StringStep(parts: seq<StringPart>, after: string)
    requires parts != []
    ensures StringText(parts) + after == PieceText(parts[0]) + (StringText(parts[1..]) + after)
    ensures |StringText(parts)| == |PieceText(parts[0])| + |StringText(parts[1..])|
    ensures LinesIn(StringText(parts)) == LinesIn(PieceText(parts[0])) + LinesIn(StringText(parts[1..]))
    ensures StringValue(parts) == PieceValue(parts[0]) + StringValue(parts[1..])
  {
    hide LinesIn;
    LinesJoin(PieceText(parts[0]), StringText(parts[1..]));
  }

  lemma StringEnds(s: string, i: nat, after: string, closed: bool, line: int)
    requires i <= |s| && s[i..] == after && (if closed then after != "" && after[0] == '"' else after in ["", "\\"])
    ensures LexString(s, i, line) == Str("", Spot(if closed then i + 1 else |s|, line), closed)
  {
    if after != "" { assert s[i..][0] == after[0]; }
  }

  /** What a string literal holds, up to its quote or, if it has none, to the end. */
  lemma {:induction false} StringRead(s: string, i: nat, parts: seq<StringPart>, after: string, closed: bool, line: int)
    requires StringOk(parts) && i <= |s| && s[i..] == StringText(parts) + after
    requires if closed then after != "" && after[0] == '"' else after in ["", "\\"]
    ensures i + |StringText(parts)| + (if closed then 1 else 0) <= |s|
    ensures LexString(s, i, line)
      == Str(StringValue(parts),
             Spot(if closed then i + |StringText(parts)| + 1 else |s|, line + LinesIn(StringText(parts))), closed)
    decreases |parts|
  {
    hide LexString, LinesIn, PieceText, PieceValue;
    if parts == [] {
      assert StringText([]) + after == after;
      NoLines("");
      StringEnds(s, i, after, closed, line);
    } else {
      hide StringText, StringValue;
      var p, rest := parts[0], parts[1..];
      StringStep(parts, after);
      PieceRead(s, i, p, StringText(rest) + after, line);
      Dropped(s, i, PieceText(p), StringText(rest) + after);
      StringRead(s, i + |PieceText(p)|, rest, after, closed, line + LinesIn(PieceText(p)));
    }
  }

  lemma QuotedLexed(read: FloatReader, s: string, i: nat, parts: seq<StringPart>, rest: string, line: int)
    requires StringOk(parts) && i <= |s| && s[i..] == ("\"" + (StringText(parts) + "\"")) + rest
    ensures var text := "\"" + (StringText(parts) + "\"");
      Lexes(read, s, i, line, TkString(StringValue(parts)), i + |text|, line + LinesIn(text))
  {
    hide LexString, LexNumber, Symbol, LinesIn, StringText, StringValue, LineFidelity.TryMarker, IsIdStart, IsDigit,
         Skip, StringOk;
    var inner := StringText(parts);
    assert ("\"" + (inner + "\"")) + rest == "\"" + (inner + ("\"" + rest));
    Dropped(s, i, "\"", inner + ("\"" + rest));
    StringRead(s, i + 1, parts, "\"" + rest, true, line);
    LexRender.SkipStops(s, i, line);
    QuoteStarts();
    LinesJoin("\"", inner + "\"");
    LinesJoin(inner, "\"");
    NoLines("\"");
  }

  lemma QuoteStarts()
    ensures !IsIdStart('"') && !IsDigit('"')
  {
  }

  lemma OpenLexed(read: FloatReader, s: string, i: nat, parts: seq<StringPart>, backslash: bool, line: int)
    requires StringOk(parts) && i <= |s| && s[i..] == "\"" + (StringText(parts) + if backslash then "\\" else "")
    ensures LexFrom(read, s, i, line) == ([LToken(TkString(StringValue(parts)), line)], 1)
  {
    hide LexString, LexNumber, Symbol, LinesIn, StringText, StringValue, LineFidelity.TryMarker, IsIdStart, IsDigit,
         Skip, StringOk;
    var inner, after := StringText(parts), if backslash then "\\" else "";
    Dropped(s, i, "\"", inner + after);
    StringRead(s, i + 1, parts, after, false, line);
    LexRender.SkipStops(s, i, line);
    QuoteStarts();
    var l := line + LinesIn(inner);
    assert TokenAt(read, s, i, line) == Lexed(Some(TkString(StringValue(parts))), Spot(|s|, l), 1);
    AtTheEnd(read, s, l);
    TokenStep(read, s, i, line);
    var tok := LToken(TkString(StringValue(parts)), line);
    assert [tok] + [] == [tok];
  }

  /** A token, then the others. */
  lemma TokenStep(read: FloatReader, s: string, i: nat, line: int)
    requires i < |s| && Skip(s, i, line) == Skipped(Spot(i, line), 0)
    ensures var t := TokenAt(read, s, i, line);
      var rest := LexFrom(read, s, t.spot.off, t.spot.line);
      LexFrom(read, s, i, line) ==
      ((if t.tok.Some? then [LToken(t.tok.value, line)] else []) + rest.0, t.errs + rest.1)
  {
    hide Skip, TokenAt;
  }

  lemma AtTheEnd(read: FloatReader, s: string, line: int)
    ensures LexFrom(read, s, |s|, line) == ([], 0)
  {
    hide TokenAt;
    LexRender.SkipStops(s, |s|, line);
  }

  // ------------------------------------------------------------------ marks, strays

  lemma MarkShape(t: Token)
    requires LexRender.IsMark(t)
    ensures var m := LexRender.MarkText(t);
      && 1 <= |m| <= 2 && !IsIdStart(m[0]) && !IsDigit(m[0]) && m[0] != '"' && m[0] != '#' && !IsSpace(m[0])
      && (|m| == 2 ==> Symbol(m[0], m[1]) == Some((t, 2)) && m[1] != '\n')
      && (m[0] == '/' ==> |m| == 1 || m[1] == '=') && (m[0] == '.' ==> m == ".")
  {
    LexRender.MarkSymbol(t, ' ');
    if |LexRender.MarkText(t)| == 2 { SecondChar(t); }
  }

  lemma SecondChar(t: Token)
    requires LexRender.IsMark(t) && |LexRender.MarkText(t)| == 2
    ensures LexRender.MarkText(t)[1] != '\n'
  {
  }

  lemma MarkLexed(read: FloatReader, s: string, i: nat, t: Token, rest: string, line: int)
    requires LexRender.IsMark(t) && Stands(Mark(t), rest) && i <= |s| && s[i..] == LexRender.MarkText(t) + rest
    ensures Lexes(read, s, i, line, t, i + |LexRender.MarkText(t)|, line) && LinesIn(LexRender.MarkText(t)) == 0
  {
    hide LexNumber, LexString, Symbol, LexRender.MarkText, LexRender.IsMark, LineFidelity.TryMarker, Skip, PAIRS,
         IsIdStart, IsDigit;
    var m := LexRender.MarkText(t);
    MarkShape(t);
    Dropped(s, i, m, rest);
    DroppedChars(s, i, m, rest);
    if |m| == 1 {
      MarkAlone(s, i, t, rest);
    }
    LexRender.SkipStops(s, i, line);
    NoLines(m);
  }

  lemma MarkAlone(s: string, i: nat, t: Token, rest: string)
    requires LexRender.IsMark(t) && Stands(Mark(t), rest) && |LexRender.MarkText(t)| == 1
    requires i < |s| && s[i] == LexRender.MarkText(t)[0] && s[i + 1..] == rest
    ensures Symbol(s[i], CharAt(s, i + 1)) == Some((t, 1))
    ensures i + 1 < |s| && s[i] == '/' ==> s[i + 1] != '/' && s[i + 1] != '*'
    ensures i + 1 < |s| && s[i] == '.' ==> !IsDigit(s[i + 1])
  {
  }

  lemma StrayLexed(read: FloatReader, s: string, i: nat, c: char, rest: string, line: int)
    requires PartOk(Stray(c)) && i <= |s| && s[i..] == [c] + rest
    ensures i < |s| && TokenAt(read, s, i, line) == Lexed(None, Spot(i + 1, line), 1)
    ensures Skip(s, i, line) == Skipped(Spot(i, line), 0) && LinesIn([c]) == 0
  {
    hide LexNumber, LexString, LineFidelity.TryMarker, Skip;
    Dropped(s, i, [c], rest);
    NoMark(c, CharAt(s, i + 1));
    LexRender.SkipStops(s, i, line);
    NoLines([c]);
  }

  lemma NoMark(c: char, d: char)
    requires c !in "(){}[];,@:.~^+-*/%&|!=<>"
    ensures Symbol(c, d).None? && c != '/' && c != '.'
  {
    var m := "(){}[];,@:.~^+-*/%&|!=<>";
    assert m[0] == '(' && m[1] == ')' && m[2] == '{' && m[3] == '}' && m[4] == '[' && m[5] == ']' && m[6] == ';';
    assert m[7] == ',' && m[8] == '@' && m[9] == ':' && m[10] == '.' && m[11] == '~' && m[12] == '^' && m[13] == '+';
    assert m[14] == '-' && m[15] == '*' && m[16] == '/' && m[17] == '%' && m[18] == '&' && m[19] == '|';
    assert m[20] == '!' && m[21] == '=' && m[22] == '<' && m[23] == '>';
  }

  lemma NumberLexes(read: FloatReader, s: string, i: nat, line: int, tok: Token, e: nat)
    requires i < |s| && (IsDigit(s[i]) || (s[i] == '.' && i + 1 < |s| && IsDigit(s[i + 1])))
    requires LexNumber(read, s, i) == (tok, e)
    ensures Lexes(read, s, i, line, tok, e, line)
  {
    hide LexNumber, LexString, Symbol, LineFidelity.TryMarker, Skip;
    LexRender.SkipStops(s, i, line);
  }

  lemma DigitsNoLines(k: IfNumbers.Notation, ds: seq<Digit>)
    ensures LinesIn(IfNumbers.DigitsText(k, ds)) == 0
  {
    hide IfNumbers.DigitText, DigitValue;
    var text := IfNumbers.DigitsText(k, ds);
    forall j | 0 <= j < |text| ensures text[j] != '\n' {
      IfNumbers.DigitWorth(k, ds[j]);
      assert DigitValue('\n') == 16 by { NewlineNoDigit(); }
    }
    NoLines(text);
  }

  lemma NewlineNoDigit()
    ensures DigitValue('\n') == 16
  {
  }

  lemma NumberNoLines(p: Part)
    requires (p.Whole? || p.Hexadecimal? || p.Floating?) && PartOk(p)
    ensures LinesIn(PartText(p)) == 0
  {
    hide LinesIn, IfNumbers.DigitsText;
    match p
    case Whole(digits) => DigitsNoLines(IfNumbers.Decimal, digits);
    case Hexadecimal(prefix, capitals, digits) =>
      DigitsNoLines(IfNumbers.Hex(prefix, capitals), digits);
      NoLines(['0', prefix]);
      LinesJoin(['0', prefix], IfNumbers.DigitsText(IfNumbers.Hex(prefix, capitals), digits));
    case Floating(whole, fraction, exponent, suffix) =>
      DigitsNoLines(IfNumbers.Decimal, whole);
      FractionNoLines(fraction);
      ExponentNoLines(exponent);
      LinesJoin(FractionText(fraction), ExponentText(exponent));
      LinesJoin(Decimals(whole), FractionText(fraction) + ExponentText(exponent));
      LinesJoin(FloatText(p), suffix);
      NoLines(suffix);
  }

  lemma FractionNoLines(fraction: Option<seq<Digit>>)
    ensures LinesIn(FractionText(fraction)) == 0
  {
    hide LinesIn, IfNumbers.DigitsText;
    if fraction.None? { NoLines(""); } else {
      NoLines(".");
      DigitsNoLines(IfNumbers.Decimal, fraction.value);
      LinesJoin(".", Decimals(fraction.value));
    }
  }

  lemma ExponentNoLines(x: Option<Exponent>)
    requires x.Some? ==> x.value.letter in ['e', 'E'] && x.value.sign in ["", "+", "-"]
    ensures LinesIn(ExponentText(x)) == 0
  {
    hide LinesIn, IfNumbers.DigitsText;
    if x.None? { NoLines(""); } else {
      NoLines([x.value.letter]);
      NoLines(x.value.sign);
      DigitsNoLines(IfNumbers.Decimal, x.value.digits);
      LinesJoin(x.value.sign, Decimals(x.value.digits));
      LinesJoin([x.value.letter], x.value.sign + Decimals(x.value.digits));
    }
  }

  // ------------------------------------------------------------------ the theorem

  predicate IsToken(p: Part) {
    !p.White? && !p.LineRemark? && !p.BlockRemark? && !p.Stray?
  }

  /** White space and comments are passed, with their lines. */
  lemma PartSkipped(s: string, i: nat, p: Part, rest: string, line: int)
    requires (p.White? || p.LineRemark? || p.BlockRemark?) && PartOk(p) && Stands(p, rest)
    requires i <= |s| && s[i..] == PartText(p) + rest
    ensures i + |PartText(p)| <= |s|
    ensures Skip(s, i, line) == Skip(s, i + |PartText(p)|, line + LinesIn(PartText(p)))
  {
    hide Skip, LinesIn, NoClose;
    match p
    case White(c) => SpaceSkipped(s, i, c, rest, line);
    case LineRemark(text) =>
      LineRemarkSkipped(s, i, text, rest, line);
      LinesJoin("//", text);
      NoLines("//");
      NoLines(text);
    case BlockRemark(text) => BlockRemarkSkipped(s, i, text, rest, line);
  }

  /** Every other part but a stray character is one token. */
  lemma PartLexed(read: FloatReader, s: string, i: nat, p: Part, rest: string, line: int)
    requires IsToken(p) && PartOk(p) && Stands(p, rest) && i <= |s| && s[i..] == PartText(p) + rest
    ensures TokenOf(read, p).Some?
    ensures Lexes(read, s, i, line, TokenOf(read, p).value, i + |PartText(p)|, line + LinesIn(PartText(p)))
  {
    hide Lexes, LinesIn, LexNumber, Decimals, IfNumbers.Worth, FloatText, StringText, StringValue, IsWord, WordToken,
         LexRender.KeywordText, LexRender.MarkText, LexRender.IsMark, LexRender.IsKeyword, WORDS, PAIRS, IsIdCont;
    match p
    case Word(w) =>
      WordLexed(read, s, i, w, rest, line);
      WordIsIdent(w);
    case Keyword(t) =>
      LexRender.KeywordIsWord(t);
      LexRender.KeywordToken(t);
      WordLexed(read, s, i, LexRender.KeywordText(t), rest, line);
    case Quoted(parts) => QuotedLexed(read, s, i, parts, rest, line);
    case Mark(t) => MarkLexed(read, s, i, t, rest, line);
    case _ => NumberPart(read, s, i, p, rest, line);
  }

  lemma NumberPart(read: FloatReader, s: string, i: nat, p: Part, rest: string, line: int)
    requires (p.Whole? || p.Hexadecimal? || p.Floating?) && PartOk(p) && Stands(p, rest)
    requires i <= |s| && s[i..] == PartText(p) + rest
    ensures TokenOf(read, p).Some?
    ensures Lexes(read, s, i, line, TokenOf(read, p).value, i + |PartText(p)|, line + LinesIn(PartText(p)))
  {
    hide Lexes, LinesIn, LexNumber, PartText, PartOk, Stands, TokenOf;
    NumberNoLines(p);
    var tok := NumberRead(read, s, i, p, rest);
    NumberLexes(read, s, i, line, tok, i + |PartText(p)|);
  }

  lemma NumberRead(read: FloatReader, s: string, i: nat, p: Part, rest: string) returns (tok: Token)
    requires (p.Whole? || p.Hexadecimal? || p.Floating?) && PartOk(p) && Stands(p, rest)
    requires i <= |s| && s[i..] == PartText(p) + rest
    ensures TokenOf(read, p) == Some(tok)
    ensures i < |s| && (IsDigit(s[i]) || (s[i] == '.' && i + 1 < |s| && IsDigit(s[i + 1])))
    ensures LexNumber(read, s, i) == (tok, i + |PartText(p)|)
  {
    hide LexNumber, PartText, PartOk, Stands, IsDigit, TokenOf;
    if p.Whole? {
      tok := WholePart(read, s, i, p, rest);
    } else if p.Hexadecimal? {
      tok := HexPart(read, s, i, p, rest);
    } else {
      tok := FloatPart(read, s, i, p, rest);
    }
  }

  lemma WholePart(read: FloatReader, s: string, i: nat, p: Part, rest: string) returns (tok: Token)
    requires p.Whole? && PartOk(p) && Stands(p, rest) && i <= |s| && s[i..] == PartText(p) + rest
    ensures TokenOf(read, p) == Some(tok) && i < |s| && IsDigit(s[i])
    ensures LexNumber(read, s, i) == (tok, i + |PartText(p)|)
  {
    hide LexNumber, IfNumbers.Worth, IfNumbers.DigitsText, NoneOf, NoDigit, AreDecimals, IsDigit, WholeValue;
    tok := TkInt(WholeValue(IfNumbers.Worth(p.digits, 10)));
    WholeLexed(read, s, i, p.digits, rest);
  }

  lemma HexPart(read: FloatReader, s: string, i: nat, p: Part, rest: string) returns (tok: Token)
    requires p.Hexadecimal? && PartOk(p) && Stands(p, rest) && i <= |s| && s[i..] == PartText(p) + rest
    ensures TokenOf(read, p) == Some(tok) && i < |s| && IsDigit(s[i])
    ensures LexNumber(read, s, i) == (tok, i + |PartText(p)|)
  {
    hide LexNumber, IfNumbers.Worth, IfNumbers.DigitsText, IsDigit, HexValue, DigitValue;
    tok := TkInt(HexValue(IfNumbers.Worth(p.digits, 16)));
    var text := IfNumbers.DigitsText(IfNumbers.Hex(p.prefix, p.capitals), p.digits);
    assert (['0', p.prefix] + text) + rest == ['0', p.prefix] + (text + rest);
    HexLexed(read, s, i, p.prefix, p.capitals, p.digits, rest);
  }

  lemma FloatPart(read: FloatReader, s: string, i: nat, p: Part, rest: string) returns (tok: Token)
    requires p.Floating? && PartOk(p) && Stands(p, rest) && i <= |s| && s[i..] == PartText(p) + rest
    ensures TokenOf(read, p) == Some(tok)
    ensures i < |s| && (IsDigit(s[i]) || (s[i] == '.' && i + 1 < |s| && IsDigit(s[i + 1])))
    ensures LexNumber(read, s, i) == (tok, i + |PartText(p)|)
  {
    hide LexNumber, FloatText, IsDigit, PartOk, Stands;
    tok := TkFloat(read(FloatText(p)));
    FloatLexed(read, s, i, p, rest);
  }

  /** What a text lexes to. */
  function Result(read: FloatReader, ps: seq<Part>, end: Ending, line: int): (seq<LToken>, nat) {
    (TokensOf(read, ps, end, line), ErrorsOf(ps, end))
  }

  lemma EndLexed(read: FloatReader, s: string, i: nat, end: Ending, line: int)
    requires EndOk(end) && i <= |s| && s[i..] == EndText(end)
    ensures LexFrom(read, s, i, line) == Result(read, [], end, line)
  {
    hide LexFrom, Skip, StringText, StringValue, NoClose, StringOk;
    match end
    case Finished => AtTheEnd(read, s, line);
    case InString(parts, backslash) => OpenLexed(read, s, i, parts, backslash, line);
    case InRemark(text) =>
      OpenRemarkSkipped(s, i, text, line);
      RemarkEnds(read, s, i, line);
  }

  lemma RemarkEnds(read: FloatReader, s: string, i: nat, line: int)
    requires i <= |s| && Skip(s, i, line).errs == 1 && Skip(s, i, line).spot.off == |s|
    ensures LexFrom(read, s, i, line) == ([], 1)
  {
    hide Skip, TokenAt;
  }

  /** A text of parts that can stand where they stand lexes to the tokens of the parts. */
  lemma {:induction false} PartsLexed(read: FloatReader, s: string, i: nat, ps: seq<Part>, end: Ending, line: int)
    requires AllStand(ps, end) && EndOk(end) && i <= |s| && s[i..] == TextOf(ps, end)
    ensures LexFrom(read, s, i, line) == Result(read, ps, end, line)
    decreases |ps|
  {
    hide LexFrom, PartOk, Stands, EndOk, EndText, PartText, TokenOf, LinesIn, Skip, TokenAt;
    if ps == [] {
      EndLexed(read, s, i, end, line);
    } else {
      var p, rest := ps[0], TextOf(ps[1..], end);
      var e, l := i + |PartText(p)|, line + LinesIn(PartText(p));
      Dropped(s, i, PartText(p), rest);
      PartsLexed(read, s, e, ps[1..], end, l);
      if IsToken(p) {
        PartLexed(read, s, i, p, rest, line);
        TokenStep(read, s, i, line);
        TokenCounts(p);
      } else if p.Stray? {
        StrayText(p.c);
        StrayLexed(read, s, i, p.c, rest, line);
        TokenStep(read, s, i, line);
        NoToken(read, p);
      } else {
        PartSkipped(s, i, p, rest, line);
        SameSkip(read, s, i, line, e, l);
        NoToken(read, p);
        assert [] + TokensOf(read, ps[1..], end, l) == TokensOf(read, ps[1..], end, l);
      }
    }
  }

  lemma TokenCounts(p: Part)
    requires IsToken(p)
    ensures !p.Stray?
  {
  }

  lemma NoToken(read: FloatReader, p: Part)
    requires !IsToken(p)
    ensures TokenOf(read, p).None?
  {
  }

  lemma StrayText(c: char)
    ensures PartText(Stray(c)) == [c]
  {
  }

  /** So does a whole text, after a byte-order mark or without one. */
  lemma TextLexed(read: FloatReader, bom: bool, ps: seq<Part>, end: Ending)
    requires AllStand(ps, end) && EndOk(end)
    requires !bom ==> TextOf(ps, end) == "" || TextOf(ps, end)[0] as int != 0xEF
    ensures LexText(read, (if bom then [0xEF as char, 0xBB as char, 0xBF as char] else "") + TextOf(ps, end))
      == (TokensOf(read, ps, end, 1), ErrorsOf(ps, end))
  {
    hide LexFrom, AllStand, EndOk, TextOf, TokensOf, ErrorsOf;
    var mark := if bom then [0xEF as char, 0xBB as char, 0xBF as char] else "";
    var s := mark + TextOf(ps, end);
    assert s[|mark|..] == TextOf(ps, end);
    PartsLexed(read, s, |mark|, ps, end, 1);
  }
}
