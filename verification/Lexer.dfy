/** The lexer as it runs: an offset and a line that move over the text, and a growing buffer
    for string literals. */
module Lexer {
  import opened Syntax
  import opened Chars
  import opened Directives
  import opened LineFidelity
  import opened LexSpec

  class Lex {
    const s: string
    const read: FloatReader
    var off: nat
    var line: int
    var errors: nat

    constructor (read: FloatReader, s: string)
      ensures this.s == s && this.read == read && Valid() && line == 1 && errors == 0
      ensures LexText(read, s) == LexFrom(read, s, off, 1)
    {
      this.s, this.read, line, errors := s, read, 1, 0;
      off := if |s| >= 3 && s[0] as int == 0xEF && s[1] as int == 0xBB && s[2] as int == 0xBF then 3 else 0;
    }

    predicate Valid()
      reads this`off
    {
      off <= |s|
    }

    predicate At(spot: Spot)
      reads this`off, this`line
    {
      off == spot.off && line == spot.line
    }

    /** One character on; a newline advances the line. */
    method Getc()
      requires off < |s|
      modifies this`off, this`line
      ensures off == old(off) + 1 && line == old(line) + LineStep(s[old(off)])
    {
      if s[off] == '\n' { line := line + 1; }
      off := off + 1;
    }

    /** At the start of a line, takes a `#line` marker. */
    method TakeMarker() returns (taken: bool)
      requires Valid()
      modifies this`off, this`line
      ensures Valid() && off >= old(off)
      ensures var m := TryMarker(s, old(off));
        if AtLineStart(s, old(off)) && m.Some? then taken && off == m.value.2 && line == m.value.0
        else !taken && off == old(off) && line == old(line)
    {
      hide TryMarker;
      taken := false;
      if off == 0 || s[off - 1] == '\n' {
        var m := TryMarker(s, off);
        if m.Some? {
          off, line, taken := m.value.2, m.value.0, true;
        }
      }
    }

    /** The inside of a block comment. */
    method TakeComment() returns (closed: bool)
      requires Valid()
      modifies this`off, this`line
      ensures Valid() && CommentEnd(s, old(off), old(line)) == (Spot(off, line), closed)
    {
      closed := false;
      while off < |s|
        invariant Valid() && CommentEnd(s, off, line) == CommentEnd(s, old(off), old(line))
        decreases |s| - off
      {
        if s[off] == '*' && off + 1 < |s| && s[off + 1] == '/' {
          off := off + 2;
          return true;
        }
        Getc();
      }
    }

    method SkipSpace()
      requires Valid()
      modifies this
      ensures Valid() && At(Skip(s, old(off), old(line)).spot)
      ensures errors == old(errors) + Skip(s, old(off), old(line)).errs
    {
      hide TryMarker, CommentEnd, FirstOf;
      ghost var all := Skip(s, off, line);
      var more := true;
      while more
        invariant Valid()
        invariant Skip(s, off, line).spot == all.spot
        invariant errors + Skip(s, off, line).errs == old(errors) + all.errs
        invariant !more ==> At(all.spot) && Skip(s, off, line) == Skipped(all.spot, 0)
        decreases more, |s| - off
      {
        var taken := TakeMarker();
        if taken {
        } else if off == |s| {
          more := false;
        } else if IsSpace(s[off]) {
          Getc();
        } else if s[off] == '/' && off + 1 < |s| && s[off + 1] == '/' {
          off := FirstOf(s, off, '\n');
        } else if s[off] == '/' && off + 1 < |s| && s[off + 1] == '*' {
          off := off + 2;
          var closed := TakeComment();
          if !closed { errors := errors + 1; }
        } else {
          more := false;
        }
      }
    }

    method TakeDigits()
      requires Valid()
      modifies this`off
      ensures Valid() && off == DigitsEnd(s, old(off))
    {
      while off < |s| && IsDigit(s[off])
        invariant Valid() && DigitsEnd(s, off) == DigitsEnd(s, old(off))
      {
        off := off + 1;
      }
    }

    method TakeHexDigits()
      requires Valid()
      modifies this`off
      ensures Valid() && off == HexEnd(s, old(off))
    {
      while off < |s| && DigitValue(s[off]) < 16
        invariant Valid() && HexEnd(s, off) == HexEnd(s, old(off))
      {
        off := off + 1;
      }
    }

    method TakeFraction()
      requires Valid()
      modifies this`off
      ensures Valid() && off == FractionEnd(s, old(off)) && (off > old(off) <==> Have(s, old(off), '.'))
    {
      if off < |s| && s[off] == '.' {
        off := off + 1;
        TakeDigits();
      }
    }

    method TakeExponent()
      requires Valid()
      modifies this`off
      ensures Valid() && off == ExponentEnd(s, old(off))
      ensures off > old(off) <==> Have(s, old(off), 'e') || Have(s, old(off), 'E')
    {
      if off < |s| && (s[off] == 'e' || s[off] == 'E') {
        off := off + 1;
        if off < |s| && (s[off] == '+' || s[off] == '-') { off := off + 1; }
        TakeDigits();
      }
    }

    method TakeNumber() returns (t: Token)
      requires off < |s| && (IsDigit(s[off]) || (s[off] == '.' && off + 1 < |s| && IsDigit(s[off + 1])))
      modifies this`off
      ensures Valid() && (t, off) == LexNumber(read, s, old(off))
    {
      hide DigitsEnd, HexEnd, FractionEnd, ExponentEnd, NumberAt, Capped, HexCapped;
      var start := off;
      if s[off] == '0' && off + 1 < |s| && (s[off + 1] == 'x' || s[off + 1] == 'X') {
        off := off + 2;
        TakeHexDigits();
        return TkInt(HexCapped(NumberAt(s, start + 2, off, 16)));
      }
      TakeDigits();
      var digits := off;
      TakeFraction();
      TakeExponent();
      var end := off;
      var isFloat := off > digits;
      if off < |s| && (s[off] == 'f' || s[off] == 'F') {
        isFloat := true;
        off := off + 1;
      }
      t := if isFloat then TkFloat(read(s[start..end])) else TkInt(Capped(NumberAt(s, start, end, 10)));
    }

    /** The rest of a string literal.  The buffer starts with 32 places and doubles; one place
        always stays free for the final NUL, and no write is outside it. */
    /** One step of a string: its end, or what the next character stands for. */
    static lemma StringStep(s: string, i: nat, line: int)
      requires i < |s|
      ensures LexString(s, i, line) ==
        if s[i] == '"' then Str("", Spot(i + 1, line), true)
        else if s[i] != '\\' then Put([s[i]], LexString(s, i + 1, line + LineStep(s[i])))
        else if i + 1 == |s| then Str("", Spot(i + 1, line), false)
        else Put(Unescape(s[i + 1]), LexString(s, i + 2, line + LineStep(s[i + 1])))
    {
      if s[i] == '\\' && i + 1 < |s| {
        var rest := LexString(s, i + 2, line + LineStep(s[i + 1]));
        assert "" + rest.text == rest.text;
      }
    }

    static lemma StringEnd(s: string, line: int)
      ensures LexString(s, |s|, line) == Str("", Spot(|s|, line), false)
    {
    }

    method TakeString() returns (text: string, closed: bool)
      requires Valid()
      modifies this`off, this`line
      ensures Valid() && Str(text, Spot(off, line), closed) == LexString(s, old(off), old(line))
    {
      hide LexString;
      var buf := new char[32];
      var n: nat := 0;
      ghost var all := LexString(s, off, line);
      closed := false;
      while off < |s|
        invariant Valid() && fresh(buf) && 32 <= buf.Length && n < buf.Length && !closed
        invariant buf[..n] + LexString(s, off, line).text == all.text
        invariant LexString(s, off, line).spot == all.spot && LexString(s, off, line).closed == all.closed
        decreases |s| - off
      {
        var piece := "";
        ghost var rest := LexString(s, off, line).text;
        ghost var seen := buf[..n];
        StringStep(s, off, line);
        if s[off] == '"' {
          off := off + 1;
          closed := true;
          break;
        }
        if s[off] != '\\' {
          piece := [s[off]];
          Getc();
        } else if off + 1 == |s| {
          off := off + 1;
          break;
        } else {
          var e := s[off + 1];
          off := off + 1;
          Getc();
          piece := Unescape(e);
        }
        assert rest == piece + LexString(s, off, line).text;
        Joined(seen, piece, LexString(s, off, line).text);
        buf, n := Store(buf, n, piece);
      }
      if off == |s| { StringEnd(s, line); }
      text := buf[..n];
    }

    /** What an escape of `e` stands for. */
    static function Unescape(e: char): (t: string)
      ensures |t| <= 2
    {
      match e
      case '"' => "\""
      case '\\' => "\\"
      case 'n' => "\n"
      case 't' => "\t"
      case '\n' => ""
      case _ => ['\\', e]
    }

    lemma Joined(a: string, b: string, c: string)
      ensures a + (b + c) == (a + b) + c
    {
    }

    /** Appends up to two characters, in a larger buffer if they and the NUL do not fit. */
    method Store(buf: array<char>, n: nat, piece: string) returns (out: array<char>, m: nat)
      requires 32 <= buf.Length && n < buf.Length && |piece| <= 2
      modifies buf
      ensures out == buf || fresh(out)
      ensures 32 <= out.Length && m < out.Length && out[..m] == old(buf[..n]) + piece
    {
      out := buf;
      if n + |piece| >= buf.Length {
        out := new char[2 * buf.Length];
        for i := 0 to n
          invariant out.Length == 2 * buf.Length && fresh(out) && buf[..n] == old(buf[..n])
          invariant forall k :: 0 <= k < i ==> out[k] == buf[k]
        {
          out[i] := buf[i];
        }
      }
      assert out[..n] == old(buf[..n]);
      m := n;
      if |piece| > 0 {
        out[m] := piece[0];
        m := m + 1;
      }
      if |piece| > 1 {
        out[m] := piece[1];
        m := m + 1;
      }
    }

    method TakeWord() returns (t: Token)
      requires off < |s| && IsIdStart(s[off])
      modifies this`off
      ensures Valid() && off == WordEnd(s, old(off) + 1) && t == WordToken(s[old(off)..off])
    {
      hide WordToken;
      var start := off;
      off := off + 1;
      while off < |s| && IsIdCont(s[off])
        invariant start < off <= |s| && WordEnd(s, off) == WordEnd(s, start + 1)
      {
        off := off + 1;
      }
      t := WordToken(s[start..off]);
    }

    /** The token at the current position, or none and an error. */
    method TakeToken() returns (t: Option<Token>)
      requires off < |s|
      modifies this
      ensures var r := TokenAt(read, s, old(off), old(line));
        t == r.tok && At(r.spot) && errors == old(errors) + r.errs
      ensures Valid()
    {
      hide LexNumber, LexString, WordToken, Symbol, WordEnd;
      if IsIdStart(s[off]) {
        var w := TakeWord();
        return Some(w);
      }
      if IsDigit(s[off]) || (s[off] == '.' && off + 1 < |s| && IsDigit(s[off + 1])) {
        var n := TakeNumber();
        return Some(n);
      }
      if s[off] == '"' {
        off := off + 1;
        var text, closed := TakeString();
        if !closed { errors := errors + 1; }
        return Some(TkString(text));
      }
      var m := Symbol(s[off], CharAt(s, off + 1));
      if m.None? {
        off := off + 1;
        errors := errors + 1;
        return None;
      }
      off := off + m.value.1;
      t := Some(m.value.0);
    }

    /** The next token and its line, past stray characters; none at the end of the text. */
    method Next() returns (t: Option<LToken>)
      requires Valid()
      modifies this
      ensures Valid()
      ensures var all := LexFrom(read, s, old(off), old(line));
        t.None? ==> all.0 == [] && errors == old(errors) + all.1
      ensures var all, rest := LexFrom(read, s, old(off), old(line)), LexFrom(read, s, off, line);
        t.Some? ==> off > old(off) && all.0 == [t.value] + rest.0 && errors + rest.1 == old(errors) + all.1
    {
      hide Skip, TokenAt, TryMarker;
      ghost var all := LexFrom(read, s, off, line);
      while true
        invariant Valid() && errors >= old(errors) && off >= old(off)
        invariant LexFrom(read, s, off, line).0 == all.0
        invariant errors + LexFrom(read, s, off, line).1 == old(errors) + all.1
        decreases |s| - off
      {
        SkipSpace();
        if off == |s| { return None; }
        var start := line;
        var tok := TakeToken();
        if tok.Some? { return Some(LToken(tok.value, start)); }
      }
    }
  }

  /** All tokens of a text. */
  method LexAll(read: FloatReader, s: string) returns (ts: seq<LToken>, errs: nat)
    ensures (ts, errs) == LexText(read, s)
  {
    hide LexFrom, LexText;
    var lx := new Lex(read, s);
    ts := [];
    ghost var all := LexText(read, s);
    var t := lx.Next();
    while t.Some?
      invariant lx.Valid() && fresh(lx)
      invariant lx.read == read && lx.s == s
      invariant t.Some? ==> ts + [t.value] + LexFrom(read, s, lx.off, lx.line).0 == all.0
      invariant t.Some? ==> lx.errors + LexFrom(read, s, lx.off, lx.line).1 == all.1
      invariant t.None? ==> ts == all.0 && lx.errors == all.1
      decreases t.Some?, |s| - lx.off
    {
      ts := ts + [t.value];
      t := lx.Next();
    }
    errs := lx.errors;
  }
}
