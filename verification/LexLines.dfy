/** Which line each token is reported on: the lexer's counter over a whole text, markers
    included, and what it says of the lines of the source files. */
module LexLines {
  import opened Syntax
  import opened Seqs
  import opened Chars
  import opened Macros
  import opened Directives
  import opened Conditionals
  import opened PreprocSpec
  import opened LineFidelity
  import opened LexSpec

  // ------------------------------------------------------------ lines of a text

  /** Where the line that holds offset `i` starts. */
  function LineStart(s: string, i: nat): (p: nat)
    requires i <= |s|
    ensures p <= i && AtLineStart(s, p)
    ensures forall k :: p <= k < i ==> s[k] != '\n'
  {
    if AtLineStart(s, i) then i else LineStart(s, i - 1)
  }

  /** The number of the line that holds offset `i`: a marker numbers the line after it, and
      any other line is one less than the next. */
  function LineOf(s: string, i: nat): int
    requires i <= |s|
    decreases i
  {
    var p := LineStart(s, i);
    if p == 0 then 1
    else
      var m := TryMarker(s, LineStart(s, p - 1));
      if m.Some? then m.value.0 else LineOf(s, p - 1) + 1
  }

  lemma {:induction false} SameLine(s: string, i: nat, j: nat)
    requires i <= j <= |s|
    requires forall k :: i <= k < j ==> s[k] != '\n'
    ensures LineStart(s, j) == LineStart(s, i) && LineOf(s, j) == LineOf(s, i)
    decreases j - i
  {
    hide TryMarker, LineOf;
    if i < j {
      SameLine(s, i, j - 1);
      LineOfStart(s, j, j - 1);
    }
  }

  lemma LineOfStart(s: string, i: nat, j: nat)
    requires i <= |s| && j <= |s| && LineStart(s, i) == LineStart(s, j)
    ensures LineOf(s, i) == LineOf(s, j)
  {
    hide TryMarker, LineStart;
  }

  lemma {:induction false} FirstOfClear(s: string, i: nat, c: char)
    requires i <= |s|
    ensures forall k :: i <= k < FirstOf(s, i, c) ==> s[k] != c
    decreases |s| - i
  {
    if i < |s| && s[i] != c { FirstOfClear(s, i + 1, c); }
  }

  lemma {:induction false} QuoteEndClear(s: string, i: nat)
    requires i <= |s|
    ensures forall k :: i <= k < QuoteEnd(s, i) ==> s[k] != '\n'
    decreases |s| - i
  {
    if i < |s| && s[i] != '"' && s[i] != '\n' { QuoteEndClear(s, i + 1); }
  }

  lemma {:induction false} DecimalClear(s: string, i: nat, v: nat)
    requires i <= |s|
    ensures forall k :: i <= k < ReadDecimal(s, i, v).1 ==> s[k] != '\n'
    decreases |s| - i
  {
    if i < |s| && IsDigit(s[i]) { DecimalClear(s, i + 1, v * 10 + (s[i] as int - '0' as int)); }
  }

  /** The stretches of a marker: blanks to the word at `j`, to the number at `d`, to what
      follows it at `q`, and a name, if there is one, to `e`. */
  lemma MarkerStretches(s: string, p: nat) returns (j: nat, d: nat, k: nat, q: nat, e: nat)
    requires p <= |s| && TryMarker(s, p).Some?
    ensures p < |s| && s[p] == '#' && j == SkipBlanks(s, p + 1) && j + 4 < |s| && s[j..j + 4] == "line"
    ensures d == SkipBlanks(s, j + 4) && k == ReadDecimal(s, d, 0).1 && k <= |s| && q == SkipBlanks(s, k)
    ensures e == if q < |s| && s[q] == '"' then QuoteEnd(s, q + 1) else q
    ensures var eol := FirstOf(s, e, '\n');
      TryMarker(s, p).value.2 == if eol < |s| then eol + 1 else eol
  {
    hide FirstOf, QuoteEnd, ReadDecimal, SkipBlanks;
    j := SkipBlanks(s, p + 1);
    d := SkipBlanks(s, j + 4);
    k := ReadDecimal(s, d, 0).1;
    q := SkipBlanks(s, k);
    e := if q < |s| && s[q] == '"' then QuoteEnd(s, q + 1) else q;
  }

  /** A marker is one line: it holds no newline but the one it ends with. */
  lemma MarkerIsLine(s: string, p: nat)
    requires p <= |s| && TryMarker(s, p).Some?
    ensures var e := TryMarker(s, p).value.2;
      && (forall k :: p <= k < e - 1 ==> s[k] != '\n')
      && (e < |s| ==> s[e - 1] == '\n')
  {
    hide TryMarker, FirstOf, QuoteEnd, ReadDecimal, SkipBlanks;
    var j, d, k, q, e := MarkerStretches(s, p);
    assert forall x :: j <= x < j + 4 ==> s[x] == s[j..j + 4][x - j];
    DecimalClear(s, d, 0);
    if q < |s| && s[q] == '"' { QuoteEndClear(s, q + 1); }
    FirstOfClear(s, e, '\n');
  }

  // ------------------------------------------------------------- the lexer's counter

  /** The counter is right at `i`, which is not in a marker. */
  ghost predicate Inside(s: string, i: nat, line: int) {
    i <= |s| && line == LineOf(s, i) && TryMarker(s, LineStart(s, i)).None?
  }

  /** The counter is right at `i`, which is not in a marker but may be where one starts. */
  ghost predicate Counted(s: string, i: nat, line: int) {
    i < |s| ==> line == LineOf(s, i) && (AtLineStart(s, i) || TryMarker(s, LineStart(s, i)).None?)
  }

  /** No marker starts between `i` and `j`. */
  predicate NoMarkers(s: string, i: nat, j: nat) {
    forall p :: i < p < j <= |s| && AtLineStart(s, p) ==> TryMarker(s, p).None?
  }

  lemma OneOn(s: string, i: nat, line: int)
    requires i < |s| && Inside(s, i, line) && (s[i] == '\n' ==> TryMarker(s, i + 1).None?)
    ensures Inside(s, i + 1, line + LineStep(s[i]))
  {
    hide TryMarker;
    if s[i] != '\n' { SameLine(s, i, i + 1); }
  }

  lemma Along(s: string, i: nat, j: nat, line: int)
    requires i <= j && Inside(s, i, line) && j <= |s|
    requires forall k :: i <= k < j ==> s[k] != '\n'
    ensures Inside(s, j, line)
  {
    hide TryMarker, LineOf, LineStart;
    SameLine(s, i, j);
  }

  lemma MarkerCounted(s: string, i: nat)
    requires i <= |s| && AtLineStart(s, i) && TryMarker(s, i).Some?
    ensures Counted(s, TryMarker(s, i).value.2, TryMarker(s, i).value.0)
  {
    hide TryMarker;
    MarkerIsLine(s, i);
    var e := TryMarker(s, i).value.2;
    if e < |s| {
      SameLine(s, i, e - 1);
      assert LineStart(s, e) == e && LineStart(s, e - 1) == i;
    }
  }

  lemma {:induction false} CommentCounted(s: string, i: nat, line: int)
    requires Inside(s, i, line) && NoMarkers(s, i, CommentEnd(s, i, line).0.off)
    ensures var r := CommentEnd(s, i, line).0; Inside(s, r.off, r.line)
    decreases |s| - i
  {
    hide Inside, TryMarker;
    assert i <= |s| by { InRange(s, i, line); }
    if i < |s| {
      NoMarkerAtEnd(s);
      if s[i] == '*' && Have(s, i + 1, '/') {
        OneOn(s, i, line);
        OneOn(s, i + 1, line);
      } else {
        OneOn(s, i, line);
        CommentCounted(s, i + 1, line + LineStep(s[i]));
      }
    }
  }

  lemma InRange(s: string, i: nat, line: int)
    requires Inside(s, i, line)
    ensures i <= |s|
  {
  }

  lemma NoMarkerAtEnd(s: string)
    ensures TryMarker(s, |s|) == None
  {
  }

  lemma {:induction false} StringCounted(s: string, i: nat, line: int)
    requires Inside(s, i, line) && NoMarkers(s, i, LexString(s, i, line).spot.off)
    ensures var r := LexString(s, i, line).spot; Inside(s, r.off, r.line)
    decreases |s| - i
  {
    hide Inside, TryMarker;
    assert i <= |s| by { InRange(s, i, line); }
    if i < |s| {
      NoMarkerAtEnd(s);
      OneOn(s, i, line);
      if s[i] != '"' && s[i] != '\\' {
        StringCounted(s, i + 1, line + LineStep(s[i]));
      } else if s[i] == '\\' && i + 1 < |s| {
        OneOn(s, i + 1, line);
        StringCounted(s, i + 2, line + LineStep(s[i + 1]));
      }
    }
  }

  /** No block comment among these blanks and comments runs over the start of a marker. */
  predicate QuietSkip(s: string, i: nat, line: int)
    requires i <= |s|
    decreases |s| - i
  {
    var m := TryMarker(s, i);
    if AtLineStart(s, i) && m.Some? then QuietSkip(s, m.value.2, m.value.0)
    else if i == |s| then true
    else if IsSpace(s[i]) then QuietSkip(s, i + 1, line + LineStep(s[i]))
    else if s[i] == '/' && Have(s, i + 1, '/') then QuietSkip(s, FirstOf(s, i, '\n'), line)
    else if s[i] == '/' && Have(s, i + 1, '*') then
      var spot := CommentEnd(s, i + 2, line).0;
      NoMarkers(s, i, spot.off) && QuietSkip(s, spot.off, spot.line)
    else true
  }

  /** From `i` on, no block comment and no string literal runs over the start of a marker. */
  predicate Quiet(read: FloatReader, s: string, i: nat, line: int)
    requires i <= |s|
    decreases |s| - i
  {
    var k := Skip(s, i, line).spot;
    && QuietSkip(s, i, line)
    && (k.off < |s| ==>
          var t := TokenAt(read, s, k.off, k.line);
          && (s[k.off] == '"' ==> NoMarkers(s, k.off, t.spot.off))
          && Quiet(read, s, t.spot.off, t.spot.line))
  }

  /** Skipping keeps the counter right, and ends outside every marker. */
  lemma {:induction false} SkipCounted(s: string, i: nat, line: int)
    requires i <= |s| && Counted(s, i, line) && QuietSkip(s, i, line)
    ensures var k := Skip(s, i, line).spot;
      k.off < |s| ==> Inside(s, k.off, k.line) && !IsSpace(s[k.off])
    decreases |s| - i
  {
    hide TryMarker, LineOf, LineStart, CommentEnd, FirstOf, NoMarkers;
    var m := TryMarker(s, i);
    if AtLineStart(s, i) && m.Some? {
      MarkerCounted(s, i);
      SkipCounted(s, m.value.2, m.value.0);
    } else if i < |s| {
      BetweenMarkers(s, i, line);
      if IsSpace(s[i]) {
        SpaceCounted(s, i, line);
        SkipCounted(s, i + 1, line + LineStep(s[i]));
      } else if s[i] == '/' && Have(s, i + 1, '/') {
        FirstOfClear(s, i, '\n');
        Along(s, i, FirstOf(s, i, '\n'), line);
        SkipCounted(s, FirstOf(s, i, '\n'), line);
      } else if s[i] == '/' && Have(s, i + 1, '*') {
        Along(s, i, i + 2, line);
        var spot := CommentEnd(s, i + 2, line).0;
        FewerMarkers(s, i, i + 2, spot.off);
        CommentCounted(s, i + 2, line);
        SkipCounted(s, spot.off, spot.line);
      }
    }
  }

  lemma BetweenMarkers(s: string, i: nat, line: int)
    requires i < |s| && Counted(s, i, line) && !(AtLineStart(s, i) && TryMarker(s, i).Some?)
    ensures Inside(s, i, line)
  {
    hide TryMarker, LineOf;
  }

  lemma SpaceCounted(s: string, i: nat, line: int)
    requires i < |s| && Inside(s, i, line)
    ensures Counted(s, i + 1, line + LineStep(s[i]))
  {
    hide TryMarker;
    if s[i] != '\n' { SameLine(s, i, i + 1); }
  }

  lemma FewerMarkers(s: string, i: nat, j: nat, k: nat)
    requires i <= j && NoMarkers(s, i, k)
    ensures NoMarkers(s, j, k)
  {
    hide TryMarker;
  }

  // ------------------------------------------------------------------- the tokens

  lemma {:induction false} DigitsClear(s: string, i: nat)
    requires i <= |s|
    ensures forall k :: i <= k < DigitsEnd(s, i) ==> s[k] != '\n'
    decreases |s| - i
  {
    if i < |s| && IsDigit(s[i]) { DigitsClear(s, i + 1); }
  }

  lemma {:induction false} HexClear(s: string, i: nat)
    requires i <= |s|
    ensures forall k :: i <= k < HexEnd(s, i) ==> s[k] != '\n'
    decreases |s| - i
  {
    if i < |s| && DigitValue(s[i]) < 16 { HexClear(s, i + 1); }
  }

  lemma NumberClear(read: FloatReader, s: string, i: nat)
    requires i < |s| && (IsDigit(s[i]) || (s[i] == '.' && i + 1 < |s| && IsDigit(s[i + 1])))
    ensures forall k :: i <= k < LexNumber(read, s, i).1 ==> s[k] != '\n'
  {
    hide DigitsEnd, HexEnd, NumberAt;
    if s[i] == '0' && (Have(s, i + 1, 'x') || Have(s, i + 1, 'X')) {
      HexClear(s, i + 2);
    } else {
      DigitsClear(s, i);
      var d := DigitsEnd(s, i);
      if Have(s, d, '.') { DigitsClear(s, d + 1); }
      ExponentClear(s, FractionEnd(s, d));
    }
  }

  lemma ExponentClear(s: string, i: nat)
    requires i <= |s|
    ensures forall k :: i <= k < ExponentEnd(s, i) ==> s[k] != '\n'
  {
    hide DigitsEnd;
    if Have(s, i, 'e') || Have(s, i, 'E') {
      DigitsClear(s, if Have(s, i + 1, '+') || Have(s, i + 1, '-') then i + 2 else i + 1);
    }
  }

  /** A token keeps the counter right. */
  lemma TokenCounted(read: FloatReader, s: string, i: nat, line: int)
    requires i < |s| && Inside(s, i, line) && !IsSpace(s[i])
    requires s[i] == '"' ==> NoMarkers(s, i, TokenAt(read, s, i, line).spot.off)
    ensures var r := TokenAt(read, s, i, line).spot; Inside(s, r.off, r.line)
  {
    hide Inside, NoMarkers, LexNumber, LexString, WordEnd, WordToken;
    if IsIdStart(s[i]) {
      Along(s, i, WordEnd(s, i + 1), line);
    } else if IsDigit(s[i]) || (s[i] == '.' && i + 1 < |s| && IsDigit(s[i + 1])) {
      NumberClear(read, s, i);
      Along(s, i, LexNumber(read, s, i).1, line);
    } else if s[i] == '"' {
      FewerMarkers(s, i, i + 1, LexString(s, i + 1, line).spot.off);
      Along(s, i, i + 1, line);
      StringCounted(s, i + 1, line);
    } else {
      SymbolClear(s[i], CharAt(s, i + 1));
      Along(s, i, TokenAt(read, s, i, line).spot.off, line);
    }
  }

  lemma SymbolClear(c: char, d: char)
    ensures var t := Symbol(c, d); t.Some? && t.value.1 == 2 ==> d != '\n'
  {
  }

  /** Where the tokens that `LexFrom` returns start. */
  function Starts(read: FloatReader, s: string, i: nat, line: int): (r: seq<nat>)
    requires i <= |s|
    ensures |r| == |LexFrom(read, s, i, line).0|
    decreases |s| - i
  {
    var k := Skip(s, i, line).spot;
    if k.off == |s| then []
    else
      var t := TokenAt(read, s, k.off, k.line);
      (if t.tok.Some? then [k.off] else []) + Starts(read, s, t.spot.off, t.spot.line)
  }

  ghost predicate OnTheirLines(s: string, starts: seq<nat>, ts: seq<LToken>) {
    |starts| == |ts| && forall j :: 0 <= j < |ts| ==> starts[j] < |s| && ts[j].line == LineOf(s, starts[j])
  }

  lemma MoreOnTheirLines(s: string, a: seq<nat>, b: seq<nat>, ta: seq<LToken>, tb: seq<LToken>)
    requires OnTheirLines(s, a, ta) && OnTheirLines(s, b, tb)
    ensures OnTheirLines(s, a + b, ta + tb)
  {
    hide LineOf;
  }

  /** Every token is reported on the line it starts on, as the markers number the lines. */
  lemma {:induction false} TokensCounted(read: FloatReader, s: string, i: nat, line: int)
    requires i <= |s| && Counted(s, i, line) && Quiet(read, s, i, line)
    ensures OnTheirLines(s, Starts(read, s, i, line), LexFrom(read, s, i, line).0)
    decreases |s| - i
  {
    hide Skip, QuietSkip, TokenAt, LineOf, LineStart, TryMarker, NoMarkers;
    var k := Skip(s, i, line).spot;
    SkipCounted(s, i, line);
    if k.off < |s| {
      TokenCounted(read, s, k.off, k.line);
      var t := TokenAt(read, s, k.off, k.line);
      TokensCounted(read, s, t.spot.off, t.spot.line);
      var start: seq<nat> := if t.tok.Some? then [k.off] else [];
      var token := if t.tok.Some? then [LToken(t.tok.value, k.line)] else [];
      MoreOnTheirLines(s, start, Starts(read, s, t.spot.off, t.spot.line),
                       token, LexFrom(read, s, t.spot.off, t.spot.line).0);
    }
  }

  // ------------------------------------------------------ lines of the source files

  lemma {:induction false} RenderJoin(a: seq<OutLine>, b: seq<OutLine>)
    ensures Render(a + b) == Render(a) + Render(b)
    decreases |a|
  {
    hide RenderLine;
    if a == [] {
      assert a + b == b;
    } else {
      assert (a + b)[1..] == a[1..] + b;
      RenderJoin(a[1..], b);
    }
  }

  /** Line `k` of the output is rendered where the lines before it end. */
  lemma LineThere(out: seq<OutLine>, k: nat)
    requires k < |out|
    ensures var o := |Render(out[..k])|;
      && At(Render(out), o, RenderLine(out[k]))
      && |Render(out[..k + 1])| == o + |RenderLine(out[k])| <= |Render(out)|
  {
    hide RenderLine;
    var l, rest := out[k], out[k + 1..];
    assert out == out[..k] + ([l] + rest);
    RenderJoin(out[..k], [l] + rest);
    RenderJoin([l], rest);
    OneRendered(l);
    assert Render(out) == Render(out[..k]) + (RenderLine(l) + Render(rest));
    assert out[..k + 1] == out[..k] + [l];
    RenderJoin(out[..k], [l]);
    RenderedAt(Render(out[..k]), RenderLine(l), Render(rest));
  }

  lemma RenderedAt(a: string, b: string, c: string)
    ensures At(a + (b + c), |a|, b)
  {
    assert (a + (b + c))[|a|..|a| + |b|] == b;
  }

  /** In the rendered text every output line stands after the ones before it, and is
      numbered as the lines before it say. */
  lemma {:induction false} RenderedLine(out: seq<OutLine>, k: nat)
    requires Clean(out) && k <= |out|
    ensures var s, o := Render(out), |Render(out[..k])|;
      && o <= |s| && AtLineStart(s, o) && LineOf(s, o) == LineAfter(out[..k])
      && (k < |out| ==> At(s, o, RenderLine(out[k])))
    decreases k
  {
    hide Render, RenderLine, TryMarker, LineOf, LineAfter, At, CleanLine;
    assert out[..|out|] == out;
    if k < |out| { LineThere(out, k); }
    if k == 0 {
      NothingRendered(out);
      FirstLine(Render(out));
    } else {
      LineThere(out, k - 1);
      RenderedLine(out, k - 1);
      assert out[..k] == out[..k - 1] + [out[k - 1]];
      NextLine(Render(out), |Render(out[..k - 1])|, out[k - 1], out[..k - 1]);
    }
  }

  lemma NothingRendered(out: seq<OutLine>)
    ensures Render(out[..0]) == "" && LineAfter(out[..0]) == 1
  {
  }

  lemma OneRendered(l: OutLine)
    ensures Render([l]) == RenderLine(l)
  {
    hide RenderLine;
    assert Render([l]) == RenderLine([l][0]) + Render([l][1..]);
  }

  lemma FirstLine(s: string)
    ensures LineOf(s, 0) == 1 && LineAfter([]) == 1
  {
  }

  lemma NextLine(s: string, i: nat, l: OutLine, before: seq<OutLine>)
    requires At(s, i, RenderLine(l)) && CleanLine(l) && AtLineStart(s, i) && LineOf(s, i) == LineAfter(before)
    ensures var e := i + |RenderLine(l)|;
      e <= |s| && AtLineStart(s, e) && LineOf(s, e) == LineAfter(before + [l])
  {
    hide RenderLine, TryMarker, LineAfter, FirstOf, At, CleanLine;
    var e := i + |RenderLine(l)|;
    StepRender(s, i, l);
    LineClear(s, i, l);
    SameLine(s, i, e - 1);
    assert LineStart(s, e - 1) == i && LineStart(s, e) == e;
    match l
    case Marker(n, f) => AfterMarker(before, n, f);
    case Code(t) => AfterCode(before, t);
  }

  /** An output line holds no newline but the one it ends with. */
  lemma LineClear(s: string, i: nat, l: OutLine)
    requires At(s, i, RenderLine(l)) && CleanLine(l)
    ensures var e := i + |RenderLine(l)|;
      i < e <= |s| && s[e - 1] == '\n' && forall k :: i <= k < e - 1 ==> s[k] != '\n'
  {
    var r := RenderLine(l);
    if l.Marker? { DecimalIsDigits(l.line); }
    AtElements(s, i, r);
    assert r[|r| - 1] == '\n';
    assert forall k :: 0 <= k < |r| - 1 ==> r[k] != '\n';
  }

  lemma {:induction false} DecimalIsDigits(n: nat)
    ensures forall k :: 0 <= k < |Decimal(n)| ==> IsDigit(Decimal(n)[k])
    decreases n
  {
    if n >= 10 { DecimalIsDigits(n / 10); }
  }

  /** A token that lies in the text of one output line is reported on the line that the
      output lines before it lead to. */
  lemma TokenInLine(read: FloatReader, out: seq<OutLine>, before: seq<OutLine>, text: string, j: nat)
    requires Clean(out) && before + [Code(text)] <= out
    requires Quiet(read, Render(out), 0, 1)
    requires j < |LexFrom(read, Render(out), 0, 1).0|
    requires var o := Starts(read, Render(out), 0, 1)[j];
             |Render(before)| <= o < |Render(before + [Code(text)])|
    ensures LexFrom(read, Render(out), 0, 1).0[j].line == LineAfter(before)
  {
    hide Quiet, Clean, Render, LexFrom, Starts, LineOf, LineAfter, RenderLine;
    var s, k := Render(out), |before|;
    assert out[..k] == before && out[k] == Code(text);
    RenderedLine(out, k);
    RenderJoin(before, [Code(text)]);
    OneRendered(Code(text));
    var i, o := |Render(before)|, Starts(read, s, 0, 1)[j];
    CleanAt(out, k);
    LineClear(s, i, Code(text));
    SameLine(s, i, o);
    StartsCounted(s);
    TokensCounted(read, s, 0, 1);
    assert OnTheirLines(s, Starts(read, s, 0, 1), LexFrom(read, s, 0, 1).0);
  }

  lemma CleanAt(out: seq<OutLine>, k: nat)
    requires Clean(out) && k < |out|
    ensures CleanLine(out[k])
  {
  }

  lemma StartsCounted(s: string)
    ensures Counted(s, 0, 1)
  {
    hide TryMarker;
  }

  /** What has been written stays written. */
  lemma {:induction false} LineKeepsOutput(fs: Files, path: string, depth: nat, line: string, lineNo: nat, s: Flat)
    requires depth < MAX_INCLUDE
    ensures s.core.out <= ProcessLine(fs, path, depth, line, lineNo, s).core.out
    decreases MAX_INCLUDE - depth, 0, 0
  {
    hide Classify, ProcessFile, IncludeTarget, Step;
    var target := IncludeTarget(fs, path, line, s);
    if target.None? {
      OneLineOut(fs, path, depth, line, lineNo, s);
    } else {
      TargetIsInclude(fs, path, line, s);
      FileKeepsOutput(fs, target.value, depth + 1, s);
    }
  }

  lemma {:induction false} FileKeepsOutput(fs: Files, path: string, depth: nat, s: Flat)
    requires depth <= MAX_INCLUDE
    ensures s.core.out <= ProcessFile(fs, path, depth, s).flat.core.out
    decreases MAX_INCLUDE - depth, 1
  {
    hide ProcessLines, LinesFrom;
    if depth < MAX_INCLUDE && path in fs.text {
      LinesKeepOutput(fs, path, depth, LinesFrom(fs.text[path], 0), 1, Out(s, Marker(1, path)));
    }
  }

  lemma {:induction false} LinesKeepOutput(fs: Files, path: string, depth: nat, lines: seq<string>, lineNo: nat,
                                           s: Flat)
    requires depth < MAX_INCLUDE
    ensures s.core.out <= ProcessLines(fs, path, depth, lines, lineNo, s).core.out
    decreases MAX_INCLUDE - depth, 0, |lines|, 1
  {
    hide ProcessLine;
    if lines != [] {
      LineKeepsOutput(fs, path, depth, lines[0], lineNo, s);
      LinesKeepOutput(fs, path, depth, lines[1..], lineNo + 1, ProcessLine(fs, path, depth, lines[0], lineNo, s));
    }
  }

  lemma {:induction false} LaterKeepsOutput(fs: Files, path: string, depth: nat, lines: seq<string>, k: nat, n: nat,
                                            s: Flat)
    requires depth < MAX_INCLUDE && k <= n <= |lines|
    ensures StateBefore(fs, path, depth, lines, k, s).core.out <= StateBefore(fs, path, depth, lines, n, s).core.out
    decreases n
  {
    hide ProcessLine;
    if k < n {
      LaterKeepsOutput(fs, path, depth, lines, k, n - 1, s);
      LineKeepsOutput(fs, path, depth, lines[n - 1], n, StateBefore(fs, path, depth, lines, n - 1, s));
    }
  }

  /** The line a token of source line `k` (from 0) of a file is reported on, in the output of
      any run the file is part of: `k + 1`, unless an `#include` of the file was followed
      before, and then `k + 2`. */
  lemma SourceLine(read: FloatReader, fs: Files, path: string, depth: nat, lines: seq<string>, s: Flat, k: nat,
                   out: seq<OutLine>, j: nat)
    requires depth < MAX_INCLUDE && k < |lines|
    requires LineAfter(s.core.out) == 1 && FileAfter(s.core.out) == Some(path)
    requires IncludeTarget(fs, path, lines[k], StateBefore(fs, path, depth, lines, k, s)).None?
    requires StateBefore(fs, path, depth, lines, k + 1, s).core.out <= out
    requires Clean(out) && Quiet(read, Render(out), 0, 1)
    requires j < |LexFrom(read, Render(out), 0, 1).0|
    requires |Render(StateBefore(fs, path, depth, lines, k, s).core.out)| <= Starts(read, Render(out), 0, 1)[j]
             < |Render(StateBefore(fs, path, depth, lines, k + 1, s).core.out)|
    ensures LexFrom(read, Render(out), 0, 1).0[j].line
      == k + 1 + (if IncludedBefore(fs, path, depth, lines, k, s) then 1 else 0)
  {
    hide LineAfter, FileAfter, IncludeTarget, ProcessLine, Clean, Quiet, Render, LexFrom, Starts, IncludedBefore;
    var here := StateBefore(fs, path, depth, lines, k, s);
    OneLineOut(fs, path, depth, lines[k], k + 1, here);
    var text :| ProcessLine(fs, path, depth, lines[k], k + 1, here).core.out == here.core.out + [Code(text)];
    TokenInLine(read, out, here.core.out, text, j);
    LineNumbers(fs, path, depth, lines, k, s);
  }

  // ------------------------------------------------------ the file that is compiled

  /** The text that preprocessing a file gives the lexer. */
  function TextOf(fs: Files, path: string, macros: Table): string {
    Render(Preprocessed(fs, path, macros))
  }

  function Preprocessed(fs: Files, path: string, macros: Table): seq<OutLine> {
    ProcessFile(fs, path, 0, Flat(Core(macros, [], 0), [])).flat.core.out
  }

  /** The state before line `k` of the file. */
  function Before(fs: Files, path: string, macros: Table, k: nat): Flat
    requires path in fs.text && k <= |LinesFrom(fs.text[path], 0)|
  {
    StateBefore(fs, path, 0, LinesFrom(fs.text[path], 0), k, Flat(Core(macros, [Marker(1, path)], 0), []))
  }

  /** Token `j` of the text comes from line `k` of the file, which is no `#include`, or one
      that is not followed. */
  predicate ComesFrom(read: FloatReader, fs: Files, path: string, macros: Table, k: nat, j: nat)
    requires path in fs.text
  {
    var lines := LinesFrom(fs.text[path], 0);
    var starts := Starts(read, TextOf(fs, path, macros), 0, 1);
    && k < |lines| && j < |starts|
    && IncludeTarget(fs, path, lines[k], Before(fs, path, macros, k)).None?
    && |Render(Before(fs, path, macros, k).core.out)| <= starts[j]
       < |Render(Before(fs, path, macros, k + 1).core.out)|
  }

  /** End to end, from the file through the preprocessor and the lexer: a token of line `k`
      (from 0) is reported on line `k + 1`, or `k + 2` after a followed `#include`. */
  lemma MainFileLine(read: FloatReader, fs: Files, path: string, macros: Table, k: nat, j: nat)
    requires path in fs.text && ComesFrom(read, fs, path, macros, k, j)
    requires Clean(Preprocessed(fs, path, macros)) && Quiet(read, TextOf(fs, path, macros), 0, 1)
    ensures var s := Flat(Core(macros, [Marker(1, path)], 0), []);
      var tokens := LexText(read, TextOf(fs, path, macros)).0;
      && j < |tokens|
      && tokens[j].line
           == k + 1 + (if IncludedBefore(fs, path, 0, LinesFrom(fs.text[path], 0), k, s) then 1 else 0)
  {
    hide LineAfter, FileAfter, IncludeTarget, ProcessLines, Clean, Quiet, Render, LexFrom, Starts, StateBefore,
         IncludedBefore, LinesFrom;
    var lines, s := LinesFrom(fs.text[path], 0), Flat(Core(macros, [Marker(1, path)], 0), []);
    var out := Preprocessed(fs, path, macros);
    AfterMarker([], 1, path);
    assert [] + [Marker(1, path)] == [Marker(1, path)];
    RunIsLastState(fs, path, 0, lines, s);
    LaterKeepsOutput(fs, path, 0, lines, k + 1, |lines|, s);
    SourceLine(read, fs, path, 0, lines, s, k, out, j);
    LinesKeepOutput(fs, path, 0, lines, 1, s);
    NoByteOrderMark(read, out);
  }

  /** A text that starts with a marker is lexed from its first character. */
  lemma NoByteOrderMark(read: FloatReader, out: seq<OutLine>)
    requires out != [] && out[0].Marker?
    ensures LexText(read, Render(out)) == LexFrom(read, Render(out), 0, 1)
  {
    hide LexFrom;
    assert Render(out) == RenderLine(out[0]) + Render(out[1..]);
    assert Render(out)[0] == '#';
  }
}
