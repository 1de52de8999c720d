/** Markers as they are written and as they are read. */
module MarkerText {
  import opened Syntax
  import opened Chars
  import opened Directives
  import opened Conditionals
  import opened DirectiveText
  import opened LineFidelity
  import opened LexLanguage
  import IfNumbers

  /** A file name between quotes; the second quote may be missing at the end of a line. */
  datatype Quote = Quote(name: string, closed: bool)

  /** A line that starts with `#`, the word `line` and blanks: a number, which may be missing,
      a file name, if there is one, and anything. */
  datatype MarkerLine = MarkerLine(inside: string, gap: string, digits: seq<Digit>, after: string, file: Option<Quote>,
                                   rest: string)

  function QuoteText(file: Option<Quote>): string {
    if file.None? then "" else "\"" + (file.value.name + if file.value.closed then "\"" else "")
  }

  /** What stands after the number, and what after the word. */
  function AfterNumber(m: MarkerLine): string {
    m.after + (QuoteText(m.file) + m.rest)
  }

  function MarkerLineText(m: MarkerLine): string {
    "#" + (m.inside + ("line" + (m.gap + (Decimals(m.digits) + AfterNumber(m)))))
  }

  predicate NoneIn(s: string, c: char) {
    forall k :: 0 <= k < |s| ==> s[k] != c
  }

  predicate MarkerOk(m: MarkerLine) {
    && Gap(m.inside) && Gap(m.gap) && m.gap != "" && AreDecimals(m.digits) && Gap(m.after) && NoneIn(m.rest, '\n')
    && match m.file
       case None =>
         && Starts(m.rest) && (m.rest == "" || m.rest[0] != '"') && NoDigit(m.after + m.rest)
         && (m.digits == [] ==> m.after == "")
       case Some(f) =>
         && NoneIn(f.name, '"') && NoneIn(f.name, '\n') && (!f.closed ==> m.rest == "")
         && (m.digits == [] ==> m.after == "")
  }

  /** Whatever number `v` has been read, the digits go on with it. */
  lemma {:induction false} DigitsGoOn(s: string, i: nat, ds: seq<Digit>, rest: string, v: nat)
    requires AreDecimals(ds) && i <= |s| && s[i..] == Decimals(ds) + rest && NoDigit(rest)
    ensures ReadDecimal(s, i, v) == (v * IfNumbers.Power(10, |ds|) + IfNumbers.Worth(ds, 10), i + |ds|)
    decreases |ds|
  {
    hide IfNumbers.DigitText;
    if ds == [] {
      if rest != "" { Dropped(s, i, rest, ""); }
    } else {
      var c := IfNumbers.DigitText(IfNumbers.Decimal, ds[0]);
      assert Decimals(ds) == [c] + Decimals(ds[1..]);
      assert s[i..] == [c] + (Decimals(ds[1..]) + rest);
      Dropped(s, i, [c], Decimals(ds[1..]) + rest);
      DecimalChar(ds[0]);
      DigitsGoOn(s, i + 1, ds[1..], rest, v * 10 + ds[0]);
      Scaled(v, ds[0], IfNumbers.Power(10, |ds| - 1));
    }
  }

  lemma DecimalChar(d: Digit)
    requires d < 10
    ensures var c := IfNumbers.DigitText(IfNumbers.Decimal, d); IsDigit(c) && c as int - '0' as int == d
  {
    DecimalIsDigit(d);
    IfNumbers.DigitWorth(IfNumbers.Decimal, d);
  }

  lemma Scaled(v: nat, d: nat, p: nat)
    ensures (v * 10 + d) * p == v * (10 * p) + d * p
  {
  }

  lemma {:induction false} QuoteEndAt(s: string, i: nat, j: nat)
    requires i <= j <= |s| && (forall k :: i <= k < j ==> s[k] != '"' && s[k] != '\n')
    requires j < |s| ==> s[j] == '"' || s[j] == '\n'
    ensures QuoteEnd(s, i) == j
    decreases j - i
  {
    if i < j { QuoteEndAt(s, i + 1, j); }
  }

  /** The end of the line, from any place in it. */
  lemma LineEnds(s: string, i: nat, text: string, tail: string)
    requires i <= |s| && s[i..] == text + tail && NoneIn(text, '\n') && (tail == "" || tail[0] == '\n')
    ensures FirstOf(s, i, '\n') == i + |text| == |s| - |tail|
  {
    hide FirstOf;
    Dropped(s, i, text, tail);
    DroppedChars(s, i, text, tail);
    FirstOfAt(s, i, i + |text|, '\n');
  }

  /** The file after the number, and where the line ends. */
  lemma FileRead(s: string, q: nat, file: Option<Quote>, rest: string, tail: string) returns (e: nat)
    requires q <= |s| && s[q..] == QuoteText(file) + (rest + tail) && NoneIn(rest, '\n')
    requires tail == "" || tail[0] == '\n'
    requires match file
             case None => rest == "" || rest[0] != '"'
             case Some(f) => NoneIn(f.name, '"') && NoneIn(f.name, '\n') && (!f.closed ==> rest == "")
    ensures (q < |s| && s[q] == '"') <==> file.Some?
    ensures if file.Some? then e == QuoteEnd(s, q + 1) == q + 1 + |file.value.name| && s[q + 1..e] == file.value.name
            else e == q
    ensures e <= |s| && FirstOf(s, e, '\n') == |s| - |tail|
  {
    hide QuoteEnd, FirstOf, NoneIn;
    match file
    case None =>
      e := q;
      NoQuote(s, q, rest, tail);
      LineEnds(s, e, rest, tail);
    case Some(f) =>
      e := QuoteRead(s, q, f.name, if f.closed then "\"" else "", rest, tail);
  }

  lemma NoQuote(s: string, q: nat, rest: string, tail: string)
    requires q <= |s| && s[q..] == "" + (rest + tail)
    requires (tail == "" || tail[0] == '\n') && (rest == "" || rest[0] != '"')
    ensures s[q..] == rest + tail && (q < |s| ==> s[q] != '"')
  {
    assert s[q..] == rest + tail;
    if rest + tail != "" { Dropped(s, q, rest + tail, ""); }
  }

  lemma QuoteRead(s: string, q: nat, name: string, close: string, rest: string, tail: string) returns (e: nat)
    requires q <= |s| && s[q..] == ("\"" + (name + close)) + (rest + tail) && (tail == "" || tail[0] == '\n')
    requires NoneIn(rest, '\n') && NoneIn(name, '"') && NoneIn(name, '\n')
    requires close == "\"" || (close == "" && rest == "")
    ensures q < |s| && s[q] == '"' && e == QuoteEnd(s, q + 1) == q + 1 + |name| <= |s| && s[q + 1..e] == name
    ensures FirstOf(s, e, '\n') == |s| - |tail|
  {
    hide QuoteEnd, FirstOf;
    var line := close + rest;
    assert s[q..] == "\"" + (name + (line + tail));
    Dropped(s, q, "\"", name + (line + tail));
    Dropped(s, q + 1, name, line + tail);
    DroppedChars(s, q + 1, name, line + tail);
    e := q + 1 + |name|;
    QuoteEndAt(s, q + 1, e);
    LineEnds(s, e, line, tail);
  }

  lemma NumberEnds(m: MarkerLine, tail: string)
    requires MarkerOk(m) && (tail == "" || tail[0] == '\n')
    ensures NoDigit(AfterNumber(m) + tail)
    ensures var next := QuoteText(m.file) + (m.rest + tail);
      Starts(next) && AfterNumber(m) + tail == m.after + next
    ensures m.digits != [] || m.after == ""
  {
    hide Decimals;
    var next := QuoteText(m.file) + (m.rest + tail);
    assert AfterNumber(m) + tail == m.after + next;
  }

  /** A marker is read as what is written: its number and its file, unless its name is too
      long, and the line it takes. */
  lemma MarkerSpelled(s: string, i: nat, m: MarkerLine, tail: string)
    requires MarkerOk(m) && i <= |s| && s[i..] == MarkerLineText(m) + tail && (tail == "" || tail[0] == '\n')
    ensures TryMarker(s, i) ==
            Some((IfNumbers.Worth(m.digits, 10),
                  if m.file.Some? && |m.file.value.name| < 1024 then m.file.value.name else "",
                  if tail == "" then |s| else |s| - |tail| + 1))
  {
    hide MarkerFrom, SkipBlanks, MarkerOk, Decimals, AfterNumber, Gap, Starts, TryMarker, MarkerLineText;
    var last := Decimals(m.digits) + (AfterNumber(m) + tail);
    MarkerLineParts(m, tail);
    OkGaps(m);
    var j := WordFound(s, i, m.inside, m.gap, last);
    NumberFileRead(s, j + 4, m, tail);
    MarkerStep(s, i, j);
  }

  lemma MarkerLineParts(m: MarkerLine, tail: string)
    ensures MarkerLineText(m) + tail
      == "#" + (m.inside + ("line" + (m.gap + (Decimals(m.digits) + (AfterNumber(m) + tail)))))
  {
    hide Decimals, AfterNumber;
  }

  lemma WordFound(s: string, i: nat, inside: string, gap: string, last: string) returns (j: nat)
    requires i <= |s| && s[i..] == "#" + (inside + ("line" + (gap + last)))
    requires Gap(inside) && gap != "" && IsBlank(gap[0])
    ensures i < |s| && s[i] == '#' && j == SkipBlanks(s, i + 1)
    ensures j + 4 < |s| && s[j..j + 4] == "line" && IsBlank(s[j + 4]) && s[j + 4..] == gap + last
  {
    hide SkipBlanks, Gap, Starts, IsBlank;
    Dropped(s, i, "#", inside + ("line" + (gap + last)));
    LineStarts(gap + last);
    BlanksPassed(s, i + 1, inside, "line" + (gap + last));
    j := i + 1 + |inside|;
    Dropped(s, j, "line", gap + last);
    Dropped(s, j + 4, gap, last);
  }

  lemma MarkerStep(s: string, i: nat, j: nat)
    requires i < |s| && s[i] == '#' && j == SkipBlanks(s, i + 1)
    requires j + 4 < |s| && s[j..j + 4] == "line" && IsBlank(s[j + 4])
    ensures TryMarker(s, i) == Some(MarkerFrom(s, j + 4))
  {
    hide SkipBlanks, MarkerFrom, IsBlank;
  }

  lemma LineStarts(after: string)
    ensures Starts("line" + after)
  {
  }

  lemma OkGaps(m: MarkerLine)
    requires MarkerOk(m)
    ensures Gap(m.inside) && Gap(m.gap) && m.gap != "" && IsBlank(m.gap[0])
  {
  }

  lemma NumberFileRead(s: string, i: nat, m: MarkerLine, tail: string)
    requires MarkerOk(m) && i <= |s| && s[i..] == m.gap + (Decimals(m.digits) + (AfterNumber(m) + tail))
    requires tail == "" || tail[0] == '\n'
    ensures MarkerFrom(s, i) ==
            (IfNumbers.Worth(m.digits, 10),
             if m.file.Some? && |m.file.value.name| < 1024 then m.file.value.name else "",
             if tail == "" then |s| else |s| - |tail| + 1)
  {
    hide SkipBlanks, ReadDecimal, Decimals, AfterNumber, IfNumbers.Worth, QuoteText, MarkerFrom, FirstOf, QuoteEnd;
    var k, q := NumberRead(s, i, m, tail);
    var e := FileRead(s, q, m.file, m.rest, tail);
    FileStep(s, i, k, q, IfNumbers.Worth(m.digits, 10), e, m.file);
  }

  /** The number, and where the file name stands. */
  lemma NumberRead(s: string, i: nat, m: MarkerLine, tail: string) returns (k: nat, q: nat)
    requires MarkerOk(m) && i <= |s| && s[i..] == m.gap + (Decimals(m.digits) + (AfterNumber(m) + tail))
    requires tail == "" || tail[0] == '\n'
    ensures ReadDecimal(s, SkipBlanks(s, i), 0) == (IfNumbers.Worth(m.digits, 10), k) && k <= |s|
    ensures q == SkipBlanks(s, k) && s[q..] == QuoteText(m.file) + (m.rest + tail)
  {
    hide SkipBlanks, ReadDecimal, Decimals, AfterNumber, Gap, Starts, IfNumbers.Worth, QuoteText, NoneIn, NoDigit;
    var next := QuoteText(m.file) + (m.rest + tail);
    var last := AfterNumber(m) + tail;
    NumberEnds(m, tail);
    DigitsStart(m.digits, last, m.after, next);
    k := DigitsAt(s, i, m.gap, m.digits, last);
    BlanksPassed(s, k, m.after, next);
    q := k + |m.after|;
  }

  lemma DigitsAt(s: string, i: nat, gap: string, ds: seq<Digit>, last: string) returns (k: nat)
    requires i <= |s| && s[i..] == gap + (Decimals(ds) + last) && Gap(gap) && AreDecimals(ds) && NoDigit(last)
    requires Starts(Decimals(ds) + last)
    ensures ReadDecimal(s, SkipBlanks(s, i), 0) == (IfNumbers.Worth(ds, 10), k) && k <= |s| && s[k..] == last
  {
    hide SkipBlanks, ReadDecimal, Decimals, Gap, Starts, IfNumbers.Worth, NoDigit, AreDecimals;
    BlanksPassed(s, i, gap, Decimals(ds) + last);
    var p := i + |gap|;
    DigitsGoOn(s, p, ds, last, 0);
    DecimalsLength(ds);
    Dropped(s, p, Decimals(ds), last);
    k := p + |ds|;
  }

  lemma BlanksPassed(s: string, i: nat, gap: string, rest: string)
    requires i <= |s| && s[i..] == gap + rest && Gap(gap) && Starts(rest)
    ensures SkipBlanks(s, i) == i + |gap| <= |s| && s[i + |gap|..] == rest
  {
    hide SkipBlanks, Gap, Starts;
    GapSkipped(s, i, gap, rest);
    Dropped(s, i, gap, rest);
  }

  lemma FileStep(s: string, i: nat, k: nat, q: nat, n: nat, e: nat, file: Option<Quote>)
    requires i <= |s| && ReadDecimal(s, SkipBlanks(s, i), 0) == (n, k) && k <= |s| && q == SkipBlanks(s, k)
    requires (q < |s| && s[q] == '"') <==> file.Some?
    requires if file.Some? then e == QuoteEnd(s, q + 1) == q + 1 + |file.value.name| && s[q + 1..e] == file.value.name
             else e == q
    ensures var eol := FirstOf(s, e, '\n');
      MarkerFrom(s, i) ==
      (n, if file.Some? && |file.value.name| < 1024 then file.value.name else "", if eol < |s| then eol + 1 else eol)
  {
    hide SkipBlanks, ReadDecimal, FirstOf, QuoteEnd;
  }

  lemma DecimalsLength(ds: seq<Digit>)
    ensures |Decimals(ds)| == |ds|
  {
  }

  lemma DigitsStart(ds: seq<Digit>, rest: string, after: string, next: string)
    requires AreDecimals(ds) && rest == after + next && Starts(next) && (ds != [] || after == "")
    ensures Starts(Decimals(ds) + rest)
  {
    hide IfNumbers.DigitText, IsDigit;
    if ds == [] {
      assert Decimals(ds) + rest == next;
    } else {
      DecimalIsDigit(ds[0]);
      DigitNoBlank(IfNumbers.DigitText(IfNumbers.Decimal, ds[0]));
      assert (Decimals(ds) + rest)[0] == IfNumbers.DigitText(IfNumbers.Decimal, ds[0]);
    }
  }

  lemma DigitNoBlank(c: char)
    requires IsDigit(c)
    ensures !IsBlank(c)
  {
  }

  /** Other lines are no markers. */
  lemma NoMarkerSpelled(s: string, i: nat, inside: string, rest: string)
    requires i <= |s| && s[i..] == "#" + (inside + rest) && Gap(inside) && Starts(rest)
    requires !(|rest| > 4 && rest[..4] == "line" && rest[4] in [' ', '\t'])
    ensures TryMarker(s, i).None?
  {
    hide MarkerFrom, SkipBlanks;
    Dropped(s, i, "#", inside + rest);
    GapSkipped(s, i + 1, inside, rest);
    Dropped(s, i + 1, inside, rest);
    var j := i + 1 + |inside|;
    if j + 4 < |s| { assert s[j..][..4] == s[j..j + 4] && s[j..][4] == s[j + 4]; }
  }

  // ------------------------------------------------------------------ what is rendered

  /** The digits of a number, without zeros in front. */
  lemma {:induction false} DecimalSpelled(n: nat) returns (ds: seq<Digit>)
    ensures AreDecimals(ds) && ds != [] && (ds[0] == 0 ==> ds == [0])
    ensures Decimal(n) == Decimals(ds) && IfNumbers.Worth(ds, 10) == n
    decreases n
  {
    hide IfNumbers.DigitText;
    if n < 10 {
      ds := [n];
      SameDigit(n);
      assert Decimals(ds) == [IfNumbers.DigitText(IfNumbers.Decimal, n)];
      OneWorth(n);
    } else {
      var front := DecimalSpelled(n / 10);
      ds := front + [n % 10];
      SameDigit(n % 10);
      assert ds[..|ds| - 1] == front;
      IfNumbers.WorthLast(ds, 10);
      assert Decimals(ds) == Decimals(front) + [IfNumbers.DigitText(IfNumbers.Decimal, n % 10)];
      NoZeroFront(n, front);
    }
  }

  lemma NoZeroFront(n: nat, front: seq<Digit>)
    requires n >= 10 && front != [] && (front[0] == 0 ==> front == [0]) && IfNumbers.Worth(front, 10) == n / 10
    ensures front[0] != 0
  {
    if front[0] == 0 { OneWorth(0); }
  }

  lemma OneWorth(d: nat)
    ensures IfNumbers.Worth([d], 10) == d
  {
    assert [d][1..] == [];
    assert IfNumbers.Power(10, 0) == 1;
  }

  lemma SameDigit(d: nat)
    requires d < 10
    ensures DigitChar(d) == IfNumbers.DigitText(IfNumbers.Decimal, d)
  {
    DecimalChar(d);
  }

  /** A marker is written as `#line`, its number, its file between quotes, and a newline; a line
      of code as itself and a newline. */
  lemma RenderSpelled(n: nat, f: string, t: string) returns (ds: seq<Digit>)
    ensures AreDecimals(ds) && ds != [] && (ds[0] == 0 ==> ds == [0]) && IfNumbers.Worth(ds, 10) == n
    ensures RenderLine(Marker(n, f)) == "#line " + Decimals(ds) + " \"" + f + "\"\n"
    ensures RenderLine(Code(t)) == t + "\n"
  {
    hide Decimal, Decimals;
    ds := DecimalSpelled(n);
  }
}
