/** Which line numbers the lexer sees for the lines of a preprocessed file. */
module LineFidelity {
  import opened Syntax
  import opened Seqs
  import opened Chars
  import opened Directives
  import opened Conditionals
  import opened PreprocSpec

  // --------------------------------------------------------- line by line

  /** The lexer's line counter after these lines: a marker sets it, any other line advances it. */
  function LineAfter(out: seq<OutLine>): int {
    if out == [] then 1
    else match out[|out| - 1]
      case Marker(n, _) => n
      case Code(_) => LineAfter(out[..|out| - 1]) + 1
  }

  /** The file that the last marker names. */
  function FileAfter(out: seq<OutLine>): Option<string> {
    if out == [] then None
    else match out[|out| - 1]
      case Marker(_, f) => Some(f)
      case Code(_) => FileAfter(out[..|out| - 1])
  }

  /** The lexer stores at most this many file names. */
  const FILES_MAX: nat := 256

  /** The different files that markers name, in the order in which they first appear. */
  function FilesIn(out: seq<OutLine>): seq<string> {
    if out == [] then []
    else
      var names := FilesIn(out[..|out| - 1]);
      match out[|out| - 1]
      case Marker(_, f) => if f in names then names else names + [f]
      case Code(_) => names
  }

  /** The names that the lexer has stored after these lines. */
  function Stored(out: seq<OutLine>): seq<string> {
    if out == [] then []
    else
      var names := Stored(out[..|out| - 1]);
      match out[|out| - 1]
      case Marker(_, f) => if f in names || |names| >= FILES_MAX then names else names + [f]
      case Code(_) => names
  }

  /** The file the lexer thinks it is in: a marker whose name is not stored leaves it. */
  function FileTracked(out: seq<OutLine>): Option<string> {
    if out == [] then None
    else match out[|out| - 1]
      case Marker(_, f) => if f in Stored(out) then Some(f) else FileTracked(out[..|out| - 1])
      case Code(_) => FileTracked(out[..|out| - 1])
  }

  lemma {:induction false} StoredAll(out: seq<OutLine>)
    ensures |FilesIn(out)| <= FILES_MAX ==> Stored(out) == FilesIn(out)
    ensures |FilesIn(out)| > FILES_MAX ==> |Stored(out)| == FILES_MAX
    ensures FileTracked(out).Some? ==> FileTracked(out).value in Stored(out)
    decreases |out|
  {
    if out != [] { StoredAll(out[..|out| - 1]); }
  }

  /** The lexer follows every marker, so that tokens are blamed on the right file, exactly
      when the markers name no more than 256 different files. */
  lemma {:induction false} FilesFollowed(out: seq<OutLine>)
    ensures (forall k :: 0 <= k <= |out| ==> FileTracked(out[..k]) == FileAfter(out[..k])) <==>
            |FilesIn(out)| <= 256
    decreases |out|
  {
    hide FilesIn, Stored, FileTracked, FileAfter;
    assert out[..|out|] == out;
    if out != [] {
      var n := |out| - 1;
      var before := out[..n];
      FilesFollowed(before);
      assert forall k :: 0 <= k <= n ==> before[..k] == out[..k];
      LastMarker(out);
      if forall k :: 0 <= k <= n ==> FileTracked(before[..k]) == FileAfter(before[..k]) {
        forall k | 0 <= k <= n
          ensures FileTracked(out[..k]) == FileAfter(out[..k])
        {
          assert before[..k] == out[..k];
        }
      }
      assert before[..n] == before;
    } else {
      NoLines();
    }
  }

  lemma NoLines()
    ensures FileTracked([]) == FileAfter([]) && FilesIn([]) == []
  {
  }

  lemma LastMarker(out: seq<OutLine>)
    requires out != []
    ensures var before := out[..|out| - 1];
      && |FilesIn(before)| <= |FilesIn(out)|
      && (|FilesIn(before)| <= FILES_MAX && FileTracked(before) == FileAfter(before) ==>
            (FileTracked(out) == FileAfter(out) <==> |FilesIn(out)| <= FILES_MAX))
  {
    StoredAll(out[..|out| - 1]);
  }

  lemma AfterCode(out: seq<OutLine>, text: string)
    ensures LineAfter(out + [Code(text)]) == LineAfter(out) + 1
    ensures FileAfter(out + [Code(text)]) == FileAfter(out)
  {
    assert (out + [Code(text)])[..|out|] == out;
  }

  lemma AfterMarker(out: seq<OutLine>, n: nat, f: string)
    ensures LineAfter(out + [Marker(n, f)]) == n && FileAfter(out + [Marker(n, f)]) == Some(f)
  {
  }

  /** The state before line `k` of the file, counting from 0. */
  function StateBefore(fs: Files, path: string, depth: nat, lines: seq<string>, k: nat, s: Flat): Flat
    requires depth < MAX_INCLUDE && k <= |lines|
  {
    if k == 0 then s
    else ProcessLine(fs, path, depth, lines[k - 1], k, StateBefore(fs, path, depth, lines, k - 1, s))
  }

  /** Has one of the first `k` lines been an `#include` that was followed? */
  predicate IncludedBefore(fs: Files, path: string, depth: nat, lines: seq<string>, k: nat, s: Flat)
    requires depth < MAX_INCLUDE && k <= |lines|
  {
    k > 0 && (IncludedBefore(fs, path, depth, lines, k - 1, s)
              || IncludeTarget(fs, path, lines[k - 1], StateBefore(fs, path, depth, lines, k - 1, s)).Some?)
  }

  /** A line that is no `#include`, or is not followed, comes out as one line. */
  lemma OneLineOut(fs: Files, path: string, depth: nat, line: string, lineNo: nat, s: Flat)
    requires depth < MAX_INCLUDE && IncludeTarget(fs, path, line, s).None?
    ensures exists text :: ProcessLine(fs, path, depth, line, lineNo, s).core.out == s.core.out + [Code(text)]
  {
    hide Classify, IncludeTarget, Active, PushFrame, ElseFrame, ElifFrame, PopFrame, Test, TestExpr;
    var d := Classify(line);
    var r := ProcessLine(fs, path, depth, line, lineNo, s);
    if d.Plain? && Active(s.frames) {
      assert r.core.out == s.core.out + [Code(ExpandSpec.Expand(s.core.macros, d.text).out)];
    } else if d.PassThrough? {
      assert r.core.out == s.core.out + [Code(d.text)];
    } else {
      assert r.core.out == s.core.out + [Code("")];
    }
  }

  /** Line `k` (from 0) of a file is numbered `k + 1` as it should be until an `#include`
      of the file has been followed, and one too high, `k + 2`, from then on; and the
      lexer is in the right file. */
  lemma {:induction false} LineNumbers(fs: Files, path: string, depth: nat, lines: seq<string>, k: nat, s: Flat)
    requires depth < MAX_INCLUDE && k <= |lines|
    requires LineAfter(s.core.out) == 1 && FileAfter(s.core.out) == Some(path)
    ensures var out := StateBefore(fs, path, depth, lines, k, s).core.out;
      && LineAfter(out) == k + 1 + (if IncludedBefore(fs, path, depth, lines, k, s) then 1 else 0)
      && FileAfter(out) == Some(path)
    decreases k
  {
    hide ProcessFile, IncludeTarget, Step, LineAfter, FileAfter;
    if k > 0 {
      LineNumbers(fs, path, depth, lines, k - 1, s);
      var before := StateBefore(fs, path, depth, lines, k - 1, s);
      var target := IncludeTarget(fs, path, lines[k - 1], before);
      if target.None? {
        OneLineOut(fs, path, depth, lines[k - 1], k, before);
        var text :| ProcessLine(fs, path, depth, lines[k - 1], k, before).core.out == before.core.out + [Code(text)];
        AfterCode(before.core.out, text);
      } else {
        TargetIsInclude(fs, path, lines[k - 1], before);
        var inner := ProcessFile(fs, target.value, depth + 1, before).flat.core.out;
        AfterMarker(inner, k + 1, path);
        AfterCode(inner + [Marker(k + 1, path)], "");
      }
    }
  }

  lemma TargetIsInclude(fs: Files, path: string, line: string, s: Flat)
    requires IncludeTarget(fs, path, line, s).Some?
    ensures Classify(line).Include?
  {
    hide Classify;
  }

  lemma {:induction false} LinesAreStates(fs: Files, path: string, depth: nat, lines: seq<string>, k: nat, s: Flat)
    requires depth < MAX_INCLUDE && k <= |lines|
    ensures ProcessLines(fs, path, depth, lines, 1, s)
      == ProcessLines(fs, path, depth, lines[k..], k + 1, StateBefore(fs, path, depth, lines, k, s))
    decreases k
  {
    hide ProcessLine;
    if k == 0 {
      assert lines[0..] == lines;
    } else {
      LinesAreStates(fs, path, depth, lines, k - 1, s);
      assert lines[k - 1..][0] == lines[k - 1] && lines[k - 1..][1..] == lines[k..];
    }
  }

  /** The states above are those of the run: the last one is the result. */
  lemma RunIsLastState(fs: Files, path: string, depth: nat, lines: seq<string>, s: Flat)
    requires depth < MAX_INCLUDE
    ensures ProcessLines(fs, path, depth, lines, 1, s) == StateBefore(fs, path, depth, lines, |lines|, s)
  {
    hide ProcessLine, StateBefore;
    LinesAreStates(fs, path, depth, lines, |lines|, s);
    assert lines[|lines|..] == [];
  }

  // ---------------------------------------------------------- the text itself

  function Decimal(n: nat): (s: string)
    ensures |s| > 0
  {
    if n < 10 then [DigitChar(n)] else Decimal(n / 10) + [DigitChar(n % 10)]
  }

  function DigitChar(d: nat): (c: char)
    requires d < 10
    ensures IsDigit(c) && c as int - '0' as int == d
  {
    '0' + d as char
  }

  function RenderLine(l: OutLine): string {
    match l
    case Marker(n, f) => "#line " + (Decimal(n) + (" \"" + (f + "\"\n")))
    case Code(t) => t + "\n"
  }

  function Render(out: seq<OutLine>): string {
    if out == [] then "" else RenderLine(out[0]) + Render(out[1..])
  }

  /** The number of a decimal numeral and where it ends. */
  function ReadDecimal(s: string, i: nat, v: nat): (r: (nat, nat))
    requires i <= |s|
    ensures i <= r.1 <= |s|
    decreases |s| - i
  {
    if i < |s| && IsDigit(s[i]) then ReadDecimal(s, i + 1, v * 10 + (s[i] as int - '0' as int)) else (v, i)
  }

  /** The sizes of the lexer's buffer for a file name and of the preprocessor's for a marker. */
  const NAME_LIMIT: nat := 1024
  const MARKER_LIMIT: nat := 512

  /** A `#line` marker at the start of a line: its number, its file, which is ignored if it is
      too long, and where the next line starts. */
  function TryMarker(s: string, i: nat): (r: Option<(nat, string, nat)>)
    requires i <= |s|
    ensures r.Some? ==> i < r.value.2 <= |s|
  {
    if i == |s| || s[i] != '#' then None
    else
      var j := SkipBlanks(s, i + 1);
      if j + 4 > |s| || s[j..j + 4] != "line" || j + 4 == |s| || !IsBlank(s[j + 4]) then None
      else Some(MarkerFrom(s, j + 4))
  }

  /** The number and file of a marker after its word, and the end of its line. */
  function MarkerFrom(s: string, i: nat): (r: (nat, string, nat))
    requires i <= |s|
    ensures i <= r.2 <= |s|
  {
    var (n, k) := ReadDecimal(s, SkipBlanks(s, i), 0);
    var q := SkipBlanks(s, k);
    var hasFile := q < |s| && s[q] == '"';
    var e := if hasFile then QuoteEnd(s, q + 1) else q;
    var eol := FirstOf(s, e, '\n');
    (n, if hasFile && e - (q + 1) < NAME_LIMIT then s[q + 1..e] else "", if eol < |s| then eol + 1 else eol)
  }

  function QuoteEnd(s: string, i: nat): (j: nat)
    requires i <= |s|
    ensures i <= j <= |s|
    decreases |s| - i
  {
    if i == |s| || s[i] == '"' || s[i] == '\n' then i else QuoteEnd(s, i + 1)
  }

  lemma {:induction false} DecimalRead(s: string, i: nat, n: nat)
    requires At(s, i, Decimal(n))
    ensures ReadDecimal(s, i, 0) == ReadDecimal(s, i + |Decimal(n)|, n)
    decreases n
  {
    hide At;
    if n < 10 {
      AtElement(s, i, Decimal(n), 0);
    } else {
      var front := Decimal(n / 10);
      AtSplit(s, i, front, [DigitChar(n % 10)]);
      DecimalRead(s, i, n / 10);
      AtElement(s, i + |front|, [DigitChar(n % 10)], 0);
      assert n / 10 * 10 + n % 10 == n;
    }
  }

  lemma {:induction false} DecimalDigits(n: nat)
    ensures IsDigit(Decimal(n)[0])
    decreases n
  {
    if n >= 10 { DecimalDigits(n / 10); }
  }

  lemma {:induction false} QuoteEndAt(s: string, i: nat, f: string, k: nat)
    requires At(s, i, f + "\"\n") && k <= |f| && '"' !in f && '\n' !in f
    ensures i + |f| + 2 <= |s| && QuoteEnd(s, i + k) == i + |f|
    decreases |f| - k
  {
    AtElement(s, i, f + "\"\n", k);
    AtElement(s, i, f + "\"\n", |f| + 1);
    if k < |f| {
      assert f[k] in f;
      QuoteEndAt(s, i, f, k + 1);
    }
  }

  lemma LineEnds(s: string, i: nat, f: string)
    requires At(s, i, f + "\"\n")
    ensures i + |f| + 2 <= |s| && FirstOf(s, i + |f|, '\n') == i + |f| + 1
  {
    AtElement(s, i, f + "\"\n", |f|);
    AtElement(s, i, f + "\"\n", |f| + 1);
    assert FirstOf(s, i + |f| + 1, '\n') == i + |f| + 1;
  }

  /** A number, a blank and the quoted name, read back. */
  lemma TailRead(s: string, i: nat, n: nat, f: string)
    requires At(s, i, Decimal(n) + (" \"" + (f + "\"\n"))) && '"' !in f && '\n' !in f
    ensures var k := i + |Decimal(n)|;
      && k + 2 + |f| + 2 <= |s| && s[i..k] == Decimal(n)
      && IsDigit(s[i]) && ReadDecimal(s, i, 0) == (n, k) && SkipBlanks(s, k) == k + 1 && s[k + 1] == '"'
      && QuoteEnd(s, k + 2) == k + 2 + |f| && s[k + 2..k + 2 + |f|] == f
      && FirstOf(s, k + 2 + |f|, '\n') == k + 2 + |f| + 1
  {
    hide QuoteEnd, FirstOf, Decimal;
    var rest := f + "\"\n";
    var k := i + |Decimal(n)|;
    AtSplit(s, i, Decimal(n), " \"" + rest);
    AtSplit(s, k, " \"", rest);
    AtElement(s, k, " \"", 0);
    AtElement(s, k, " \"", 1);
    AtElement(s, i, Decimal(n), 0);
    DecimalDigits(n);
    DecimalRead(s, i, n);
    QuoteEndAt(s, k + 2, f, 0);
    LineEnds(s, k + 2, f);
    AtSplit(s, k + 2, f, "\"\n");
  }

  lemma HeadRead(s: string, i: nat)
    requires At(s, i, "#line ") && i + 6 < |s| && IsDigit(s[i + 6])
    ensures s[i] == '#' && SkipBlanks(s, i + 1) == i + 1 && s[i + 1..i + 5] == "line"
    ensures IsBlank(s[i + 5]) && SkipBlanks(s, i + 5) == i + 6
  {
    hide At;
    assert "#line " == "#" + ("line" + " ");
    AtSplit(s, i, "#", "line" + " ");
    AtSplit(s, i + 1, "line", " ");
    AtElement(s, i, "#", 0);
    AtElement(s, i + 1, "line", 0);
    AtElement(s, i + 5, " ", 0);
    AtSlice(s, i + 1, "line");
  }

  lemma AtSlice(s: string, i: nat, part: string)
    requires At(s, i, part)
    ensures i + |part| <= |s| && s[i..i + |part|] == part
  {
  }

  lemma MarkerParts(s: string, i: nat, n: nat, f: string)
    requires At(s, i, RenderLine(Marker(n, f)))
    ensures At(s, i, "#line ") && At(s, i + 6, Decimal(n) + (" \"" + (f + "\"\n")))
    ensures |RenderLine(Marker(n, f))| == 6 + |Decimal(n)| + 2 + |f| + 2
  {
    hide At, Decimal;
    AtSplit(s, i, "#line ", Decimal(n) + (" \"" + (f + "\"\n")));
  }

  /** The word from `j`, a number up to `k`, and a name from `q + 1` to `e`, where the line ends. */
  lemma MarkerFromParts(s: string, i: nat, j: nat, n: nat, k: nat, q: nat, e: nat)
    requires i < |s| && s[i] == '#' && j == SkipBlanks(s, i + 1)
    requires j + 4 < |s| && s[j..j + 4] == "line" && IsBlank(s[j + 4])
    requires ReadDecimal(s, SkipBlanks(s, j + 4), 0) == (n, k) && k <= |s|
    requires q == SkipBlanks(s, k) && q < |s| && s[q] == '"' && e == QuoteEnd(s, q + 1) && e - (q + 1) < NAME_LIMIT
    requires FirstOf(s, e, '\n') == e + 1 < |s|
    ensures TryMarker(s, i) == Some((n, s[q + 1..e], e + 2))
  {
    hide SkipBlanks, IsBlank, MarkerFrom;
    NumberAndName(s, j + 4, n, k, q, e);
  }

  lemma NumberAndName(s: string, i: nat, n: nat, k: nat, q: nat, e: nat)
    requires i <= |s| && ReadDecimal(s, SkipBlanks(s, i), 0) == (n, k) && k <= |s|
    requires q == SkipBlanks(s, k) && q < |s| && s[q] == '"' && e == QuoteEnd(s, q + 1) && e - (q + 1) < NAME_LIMIT
    requires FirstOf(s, e, '\n') == e + 1 < |s|
    ensures MarkerFrom(s, i) == (n, s[q + 1..e], e + 2)
  {
    hide QuoteEnd, FirstOf, ReadDecimal, SkipBlanks;
  }

  lemma NameShorter(n: nat, f: string)
    ensures |f| < |RenderLine(Marker(n, f))|
  {
    hide Decimal;
  }

  /** A marker is read back by the lexer if its file name fits the lexer's buffer. */
  lemma MarkerRead(s: string, i: nat, n: nat, f: string)
    requires At(s, i, RenderLine(Marker(n, f))) && '"' !in f && '\n' !in f && |f| < 1024
    ensures i + |RenderLine(Marker(n, f))| <= |s|
    ensures TryMarker(s, i) == Some((n, f, i + |RenderLine(Marker(n, f))|))
  {
    hide QuoteEnd, FirstOf, Decimal, ReadDecimal, At, SkipBlanks, RenderLine, TryMarker;
    MarkerParts(s, i, n, f);
    TailRead(s, i + 6, n, f);
    HeadRead(s, i);
    var k := i + 6 + |Decimal(n)|;
    MarkerFromParts(s, i, i + 1, n, k, k + 1, k + 2 + |f|);
  }

  /** Lines that cannot be taken for something else, and markers that fit their buffer. */
  predicate CleanLine(l: OutLine) {
    match l
    case Marker(_, f) => '"' !in f && '\n' !in f && |RenderLine(l)| < MARKER_LIMIT
    case Code(t) => '\n' !in t && (t != "" ==> t[0] != '#')
  }

  predicate Clean(out: seq<OutLine>) {
    forall i :: 0 <= i < |out| ==> CleanLine(out[i])
  }

  lemma {:induction false} LineEndAt(s: string, i: nat, t: string, k: nat)
    requires At(s, i, t + "\n") && k <= |t| && '\n' !in t
    ensures i + |t| < |s| && FirstOf(s, i + k, '\n') == i + |t|
    decreases |t| - k
  {
    AtElement(s, i, t + "\n", k);
    AtElement(s, i, t + "\n", |t|);
    if k < |t| {
      assert t[k] in t;
      LineEndAt(s, i, t, k + 1);
    }
  }

  lemma CodeRender(s: string, i: nat, t: string)
    requires At(s, i, t + "\n") && CleanLine(Code(t))
    ensures i + |t| + 1 <= |s| && TryMarker(s, i) == None && FirstOf(s, i, '\n') == i + |t|
  {
    hide FirstOf, At;
    LineEndAt(s, i, t, 0);
    AtElement(s, i, t + "\n", 0);
  }

  /** Each line is read as what it is. */
  lemma StepRender(s: string, i: nat, l: OutLine)
    requires At(s, i, RenderLine(l)) && CleanLine(l)
    ensures i + |RenderLine(l)| <= |s|
    ensures l.Marker? ==> TryMarker(s, i) == Some((l.line, l.file, i + |RenderLine(l)|))
    ensures l.Code? ==> TryMarker(s, i) == None
    ensures l.Code? ==> FirstOf(s, i, '\n') + 1 == i + |RenderLine(l)|
  {
    hide FirstOf, TryMarker, At;
    match l
    case Marker(n, f) =>
      NameShorter(n, f);
      MarkerRead(s, i, n, f);
    case Code(t) => CodeRender(s, i, t);
  }
}
