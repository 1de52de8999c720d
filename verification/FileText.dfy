/** Files as they are written: their lines, and groups in them. */
module FileText {
  import opened Syntax
  import opened Chars
  import opened Seqs
  import opened Macros
  import opened Directives
  import opened Conditionals
  import opened CondRefines
  import opened PreprocSpec
  import opened DirectiveText
  import opened GroupText
  import ExpandSpec

  /** A text of these lines. */
  function TextOf(lines: seq<string>): string
    requires lines != []
  {
    if |lines| == 1 then lines[0] else lines[0] + ("\n" + TextOf(lines[1..]))
  }

  predicate OneLine(line: string) {
    forall k :: 0 <= k < |line| ==> line[k] != '\n'
  }

  /** A line is found up to the newline after it, or to the end. */
  lemma LineFound(s: string, i: nat, line: string, rest: string)
    requires OneLine(line) && i <= |s| && s[i..] == line + rest && (rest == "" || rest[0] == '\n')
    ensures FirstOf(s, i, '\n') == i + |line| <= |s| && s[i..i + |line|] == line && s[i + |line|..] == rest
  {
    hide FirstOf;
    Dropped(s, i, line, rest);
    DroppedChars(s, i, line, rest);
    FirstOfAt(s, i, i + |line|, '\n');
  }

  /** Such a text is cut into just those lines. */
  lemma {:induction false} LinesOfText(s: string, i: nat, lines: seq<string>)
    requires lines != [] && (forall k :: 0 <= k < |lines| ==> OneLine(lines[k])) && i <= |s| && s[i..] == TextOf(lines)
    ensures LinesFrom(s, i) == lines
    decreases |lines|
  {
    hide FirstOf, LinesFrom, OneLine, TextOf;
    var line := lines[0];
    if |lines| == 1 {
      TextOfOne(lines);
      assert line + "" == line;
      LineFound(s, i, line, "");
      LastLine(s, i);
      assert lines == [line];
    } else {
      var rest, e := TextOf(lines[1..]), i + |line|;
      TextOfFirst(lines);
      LineFound(s, i, line, "\n" + rest);
      Dropped(s, e, "\n", rest);
      LinesOfText(s, e + 1, lines[1..]);
      NextLine(s, i, e);
      assert lines == [line] + lines[1..];
    }
  }

  lemma TextOfOne(lines: seq<string>)
    requires |lines| == 1
    ensures TextOf(lines) == lines[0]
  {
  }

  lemma LastLine(s: string, i: nat)
    requires i <= |s| && FirstOf(s, i, '\n') == |s|
    ensures LinesFrom(s, i) == [s[i..]]
  {
    hide FirstOf;
  }

  lemma NextLine(s: string, i: nat, e: nat)
    requires i <= |s| && FirstOf(s, i, '\n') == e < |s|
    ensures LinesFrom(s, i) == [s[i..e]] + LinesFrom(s, e + 1)
  {
    hide FirstOf;
  }

  // ------------------------------------------------------------------ plain lines

  /** A line that is no directive. */
  predicate PlainLine(line: string) {
    var k := SkipBlanks(line, 0);
    OneLine(line) && (k < |line| ==> line[k] != '#')
  }

  predicate AllPlain(lines: seq<string>) {
    forall k :: 0 <= k < |lines| ==> PlainLine(lines[k])
  }

  /** The lines with macros expanded. */
  function ExpandedLines(t: Table, lines: seq<string>): seq<OutLine> {
    if lines == [] then [] else [Code(ExpandSpec.Expand(t, lines[0]).out)] + ExpandedLines(t, lines[1..])
  }

  function ExpandErrors(t: Table, lines: seq<string>): nat {
    if lines == [] then 0 else ExpandSpec.Expand(t, lines[0]).errs + ExpandErrors(t, lines[1..])
  }

  function BlankLines(lines: seq<string>): seq<OutLine> {
    seq(|lines|, _ => Code(""))
  }

  lemma {:induction false} BlanksAre(c: Core, k: nat)
    ensures Blanks(c, k) == Core(c.macros, c.out + seq(k, _ => Code("")), c.errs)
    decreases k
  {
    if k > 0 {
      BlanksAre(Core(c.macros, c.out + [Code("")], c.errs), k - 1);
      assert [Code("")] + seq(k - 1, _ => Code("")) == seq(k, _ => Code(""));
    }
  }

  /** Live plain lines are expanded. */
  lemma {:induction false} PlainLinesDo(fs: Files, path: string, depth: nat, lines: seq<string>, n: nat, s: Flat)
    requires depth < MAX_INCLUDE && AllPlain(lines) && Active(s.frames)
    ensures ProcessLines(fs, path, depth, lines, n, s) ==
            Flat(Core(s.core.macros, s.core.out + ExpandedLines(s.core.macros, lines),
                      s.core.errs + ExpandErrors(s.core.macros, lines)), s.frames)
    decreases |lines|
  {
    hide ProcessLine, Active, PlainLine, ExpandSpec.Expand;
    if lines != [] {
      hide ProcessLines, ExpandedLines, ExpandErrors;
      var s1 := ProcessLine(fs, path, depth, lines[0], n, s);
      PlainLineDoes(fs, path, depth, lines[0], n, s);
      PlainLinesDo(fs, path, depth, lines[1..], n + 1, s1);
      LinesStep(fs, path, depth, lines, n, s);
      ExpandedStep(s.core.macros, lines, s.core.out);
    }
  }

  lemma LinesStep(fs: Files, path: string, depth: nat, lines: seq<string>, n: nat, s: Flat)
    requires depth < MAX_INCLUDE && lines != []
    ensures ProcessLines(fs, path, depth, lines, n, s)
      == ProcessLines(fs, path, depth, lines[1..], n + 1, ProcessLine(fs, path, depth, lines[0], n, s))
  {
    hide ProcessLine;
  }

  lemma ExpandedStep(t: Table, lines: seq<string>, out: seq<OutLine>)
    requires lines != []
    ensures out + ExpandedLines(t, lines)
      == (out + [Code(ExpandSpec.Expand(t, lines[0]).out)]) + ExpandedLines(t, lines[1..])
    ensures ExpandErrors(t, lines) == ExpandSpec.Expand(t, lines[0]).errs + ExpandErrors(t, lines[1..])
  {
    hide ExpandSpec.Expand;
    OutJoin(out, [Code(ExpandSpec.Expand(t, lines[0]).out)], ExpandedLines(t, lines[1..]));
  }

  lemma OutJoin(a: seq<OutLine>, b: seq<OutLine>, c: seq<OutLine>)
    ensures a + (b + c) == (a + b) + c
  {
  }

  lemma PlainLineDoes(fs: Files, path: string, depth: nat, line: string, n: nat, s: Flat)
    requires depth < MAX_INCLUDE && PlainLine(line) && Active(s.frames)
    ensures var x := ExpandSpec.Expand(s.core.macros, line);
      ProcessLine(fs, path, depth, line, n, s)
        == Flat(Core(s.core.macros, s.core.out + [Code(x.out)], s.core.errs + x.errs), s.frames)
  {
    hide ExpandSpec.Expand, Active, SkipBlanks, DirectiveOf, WordEndWithin;
  }

  function PlainItems(lines: seq<string>): seq<Item> {
    if lines == [] then [] else [Leaf(Plain(lines[0]))] + PlainItems(lines[1..])
  }

  lemma {:induction false} PlainNested(inc: Includes, lines: seq<string>)
    requires AllPlain(lines)
    ensures var items := PlainItems(lines);
      WellNested(items) && Depth(inc, items) == 0 && ClassifyAll(lines) == Flatten(items) && Quiet(lines)
    decreases |lines|
  {
    hide PlainLine, Classify;
    if lines != [] {
      PlainClassified(lines[0]);
      PlainNested(inc, lines[1..]);
      var items := PlainItems(lines);
      assert items[0] == Leaf(Plain(lines[0])) && items[1..] == PlainItems(lines[1..]);
      assert FlattenItem(items[0]) == [Plain(lines[0])];
    }
  }

  lemma PlainClassified(line: string)
    requires PlainLine(line)
    ensures Classify(line) == Plain(line)
  {
    hide SkipBlanks, DirectiveOf, WordEndWithin;
  }

  // ------------------------------------------------------------------ a group in a file

  /** What a file with one group around plain lines leaves behind. */
  function GroupLeaves(path: string, holds: bool, body: seq<string>, s: Flat): Flat {
    var t := s.core.macros;
    Flat(Core(t,
              s.core.out + [Marker(1, path), Code("")] +
              (if holds then ExpandedLines(t, body) else BlankLines(body)) + [Code("")],
              s.core.errs + if holds then ExpandErrors(t, body) else 0),
         s.frames)
  }

  /** A file with one group around plain lines keeps them exactly if the test of the group holds. */
  lemma GroupFile(fs: Files, path: string, depth: nat, w: Wording, g: Gaps, body: seq<string>, tail: string, g2: Gaps,
                  s: Flat)
    requires w.IfdefLine? || w.IfndefLine? || w.IfLine?
    requires CanWrite(w, g) && OneLine(Written(w, g)) && AllPlain(body)
    requires CanWrite(EndifLine(tail), g2) && OneLine(Written(EndifLine(tail), g2))
    requires depth < MAX_INCLUDE && path in fs.text
    requires fs.text[path] == TextOf([Written(w, g)] + (body + [Written(EndifLine(tail), g2)]))
    requires WellStacked(s.frames) && Active(s.frames) && |s.frames| < MAX_FRAMES
    ensures ProcessFile(fs, path, depth, s) ==
            Processed(GroupLeaves(path, Holds(w, s.core.macros), body, s), true)
  {
    hide CanWrite, Written, LinesFrom, ProcessLines, WellStacked, Active, Holds, TextOf, AllPlain, PlainItems, GroupOk;
    var last := [Written(EndifLine(tail), g2)];
    var lines := [Written(w, g)] + (body + last);
    AllOneLine(Written(w, g), body, last[0]);
    assert fs.text[path][0..] == fs.text[path];
    LinesOfText(fs.text[path], 0, lines);
    var s1 := Out(s, Marker(1, path));
    OneGroup(fs, path, depth, w, g, body, tail, g2, s1);
    assert ProcessFile(fs, path, depth, s) == Processed(ProcessLines(fs, path, depth, lines, 1, s1), true);
    var out := s.core.out;
    assert out + [Marker(1, path)] + [Code("")] == out + [Marker(1, path), Code("")];
  }

  lemma AllOneLine(first: string, body: seq<string>, last: string)
    requires OneLine(first) && AllPlain(body) && OneLine(last)
    ensures forall k :: 0 <= k < |[first] + (body + [last])| ==> OneLine(([first] + (body + [last]))[k])
  {
    hide OneLine;
    forall k | 0 <= k < |body| ensures OneLine(body[k]) { assert PlainLine(body[k]); }
  }

  /** The lines of the group. */
  lemma OneGroup(fs: Files, path: string, depth: nat, w: Wording, g: Gaps, body: seq<string>, tail: string, g2: Gaps,
                 s: Flat)
    requires w.IfdefLine? || w.IfndefLine? || w.IfLine?
    requires CanWrite(w, g) && AllPlain(body) && CanWrite(EndifLine(tail), g2) && depth < MAX_INCLUDE
    requires WellStacked(s.frames) && Active(s.frames) && |s.frames| < MAX_FRAMES
    ensures var t, holds := s.core.macros, Holds(w, s.core.macros);
      ProcessLines(fs, path, depth, [Written(w, g)] + (body + [Written(EndifLine(tail), g2)]), 1, s) ==
      Flat(Core(t,
                (s.core.out + [Code("")]) + (if holds then ExpandedLines(t, body) else BlankLines(body)) + [Code("")],
                s.core.errs + if holds then ExpandErrors(t, body) else 0),
           s.frames)
  {
    hide CanWrite, Written, ProcessLines, WellStacked, Active, Holds, AllPlain, PlainItems, Depth, WellNested, Flatten,
         ClassifyAll, Quiet;
    var parts := [Part(w, g, body, PlainItems(body))];
    OnePart(fs, path, depth, parts, s.core.macros);
    GroupDecides(fs, map[], path, depth, parts, tail, g2, 1, s);
    OneLines(parts[0]);
    assert [Written(w, g)] + body + [Written(EndifLine(tail), g2)]
      == [Written(w, g)] + (body + [Written(EndifLine(tail), g2)]);
    var lines := LinesOf(parts) + [Written(EndifLine(tail), g2)];
    OneOutcome(fs, path, depth, parts[0], s, ProcessLines(fs, path, depth, lines, 1, s));
  }

  lemma OneLines(p: Part)
    ensures LinesOf([p]) == [Written(p.w, p.g)] + p.body && LinesOf([p][..0]) == [] && LinesOf([p][1..]) == []
  {
    hide Written;
    assert [p][..0] == [] && [p][1..] == [];
  }

  lemma OnePart(fs: Files, path: string, depth: nat, parts: seq<Part>, t: Table)
    requires |parts| == 1 && depth < MAX_INCLUDE
    requires AllPlain(parts[0].body) && parts[0].items == PlainItems(parts[0].body)
    requires CanWrite(parts[0].w, parts[0].g)
    requires parts[0].w.IfdefLine? || parts[0].w.IfndefLine? || parts[0].w.IfLine?
    ensures Grouped(fs, map[]) && GroupOk(parts) && OthersQuiet(parts, Chosen(parts, t))
    ensures Depth(IncludesOf(fs, map[], path, depth), parts[0].items) == 0
  {
    hide CanWrite, AllPlain, PlainItems, Depth, WellNested, Flatten, ClassifyAll, Quiet, Holds, IncludesOf;
    PlainNested(IncludesOf(fs, map[], path, depth), parts[0].body);
    assert parts[1..] == [];
  }

  lemma OneOutcome(fs: Files, path: string, depth: nat, p: Part, s: Flat, after: Flat)
    requires depth < MAX_INCLUDE && AllPlain(p.body) && Active(s.frames)
    requires OnlyPart(fs, path, depth, [p], 1, s, after)
    ensures var t, holds := s.core.macros, Holds(p.w, s.core.macros);
      after ==
      Flat(Core(t,
                (s.core.out + [Code("")]) +
                (if holds then ExpandedLines(t, p.body) else BlankLines(p.body)) + [Code("")],
                s.core.errs + if holds then ExpandErrors(t, p.body) else 0),
           s.frames)
  {
    hide Written, ProcessLines, Active, Holds, AllPlain, Blanks, LinesOf, Chosen, ExpandedLines, ExpandErrors,
         BlankLines;
    var c := s.core;
    OneLines(p);
    OneChosen(p, c.macros);
    if Holds(p.w, c.macros) {
      BlanksAre(c, 1);
      OneBlank();
      var s1 := Flat(Blanks(c, 1), s.frames);
      PlainLinesDo(fs, path, depth, p.body, 2, s1);
      BlanksAre(ProcessLines(fs, path, depth, p.body, 2, s1).core, 1);
    } else {
      BlanksAre(c, |p.body| + 2);
      BlanksAround(p.body, c.out);
    }
  }

  lemma OneChosen(p: Part, t: Table)
    ensures Chosen([p], t) == if Holds(p.w, t) then 0 else 1
  {
    hide Holds;
    assert [p][1..] == [];
  }

  lemma OneBlank()
    ensures seq(1, _ => Code("")) == [Code("")]
  {
  }

  lemma BlanksAround(lines: seq<string>, out: seq<OutLine>)
    ensures out + seq(|lines| + 2, _ => Code("")) == (out + [Code("")]) + BlankLines(lines) + [Code("")]
  {
    assert seq(|lines| + 2, _ => Code("")) == [Code("")] + BlankLines(lines) + [Code("")];
  }

  // ------------------------------------------------------------------ includes

  /** The argument of an `#include`: a path between quotes, or between angle brackets. */
  function IncludeText(p: string, system: bool, rest: string): string {
    if system then "<" + (p + (">" + rest)) else "\"" + (p + ("\"" + rest))
  }

  predicate IncludePath(p: string, system: bool) {
    forall k :: 0 <= k < |p| ==> p[k] != if system then '>' else '"'
  }

  lemma IncludeRead(p: string, system: bool, rest: string)
    requires IncludePath(p, system)
    ensures IncludeSpec(IncludeText(p, system, rest)) == Some((p, system))
  {
    hide FirstOf;
    var arg := IncludeText(p, system, rest);
    var close := if system then '>' else '"';
    assert arg[0..] == arg;
    Dropped(arg, 0, [if system then '<' else '"'], p + ([close] + rest));
    Dropped(arg, 1, p, [close] + rest);
    DroppedChars(arg, 1, p, [close] + rest);
    FirstOfAt(arg, 1, 1 + |p|, close);
  }

  /** No other argument is read. */
  lemma IncludeParts(arg: string) returns (p: string, system: bool, rest: string)
    requires IncludeSpec(arg).Some?
    ensures IncludePath(p, system) && arg == IncludeText(p, system, rest)
  {
    hide FirstOf;
    system := arg[0] == '<';
    var close := if system then '>' else '"';
    var e := FirstOf(arg, 1, close);
    FirstOfFirst(arg, 1, close);
    p, rest := arg[1..e], arg[e + 1..];
  }

  lemma {:induction false} FirstOfFirst(s: string, i: nat, c: char)
    requires i <= |s|
    ensures forall k :: i <= k < FirstOf(s, i, c) ==> s[k] != c
    decreases |s| - i
  {
    if i < |s| && s[i] != c { FirstOfFirst(s, i + 1, c); }
  }

  /** What a live `#include` of a file leaves behind: what its lines do, a marker before them
      and one after them; an error if there is no file, or if 32 files are open already. */
  function IncludeLeaves(fs: Files, path: string, depth: nat, found: Option<string>, n: nat, s: Flat): Flat
    requires depth < MAX_INCLUDE
  {
    var c := s.core;
    match found
    case None => Flat(Core(c.macros, c.out + [Code("")], c.errs + 1), s.frames)
    case Some(file) =>
      if depth + 1 < 32 && file in fs.text then
        var inside := Flat(Core(c.macros, c.out + [Marker(1, file)], c.errs), s.frames);
        var r := ProcessLines(fs, file, depth + 1, LinesFrom(fs.text[file], 0), 1, inside);
        Flat(Core(r.core.macros, r.core.out + [Marker(n + 1, path), Code("")], r.core.errs), r.frames)
      else Flat(Core(c.macros, c.out + [Marker(n + 1, path), Code("")], c.errs + 1), s.frames)
  }

  /** An `#include` line in a live region. */
  lemma IncludeDoes(fs: Files, path: string, depth: nat, p: string, system: bool, rest: string, g: Gaps, n: nat,
                    s: Flat)
    requires depth < MAX_INCLUDE && Active(s.frames) && IncludePath(p, system)
    requires CanWrite(IncludeLine(IncludeText(p, system, rest)), g)
    ensures ProcessLine(fs, path, depth, Written(IncludeLine(IncludeText(p, system, rest)), g), n, s)
      == IncludeLeaves(fs, path, depth, fs.resolve(path, p, system), n, s)
  {
    hide Classify, Written, CanWrite, Active, IncludeSpec, ProcessLines, LinesFrom, IncludeText;
    ClassifyWritten(IncludeLine(IncludeText(p, system, rest)), g);
    IncludeRead(p, system, rest);
  }

  /** In a dead region it does nothing, and with a malformed argument it is an error. */
  lemma IncludeNot(fs: Files, path: string, depth: nat, arg: string, g: Gaps, n: nat, s: Flat)
    requires depth < MAX_INCLUDE && CanWrite(IncludeLine(arg), g)
    requires Active(s.frames) ==>
      forall p, system, rest :: IncludePath(p, system) ==> arg != IncludeText(p, system, rest)
    ensures ProcessLine(fs, path, depth, Written(IncludeLine(arg), g), n, s) ==
            Flat(Core(s.core.macros, s.core.out + [Code("")], s.core.errs + if Active(s.frames) then 1 else 0),
                 s.frames)
  {
    hide Classify, Written, CanWrite, Active, IncludeSpec, ProcessFile, IncludeText, IncludePath;
    ClassifyWritten(IncludeLine(arg), g);
    if Active(s.frames) && IncludeSpec(arg).Some? {
      var p, system, rest := IncludeParts(arg);
    }
  }

  // ------------------------------------------------------------------ spelled out

  function SameLines(lines: seq<string>): seq<OutLine> {
    seq(|lines|, k requires 0 <= k < |lines| => Code(lines[k]))
  }

  /** No word of the lines, outside literals and comments, names a macro. */
  ghost predicate NoMacros(t: Table, lines: seq<string>) {
    forall k, word :: 0 <= k < |lines| && word in ExpandSpec.WordsIn(ExpandSpec.Split([], lines[k], 0)) ==>
      Find(t, word).None?
  }

  lemma {:induction false} LinesStay(t: Table, lines: seq<string>)
    requires NoMacros(t, lines)
    ensures ExpandedLines(t, lines) == SameLines(lines) && ExpandErrors(t, lines) == 0
    decreases |lines|
  {
    hide ExpandSpec.Expand, ExpandSpec.Split, ExpandSpec.WordsIn, Find;
    if lines != [] {
      ExpandSpec.ExpandIdentity(t, lines[0]);
      forall k, word | 0 <= k < |lines[1..]| && word in ExpandSpec.WordsIn(ExpandSpec.Split([], lines[1..][k], 0))
        ensures Find(t, word).None?
      {
        assert lines[1..][k] == lines[k + 1];
      }
      LinesStay(t, lines[1..]);
      assert SameLines(lines) == [Code(lines[0])] + SameLines(lines[1..]);
    }
  }

  lemma {:induction false} TextOfEnd(lines: seq<string>, last: string)
    requires lines != []
    ensures TextOf(lines + [last]) == TextOf(lines) + ("\n" + last)
    decreases |lines|
  {
    var all := lines + [last];
    assert all[0] == lines[0] && all[1..] == lines[1..] + [last];
    if |lines| == 1 {
      assert all[1..] == [last];
    } else {
      TextOfEnd(lines[1..], last);
    }
  }

  lemma GroupTextIs(first: string, body: seq<string>, last: string)
    requires body != []
    ensures TextOf([first] + (body + [last])) == first + ("\n" + (TextOf(body) + ("\n" + last)))
  {
    hide TextOf;
    TextOfEnd(body, last);
    TextOfFirst([first] + (body + [last]));
    assert ([first] + (body + [last]))[1..] == body + [last];
  }

  lemma TextOfFirst(lines: seq<string>)
    requires |lines| > 1
    ensures TextOf(lines) == lines[0] + ("\n" + TextOf(lines[1..]))
  {
  }

  /** `#ifdef` keeps the lines up to `#endif` exactly if a macro of that name is defined,
      `#ifndef` exactly if none is; the other lines come out blank. */
  lemma IfdefKeeps(fs: Files, path: string, depth: nat, negated: bool, name: string, body: seq<string>, s: Flat)
    requires FitName(name) && name != "" && body != [] && AllPlain(body) && NoMacros(s.core.macros, body)
    requires depth < MAX_INCLUDE && path in fs.text
    requires fs.text[path] ==
             ((if negated then "#ifndef " else "#ifdef ") + name) + ("\n" + (TextOf(body) + ("\n" + "#endif")))
    requires WellStacked(s.frames) && Active(s.frames) && |s.frames| < MAX_FRAMES
    ensures var keep := Find(s.core.macros, name).Some? != negated;
      ProcessFile(fs, path, depth, s) ==
      Processed(Flat(Core(s.core.macros,
                          s.core.out + [Marker(1, path), Code("")] +
                          (if keep then SameLines(body) else BlankLines(body)) + [Code("")],
                          s.core.errs),
                     s.frames),
                true)
  {
    hide CanWrite, Written, ProcessFile, WellStacked, Active, TextOf, AllPlain, NoMacros, Find, Names, SameLines,
         BlankLines, ExpandedLines, ExpandErrors;
    var w := if negated then IfndefLine(name, "") else IfdefLine(name, "");
    var g, g2 := Gaps("", "", " "), Gaps("", "", "");
    NameHeader(negated, name);
    EndHeader();
    GroupTextIs(Written(w, g), body, "#endif");
    GroupFile(fs, path, depth, w, g, body, "", g2, s);
    FindNames(s.core.macros, name);
    LinesStay(s.core.macros, body);
  }

  lemma NameHeader(negated: bool, name: string)
    requires FitName(name) && name != ""
    ensures var w := (if negated then IfndefLine(name, "") else IfdefLine(name, ""));
      var g := Gaps("", "", " ");
      && CanWrite(w, g) && Written(w, g) == (if negated then "#ifndef " else "#ifdef ") + name && OneLine(Written(w, g))
      && Cut(name) == name
  {
    hide OneLine, Hash;
    NameStart(name);
    assert name + "" == name;
    assert (" " + name)[0] == ' ';
    if negated { IfndefHeader(name); } else { IfdefHeader(name); }
  }

  lemma IfdefHeader(name: string)
    requires FitName(name)
    ensures Hash(Gaps("", "", " "), "ifdef", name) == "#ifdef " + name && OneLine("#ifdef " + name)
  {
    assert "" + ("ifdef" + (" " + name)) == "ifdef " + name;
    forall k | 0 <= k < |name| ensures name[k] != '\n' { assert IsIdCont(name[k]); }
  }

  lemma IfndefHeader(name: string)
    requires FitName(name)
    ensures Hash(Gaps("", "", " "), "ifndef", name) == "#ifndef " + name && OneLine("#ifndef " + name)
  {
    assert "" + ("ifndef" + (" " + name)) == "ifndef " + name;
    forall k | 0 <= k < |name| ensures name[k] != '\n' { assert IsIdCont(name[k]); }
  }

  lemma EndHeader()
    ensures CanWrite(EndifLine(""), Gaps("", "", "")) && OneLine("#endif")
    ensures Written(EndifLine(""), Gaps("", "", "")) == "#endif"
  {
  }
}
