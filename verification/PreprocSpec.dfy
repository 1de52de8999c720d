/** Preprocessing whole files: lines, includes and markers. */
module PreprocSpec {
  import opened Syntax
  import opened Macros
  import opened Directives
  import opened Conditionals
  import opened CondRefines

  const MAX_INCLUDE: nat := 32

  /** The file system: texts by path, and where an `#include` in a file leads. */
  datatype Files = Files(text: map<string, string>, resolve: (string, string, bool) -> Option<string>)

  /** The lines of a text; a text with `n` newlines has `n + 1` of them. */
  function LinesFrom(s: string, i: nat): (r: seq<string>)
    requires i <= |s|
    ensures |r| > 0
    decreases |s| - i
  {
    var e := FirstOf(s, i, '\n');
    if e == |s| then [s[i..]] else [s[i..e]] + LinesFrom(s, e + 1)
  }

  function Out(s: Flat, line: OutLine): Flat {
    s.(core := s.core.(out := s.core.out + [line]))
  }

  function Blame(s: Flat): Flat {
    s.(core := Fail(s.core, 1))
  }

  datatype Processed = Processed(flat: Flat, ok: bool)

  /** A file `depth` includes down.  Nothing is read at the limit, so cyclic includes end. */
  function ProcessFile(fs: Files, path: string, depth: nat, s: Flat): Processed
    decreases MAX_INCLUDE - depth, 1
  {
    if depth >= MAX_INCLUDE || path !in fs.text then Processed(Blame(s), false)
    else
      var s1 := Out(s, Marker(1, path));
      Processed(ProcessLines(fs, path, depth, LinesFrom(fs.text[path], 0), 1, s1), true)
  }

  function ProcessLines(fs: Files, path: string, depth: nat, lines: seq<string>, lineNo: nat, s: Flat): Flat
    requires depth < MAX_INCLUDE
    decreases MAX_INCLUDE - depth, 0, |lines|, 1
  {
    if lines == [] then s
    else
      var s1 := ProcessLine(fs, path, depth, lines[0], lineNo, s);
      ProcessLines(fs, path, depth, lines[1..], lineNo + 1, s1)
  }

  /** The file that the argument of an `#include` in a file leads to. */
  function Target(fs: Files, path: string, arg: string): Option<string> {
    var spec := IncludeSpec(arg);
    if spec.None? then None else fs.resolve(path, spec.value.0, spec.value.1)
  }

  /** The file an `#include` line leads to, if the line is live and the file is found. */
  function IncludeTarget(fs: Files, path: string, line: string, s: Flat): Option<string> {
    var d := Classify(line);
    if !d.Include? || !Active(s.frames) then None else Target(fs, path, d.arg)
  }

  function ProcessLine(fs: Files, path: string, depth: nat, line: string, lineNo: nat, s: Flat): Flat
    requires depth < MAX_INCLUDE
    decreases MAX_INCLUDE - depth, 0, 0
  {
    var d := Classify(line);
    if !d.Include? then Step(d, s)
    else
      var target := IncludeTarget(fs, path, line, s);
      if target.Some? then
        var r := ProcessFile(fs, target.value, depth + 1, s);
        Out(Out(r.flat, Marker(lineNo + 1, path)), Code(""))
      else Out(if Active(s.frames) then Blame(s) else s, Code(""))
  }

  // ------------------------------------------------------- what grouped files mean

  function ClassifyAll(lines: seq<string>): (r: seq<Directive>)
    ensures |r| == |lines|
  {
    if lines == [] then [] else [Classify(lines[0])] + ClassifyAll(lines[1..])
  }

  /** The files that `trees` knows are made of the well-nested groups that it gives.  Others
      may hold anything. */
  ghost predicate Grouped(fs: Files, trees: map<string, seq<Item>>) {
    forall p :: p in trees && p in fs.text ==>
      WellNested(trees[p]) && ClassifyAll(LinesFrom(fs.text[p], 0)) == Flatten(trees[p])
  }

  /** What the groups of a file mean, `depth` includes down and in a live region: a marker,
      and then its items, where an `#include` means what the groups of that file mean.  For
      a file that is not known it says nothing. */
  ghost function FileMeaning(fs: Files, trees: map<string, seq<Item>>, path: string, depth: nat, c: Core): Core
    requires Grouped(fs, trees) && depth <= MAX_INCLUDE
    decreases MAX_INCLUDE - depth, 2
  {
    if depth == MAX_INCLUDE || path !in fs.text then Fail(c, 1)
    else if path !in trees then c
    else Meaning(IncludesOf(fs, trees, path, depth), trees[path], 1, true, Mark(c, 1, path))
  }

  function Mark(c: Core, n: nat, path: string): Core {
    c.(out := c.out + [Marker(n, path)])
  }

  /** How deeply the groups of a file nest, with those of the files it includes; too deeply,
      as it were, if one of them is not known. */
  ghost function FileDepth(fs: Files, trees: map<string, seq<Item>>, path: string, depth: nat): nat
    requires Grouped(fs, trees) && depth <= MAX_INCLUDE
    decreases MAX_INCLUDE - depth, 2
  {
    if depth == MAX_INCLUDE || path !in fs.text then 0
    else if path !in trees then MAX_FRAMES + 1
    else Depth(IncludesOf(fs, trees, path, depth), trees[path])
  }

  ghost function IncludesOf(fs: Files, trees: map<string, seq<Item>>, path: string, depth: nat): Includes
    requires Grouped(fs, trees) && depth < MAX_INCLUDE
    decreases MAX_INCLUDE - depth, 1
  {
    Includes((arg: string, n: nat, s: Flat) => Follow(fs, path, depth, arg, n, s),
             (arg: string, n: nat, c: Core) => FollowMeaning(fs, trees, path, depth, arg, n, c),
             (arg: string) => FollowDepth(fs, trees, path, depth, arg))
  }

  function Follow(fs: Files, path: string, depth: nat, arg: string, n: nat, s: Flat): Flat
    requires depth < MAX_INCLUDE
  {
    var target := Target(fs, path, arg);
    if target.None? then Out(Blame(s), Code(""))
    else Out(Out(ProcessFile(fs, target.value, depth + 1, s).flat, Marker(n + 1, path)), Code(""))
  }

  ghost function FollowMeaning(fs: Files, trees: map<string, seq<Item>>, path: string, depth: nat, arg: string, n: nat,
                               c: Core): Core
    requires Grouped(fs, trees) && depth < MAX_INCLUDE
    decreases MAX_INCLUDE - depth, 0
  {
    var target := Target(fs, path, arg);
    if target.None? then Emit(Fail(c, 1), "")
    else Emit(Mark(FileMeaning(fs, trees, target.value, depth + 1, c), n + 1, path), "")
  }

  ghost function FollowDepth(fs: Files, trees: map<string, seq<Item>>, path: string, depth: nat, arg: string): nat
    requires Grouped(fs, trees) && depth < MAX_INCLUDE
    decreases MAX_INCLUDE - depth, 0
  {
    var target := Target(fs, path, arg);
    if target.None? then 0 else FileDepth(fs, trees, target.value, depth + 1)
  }

  /** The lines of a file are run as its directives. */
  lemma {:induction false} LinesRun(fs: Files, trees: map<string, seq<Item>>, path: string, depth: nat,
                                    lines: seq<string>, n: nat, s: Flat)
    requires Grouped(fs, trees) && depth < MAX_INCLUDE
    ensures ProcessLines(fs, path, depth, lines, n, s)
      == Run(IncludesOf(fs, trees, path, depth), ClassifyAll(lines), n, s)
    decreases |lines|
  {
    hide StepLine, ProcessLine, IncludesOf, Grouped;
    if lines != [] {
      var ds := ClassifyAll(lines);
      assert ds[0] == Classify(lines[0]) && ds[1..] == ClassifyAll(lines[1..]);
      LineRuns(fs, trees, path, depth, lines[0], n, s);
      LinesRun(fs, trees, path, depth, lines[1..], n + 1, ProcessLine(fs, path, depth, lines[0], n, s));
    }
  }

  lemma LineRuns(fs: Files, trees: map<string, seq<Item>>, path: string, depth: nat, line: string, n: nat, s: Flat)
    requires Grouped(fs, trees) && depth < MAX_INCLUDE
    ensures ProcessLine(fs, path, depth, line, n, s) ==
            StepLine(IncludesOf(fs, trees, path, depth), Classify(line), n, s)
  {
    hide Classify, Step, ProcessFile, Target, Active, Grouped;
  }

  /** A file that consists, with all it includes, of groups that fit on the stack comes out
      as the groups mean, and leaves the stack as it was, whichever files include which. */
  lemma {:induction false} FileMeans(fs: Files, trees: map<string, seq<Item>>, path: string, depth: nat, c: Core,
                                     frames: Frames)
    requires Grouped(fs, trees) && depth <= MAX_INCLUDE
    requires WellStacked(frames) && Active(frames) && |frames| + FileDepth(fs, trees, path, depth) <= MAX_FRAMES
    ensures ProcessFile(fs, path, depth, With(c, frames))
      == Processed(With(FileMeaning(fs, trees, path, depth, c), frames), depth < MAX_INCLUDE && path in fs.text)
    decreases MAX_INCLUDE - depth, 1
  {
    hide Meaning, Flatten, Run, LinesFrom, ClassifyAll, Depth, WellNested, ProcessLines, Agree, IncludesOf, WellStacked,
         Active;
    if depth < MAX_INCLUDE && path in fs.text {
      var inc, lines := IncludesOf(fs, trees, path, depth), LinesFrom(fs.text[path], 0);
      IncludesAgree(fs, trees, path, depth);
      LinesRun(fs, trees, path, depth, lines, 1, With(Mark(c, 1, path), frames));
      ItemsRefine(inc, trees[path], 1, Mark(c, 1, path), frames);
    }
  }

  lemma {:induction false} IncludesAgree(fs: Files, trees: map<string, seq<Item>>, path: string, depth: nat)
    requires Grouped(fs, trees) && depth < MAX_INCLUDE
    ensures Agree(IncludesOf(fs, trees, path, depth))
    decreases MAX_INCLUDE - depth, 0
  {
    hide WellStacked, Active, ProcessFile, FileMeaning, FileDepth, Target, Grouped;
    var inc := IncludesOf(fs, trees, path, depth);
    forall arg, n, c, frames | WellStacked(frames) && Active(frames) && |frames| + inc.depth(arg) <= MAX_FRAMES
      ensures inc.machine(arg, n, With(c, frames)) == With(inc.meaning(arg, n, c), frames)
    {
      assert inc.depth(arg) == FollowDepth(fs, trees, path, depth, arg);
      assert inc.machine(arg, n, With(c, frames)) == Follow(fs, path, depth, arg, n, With(c, frames));
      assert inc.meaning(arg, n, c) == FollowMeaning(fs, trees, path, depth, arg, n, c);
      var target := Target(fs, path, arg);
      if target.Some? {
        FileMeans(fs, trees, target.value, depth + 1, c, frames);
      }
    }
  }

  // ---------------------------------------------------------- what every run keeps

  /** The stack is in order and no larger than its array, and no macro is defined twice. */
  ghost predicate InOrder(s: Flat) {
    WellStacked(s.frames) && Distinct(s.core.macros)
  }

  lemma StepInOrder(d: Directive, s: Flat)
    requires !d.Include? && InOrder(s)
    ensures InOrder(Step(d, s))
  {
    hide Add, Remove, WellStacked, Distinct, Test, TestExpr, Active;
    StepKeeps(d, s);
    if d.Define? { AddIsUpdate(s.core.macros, d.name, d.macro, d.name); }
    if d.Undef? { RemoveIsErase(s.core.macros, d.name, d.name); }
  }

  lemma {:induction false} FileInOrder(fs: Files, path: string, depth: nat, s: Flat)
    requires InOrder(s)
    ensures InOrder(ProcessFile(fs, path, depth, s).flat)
    decreases MAX_INCLUDE - depth, 1
  {
    hide ProcessLines, LinesFrom, WellStacked, Distinct;
    if depth < MAX_INCLUDE && path in fs.text {
      LinesInOrder(fs, path, depth, LinesFrom(fs.text[path], 0), 1, Out(s, Marker(1, path)));
    }
  }

  lemma {:induction false} LinesInOrder(fs: Files, path: string, depth: nat, lines: seq<string>, lineNo: nat, s: Flat)
    requires depth < MAX_INCLUDE && InOrder(s)
    ensures InOrder(ProcessLines(fs, path, depth, lines, lineNo, s))
    decreases MAX_INCLUDE - depth, 0, |lines|, 1
  {
    hide ProcessLine, InOrder;
    if lines != [] {
      LineInOrder(fs, path, depth, lines[0], lineNo, s);
      LinesInOrder(fs, path, depth, lines[1..], lineNo + 1, ProcessLine(fs, path, depth, lines[0], lineNo, s));
    }
  }

  /** Whatever the files say, with includes and unbalanced conditionals, each line keeps it. */
  lemma {:induction false} LineInOrder(fs: Files, path: string, depth: nat, line: string, lineNo: nat, s: Flat)
    requires depth < MAX_INCLUDE && InOrder(s)
    ensures InOrder(ProcessLine(fs, path, depth, line, lineNo, s))
    decreases MAX_INCLUDE - depth, 0, 0
  {
    hide ProcessFile, Step, WellStacked, Distinct, Classify, IncludeSpec, Active;
    var d := Classify(line);
    if !d.Include? {
      StepInOrder(d, s);
    } else {
      var target := IncludeTarget(fs, path, line, s);
      if target.Some? { FileInOrder(fs, target.value, depth + 1, s); }
    }
  }
}
