/** What lines, groups and files do to the output, from their text. */
module GroupText {
  import opened Syntax
  import opened Seqs
  import opened Macros
  import opened Directives
  import opened Conditionals
  import opened CondRefines
  import opened PreprocSpec
  import opened DirectiveText
  import ExpandSpec
  import IfEval

  /** `k` more lines, all blank. */
  function Blanks(c: Core, k: nat): Core
    decreases k
  {
    if k == 0 then c else Blanks(Core(c.macros, c.out + [Code("")], c.errs), k - 1)
  }

  lemma {:induction false} BlanksJoin(c: Core, a: nat, b: nat)
    ensures Blanks(Blanks(c, a), b) == Blanks(c, a + b)
    decreases a
  {
    if a > 0 { BlanksJoin(Core(c.macros, c.out + [Code("")], c.errs), a - 1, b); }
  }

  lemma BlankOne(c: Core)
    ensures Emit(c, "") == Blanks(c, 1)
  {
    assert Blanks(Emit(c, ""), 0) == Emit(c, "");
  }

  lemma {:induction false} BlanksKeep(c: Core, k: nat)
    ensures Blanks(c, k).macros == c.macros && Blanks(c, k).errs == c.errs
    decreases k
  {
    if k > 0 { BlanksKeep(Core(c.macros, c.out + [Code("")], c.errs), k - 1); }
  }

  // ------------------------------------------------------------------ one line

  /** What a line that is no conditional and no `#include` leaves behind. */
  ghost predicate LineLeaves(w: Wording, g: Gaps, live: bool, c: Core, after: Core) {
    match w
    case TextLine(text) =>
      var x := if live then ExpandSpec.Expand(c.macros, g.before + text) else ExpandSpec.Expanded("", 0);
      after == Core(c.macros, c.out + [Code(x.out)], c.errs + x.errs)
    case DefineLine(def) =>
      && after.out == c.out + [Code("")] && after.errs == c.errs
      && forall name :: Find(after.macros, name) ==
                        if live && name == def.name then Some(MacroOf(def)) else Find(c.macros, name)
    case UndefLine(name, _) =>
      && after.out == c.out + [Code("")] && after.errs == c.errs
      && forall other :: Find(after.macros, other) ==
                         if live && other == Cut(name) then None else Find(c.macros, other)
    case ErrorText(_) => after == Core(c.macros, c.out + [Code("")], if live then c.errs + 1 else c.errs)
    case PragmaLine(tail) =>
      after == Core(c.macros, c.out + [Code("#" + (g.inside + ("pragma" + (g.after + tail))))], c.errs)
    case LineLine(tail) =>
      after == Core(c.macros, c.out + [Code("#" + (g.inside + ("line" + (g.after + tail))))], c.errs)
    case OtherLine(_, _) => after == Core(c.macros, c.out + [Code("")], c.errs)
    case _ => true
  }

  predicate SimpleLine(w: Wording) {
    w.TextLine? || w.DefineLine? || w.UndefLine? || w.ErrorText? || w.PragmaLine? || w.LineLine? || w.OtherLine?
  }

  /** Live or dead, such a line does what it should and leaves the stack alone. */
  lemma LineDoes(fs: Files, path: string, depth: nat, w: Wording, g: Gaps, n: nat, s: Flat)
    requires depth < MAX_INCLUDE && CanWrite(w, g) && SimpleLine(w) && Distinct(s.core.macros)
    ensures var s1 := ProcessLine(fs, path, depth, Written(w, g), n, s);
      s1.frames == s.frames && LineLeaves(w, g, Active(s.frames), s.core, s1.core)
  {
    hide Classify, Written, CanWrite, ProcessFile, Add, Remove, Find, Active, Distinct, ExpandSpec.Expand, Cut, MacroOf;
    ClassifyWritten(w, g);
    if w.DefineLine? {
      forall name { AddIsUpdate(s.core.macros, w.def.name, MacroOf(w.def), name); }
    }
    if w.UndefLine? {
      forall name { RemoveIsErase(s.core.macros, Cut(w.name), name); }
    }
  }

  // ------------------------------------------------------------------ groups

  /** A line that opens or continues a group, and the lines up to the next one: any that are
      well nested. */
  datatype Part = Part(w: Wording, g: Gaps, body: seq<string>, items: seq<Item>)

  function LinesOf(parts: seq<Part>): seq<string> {
    if parts == [] then [] else [Written(parts[0].w, parts[0].g)] + (parts[0].body + LinesOf(parts[1..]))
  }

  /** The test of a line holds: a macro of that name is defined, or none is, or the value of
      the expression is not zero. */
  predicate Holds(w: Wording, t: Table) {
    match w
    case IfdefLine(name, _) => Cut(name) in Names(t)
    case IfndefLine(name, _) => Cut(name) !in Names(t)
    case IfLine(expr) => IfEval.EvalExpr(t, expr, 0).v != 0
    case ElifLine(expr) => IfEval.EvalExpr(t, expr, 0).v != 0
    case _ => true
  }

  /** The first part whose test holds, if any. */
  function Chosen(parts: seq<Part>, t: Table): (k: nat)
    ensures k <= |parts|
  {
    if parts == [] || Holds(parts[0].w, t) then 0 else 1 + Chosen(parts[1..], t)
  }

  ghost predicate PartOk(p: Part) {
    CanWrite(p.w, p.g) && WellNested(p.items) && ClassifyAll(p.body) == Flatten(p.items)
  }

  /** `#elif` parts, and perhaps an `#else` part after them. */
  ghost predicate PartsOk(parts: seq<Part>) {
    parts == [] ||
    (PartOk(parts[0]) && PartsOk(parts[1..]) &&
     (parts[0].w.ElifLine? || (parts[0].w.ElseLine? && |parts| == 1)))
  }

  /** No `#pragma` and no `#line`, which come out even in a dead region. */
  predicate Quiet(lines: seq<string>) {
    forall k :: 0 <= k < |lines| ==> !Classify(lines[k]).PassThrough?
  }

  predicate AllQuiet(parts: seq<Part>) {
    forall k :: 0 <= k < |parts| ==> Quiet(parts[k].body)
  }

  /** None in the parts before and after number `k`. */
  predicate OthersQuiet(parts: seq<Part>, k: nat)
    requires k <= |parts|
  {
    AllQuiet(parts[..k]) && (k < |parts| ==> AllQuiet(parts[k + 1..]))
  }

  function BranchesOf(parts: seq<Part>): seq<Branch> {
    if parts == [] || !parts[0].w.ElifLine? then []
    else [Branch(parts[0].w.expr, parts[0].items)] + BranchesOf(parts[1..])
  }

  function ElseOf(parts: seq<Part>): Rest {
    if parts == [] then NoElse
    else if parts[0].w.ElifLine? then ElseOf(parts[1..])
    else HasElse(parts[0].items)
  }

  lemma {:induction false} ClassifyJoin(a: seq<string>, b: seq<string>)
    ensures ClassifyAll(a + b) == ClassifyAll(a) + ClassifyAll(b)
    decreases |a|
  {
    hide Classify;
    if a == [] {
      assert a + b == b;
    } else {
      assert (a + b)[0] == a[0] && (a + b)[1..] == a[1..] + b;
      ClassifyJoin(a[1..], b);
    }
  }

  lemma ClassifyOne(line: string)
    ensures ClassifyAll([line]) == [Classify(line)]
  {
    hide Classify;
    assert [line][1..] == [];
  }

  /** The lines of one part and of the others, classified. */
  lemma PartClassified(p: Part, rest: seq<string>)
    requires PartOk(p)
    ensures ClassifyAll([Written(p.w, p.g)] + (p.body + rest))
      == [Says(p.w, p.g)] + (Flatten(p.items) + ClassifyAll(rest))
  {
    hide Classify, Written, CanWrite, Says, ClassifyAll, Flatten, WellNested;
    ClassifyWritten(p.w, p.g);
    ClassifyOne(Written(p.w, p.g));
    ClassifyJoin([Written(p.w, p.g)], p.body + rest);
    ClassifyJoin(p.body, rest);
  }

  lemma FirstBranch(b: Branch, bs: seq<Branch>)
    requires WellNested(b.body) && NestedBranches(bs)
    ensures NestedBranches([b] + bs)
    ensures FlattenBranches([b] + bs) == [HashElif(b.expr)] + (Flatten(b.body) + FlattenBranches(bs))
  {
    hide WellNested, Flatten;
    var all := [b] + bs;
    assert all[0] == b && all[1..] == bs;
    assert FlattenBranches(all) == [HashElif(all[0].expr)] + (Flatten(all[0].body) + FlattenBranches(all[1..]));
  }

  ghost predicate Nested(parts: seq<Part>) {
    NestedBranches(BranchesOf(parts)) && (ElseOf(parts).HasElse? ==> WellNested(ElseOf(parts).body))
  }

  lemma {:induction false} PartsFlatten(parts: seq<Part>)
    requires PartsOk(parts)
    ensures Nested(parts)
    ensures ClassifyAll(LinesOf(parts)) == FlattenBranches(BranchesOf(parts)) + FlattenElse(ElseOf(parts))
  {
    hide Flatten, WellNested, CanWrite, Written, Classify, ClassifyAll, FlattenBranches, NestedBranches;
    NoBranches();
    if parts != [] {
      PartClassified(parts[0], LinesOf(parts[1..]));
      if parts[0].w.ElifLine? {
        PartsFlatten(parts[1..]);
        FirstBranch(Branch(parts[0].w.expr, parts[0].items), BranchesOf(parts[1..]));
      } else {
        assert parts[1..] == [];
      }
    }
  }

  lemma NoBranches()
    ensures NestedBranches([]) && FlattenBranches([]) == [] && ClassifyAll([]) == []
  {
  }

  // ------------------------------------------------------------------ dead lines

  predicate Silent(ds: seq<Directive>) {
    forall k :: 0 <= k < |ds| ==> !ds[k].PassThrough?
  }

  lemma SilentParts(a: seq<Directive>, b: seq<Directive>)
    requires Silent(a + b)
    ensures Silent(a) && Silent(b)
  {
    forall k | 0 <= k < |a| ensures !a[k].PassThrough? { assert a[k] == (a + b)[k]; }
    forall k | 0 <= k < |b| ensures !b[k].PassThrough? { assert b[k] == (a + b)[|a| + k]; }
  }

  /** Dead items come out blank and do nothing. */
  lemma {:induction false} DeadMeaning(inc: Includes, items: seq<Item>, n: nat, c: Core)
    requires WellNested(items) && Silent(Flatten(items))
    ensures Meaning(inc, items, n, false, c) == Blanks(c, |Flatten(items)|)
    decreases items, 1
  {
    hide MeaningItem, FlattenItem, WellNestedItem, Blanks, Silent;
    if items == [] {
      NoBlanks(c);
    } else {
      SilentParts(FlattenItem(items[0]), Flatten(items[1..]));
      DeadItem(inc, items[0], n, c);
      var c1 := Blanks(c, |FlattenItem(items[0])|);
      DeadMeaning(inc, items[1..], n + |FlattenItem(items[0])|, c1);
      BlanksJoin(c, |FlattenItem(items[0])|, |Flatten(items[1..])|);
    }
  }

  lemma NoBlanks(c: Core)
    ensures Blanks(c, 0) == c
  {
  }

  lemma {:induction false} DeadItem(inc: Includes, item: Item, n: nat, c: Core)
    requires WellNestedItem(item) && Silent(FlattenItem(item))
    ensures MeaningItem(inc, item, n, false, c) == Blanks(c, |FlattenItem(item)|)
    decreases item
  {
    hide Meaning, MeaningBranches, MeaningElse, Flatten, FlattenBranches, FlattenElse, WellNested, NestedBranches, Test,
         Blanks, Silent;
    match item
    case Leaf(d) =>
      DeadLeaf(d, c);
    case Group(test, body, elifs, els) =>
      var f, fb, fe := Flatten(body), FlattenBranches(elifs), FlattenElse(els);
      SilentParts([test], f + (fb + (fe + [HashEndif])));
      SilentParts(f, fb + (fe + [HashEndif]));
      SilentParts(fb, fe + [HashEndif]);
      SilentParts(fe, [HashEndif]);
      var taken := Test(test, c.macros);
      BlankOne(c);
      DeadMeaning(inc, body, n + 1, Blanks(c, 1));
      BlanksJoin(c, 1, |f|);
      var c1 := Blanks(c, 1 + |f|);
      DeadBranches(inc, elifs, n + 1 + |f|, false, taken, c1);
      var r := MeaningBranches(inc, elifs, n + 1 + |f|, false, taken, c1);
      BlanksJoin(c, 1 + |f|, |fb|);
      DeadElse(inc, els, n + 1 + |f| + |fb|, r.core);
      BlanksJoin(c, 1 + |f| + |fb|, |fe|);
      BlankOne(Blanks(c, 1 + |f| + |fb| + |fe|));
      BlanksJoin(c, 1 + |f| + |fb| + |fe|, 1);
  }

  lemma DeadLeaf(d: Directive, c: Core)
    requires WellNestedItem(Leaf(d)) && Silent(FlattenItem(Leaf(d)))
    ensures (if !d.Include? then LeafStep(d, false, c) else Emit(c, "")) == Blanks(c, 1) && |FlattenItem(Leaf(d))| == 1
  {
    hide Blanks;
    BlankOne(c);
    assert FlattenItem(Leaf(d))[0] == d;
  }

  /** A branch is dead if the group is, or if some branch before it was taken. */
  lemma {:induction false} DeadBranches(inc: Includes, bs: seq<Branch>, n: nat, live: bool, taken: bool, c: Core)
    requires NestedBranches(bs) && Silent(FlattenBranches(bs)) && (live ==> taken)
    ensures MeaningBranches(inc, bs, n, live, taken, c).core == Blanks(c, |FlattenBranches(bs)|)
    ensures live ==> MeaningBranches(inc, bs, n, live, taken, c).taken
    decreases bs
  {
    hide Meaning, Flatten, WellNested, TestExpr, Blanks, Silent;
    if bs == [] {
      NoBlanks(c);
    } else {
      var f, fb := Flatten(bs[0].body), FlattenBranches(bs[1..]);
      SilentParts([HashElif(bs[0].expr)], f + fb);
      SilentParts(f, fb);
      BlankOne(c);
      DeadMeaning(inc, bs[0].body, n + 1, Blanks(c, 1));
      BlanksJoin(c, 1, |f|);
      var here := !taken && TestExpr(bs[0].expr, c.macros);
      DeadBranches(inc, bs[1..], n + 1 + |f|, live, taken || here, Blanks(c, 1 + |f|));
      BlanksJoin(c, 1 + |f|, |fb|);
    }
  }

  lemma {:induction false} DeadElse(inc: Includes, els: Rest, n: nat, c: Core)
    requires (els.HasElse? ==> WellNested(els.body)) && Silent(FlattenElse(els))
    ensures MeaningElse(inc, els, n, false, c) == Blanks(c, |FlattenElse(els)|)
    decreases els
  {
    hide Meaning, Flatten, WellNested, Blanks, Silent;
    if els.NoElse? {
      NoBlanks(c);
    } else {
      SilentParts([HashElse], Flatten(els.body));
      BlankOne(c);
      DeadMeaning(inc, els.body, n + 1, Blanks(c, 1));
      BlanksJoin(c, 1, |Flatten(els.body)|);
    }
  }

  lemma {:induction false} QuietSilent(lines: seq<string>)
    requires Quiet(lines)
    ensures Silent(ClassifyAll(lines))
    decreases |lines|
  {
    hide Classify;
    if lines != [] { QuietSilent(lines[1..]); }
  }

  lemma SilentJoin(a: seq<Directive>, b: seq<Directive>)
    requires Silent(a) && Silent(b)
    ensures Silent(a + b)
  {
  }

  lemma {:induction false} PartsSilent(parts: seq<Part>)
    requires PartsOk(parts) && AllQuiet(parts)
    ensures Silent(ClassifyAll(LinesOf(parts)))
    decreases |parts|
  {
    hide LinesOf, ClassifyAll, Flatten, PartOk, Quiet, Silent;
    NoLines();
    if parts == [] {
      NoBranches();
      assert Silent(ClassifyAll(LinesOf([]))) by { QuietNone(); QuietSilent([]); }
    } else {
      PartLines(parts);
      QuietSilent(parts[0].body);
      PartsSilent(parts[1..]);
      PartBody(parts[0]);
      HeaderSilent(parts[0].w, parts[0].g);
      SilentJoin(Flatten(parts[0].items), ClassifyAll(LinesOf(parts[1..])));
      SilentJoin([Says(parts[0].w, parts[0].g)], Flatten(parts[0].items) + ClassifyAll(LinesOf(parts[1..])));
    }
  }

  lemma QuietNone()
    ensures Quiet([])
  {
  }

  lemma PartBody(p: Part)
    requires PartOk(p)
    ensures ClassifyAll(p.body) == Flatten(p.items) && WellNested(p.items)
  {
  }

  lemma HeaderSilent(w: Wording, g: Gaps)
    requires w.ElifLine? || w.ElseLine?
    ensures Silent([Says(w, g)])
  {
  }

  // ------------------------------------------------------------- the part that is live

  /** Of the parts from line `n` on the first whose test holds is live. */
  function Outcome(inc: Includes, parts: seq<Part>, n: nat, c: Core): Core
    requires forall k :: 0 <= k < |parts| ==> WellNested(parts[k].items)
  {
    if parts == [] then c
    else if Holds(parts[0].w, c.macros) then
      Blanks(Meaning(inc, parts[0].items, n + 1, true, Blanks(c, 1)), |LinesOf(parts[1..])|)
    else Outcome(inc, parts[1..], n + 1 + |parts[0].body|, Blanks(c, 1 + |parts[0].body|))
  }

  /** What the `#elif` and `#else` parts mean. */
  function PartsMeaning(inc: Includes, parts: seq<Part>, n: nat, taken: bool, c: Core): Core
    requires Nested(parts)
  {
    var r := MeaningBranches(inc, BranchesOf(parts), n, true, taken, c);
    MeaningElse(inc, ElseOf(parts), n + |FlattenBranches(BranchesOf(parts))|, !r.taken, r.core)
  }

  lemma PartsDead(inc: Includes, parts: seq<Part>, n: nat, c: Core)
    requires PartsOk(parts) && Nested(parts) && AllQuiet(parts)
    ensures PartsMeaning(inc, parts, n, true, c) == Blanks(c, |LinesOf(parts)|)
  {
    hide MeaningBranches, MeaningElse, Blanks, Silent, FlattenBranches, FlattenElse, BranchesOf, ElseOf, LinesOf,
         ClassifyAll, PartsOk, AllQuiet;
    PartsSilent(parts);
    PartsFlatten(parts);
    var bs, els := BranchesOf(parts), ElseOf(parts);
    SilentParts(FlattenBranches(bs), FlattenElse(els));
    DeadBranches(inc, bs, n, true, true, c);
    var r := MeaningBranches(inc, bs, n, true, true, c);
    DeadElse(inc, els, n + |FlattenBranches(bs)|, r.core);
    BlanksJoin(c, |FlattenBranches(bs)|, |FlattenElse(els)|);
  }

  lemma PartsNested(parts: seq<Part>)
    requires PartsOk(parts)
    ensures forall k :: 0 <= k < |parts| ==> WellNested(parts[k].items)
  {
    hide WellNested, PartOk, PartsOk;
    forall k | 0 <= k < |parts| ensures WellNested(parts[k].items) {
      PartAmong(parts, k);
      PartBody(parts[k]);
    }
  }

  /** One `#elif` part and the others. */
  lemma ElifMeaning(inc: Includes, parts: seq<Part>, n: nat, taken: bool, c: Core)
    requires parts != [] && parts[0].w.ElifLine? && Nested(parts) && Nested(parts[1..]) && WellNested(parts[0].items)
    ensures var p := parts[0];
      var here := !taken && Holds(p.w, c.macros);
      PartsMeaning(inc, parts, n, taken, c) ==
      PartsMeaning(inc, parts[1..], n + 1 + |Flatten(p.items)|, taken || here,
                   Meaning(inc, p.items, n + 1, here, Emit(c, "")))
  {
    hide Meaning, MeaningElse, Flatten, WellNested, MeaningBranches, FlattenBranches, NestedBranches, Holds, TestExpr;
    var p := parts[0];
    var b, bs := Branch(p.w.expr, p.items), BranchesOf(parts[1..]);
    assert Holds(p.w, c.macros) == TestExpr(p.w.expr, c.macros) by { ElifTest(p.w, c.macros); }
    FirstBranch(b, bs);
    BranchMeaning(inc, b, bs, n, taken, c);
  }

  lemma ElifTest(w: Wording, t: Table)
    requires w.ElifLine?
    ensures Holds(w, t) == TestExpr(w.expr, t)
  {
    hide IfEval.EvalExpr;
  }

  lemma BranchMeaning(inc: Includes, b: Branch, bs: seq<Branch>, n: nat, taken: bool, c: Core)
    requires NestedBranches([b] + bs) && NestedBranches(bs) && WellNested(b.body)
    ensures var here := !taken && TestExpr(b.expr, c.macros);
      MeaningBranches(inc, [b] + bs, n, true, taken, c) ==
      MeaningBranches(inc, bs, n + 1 + |Flatten(b.body)|, true, taken || here,
                      Meaning(inc, b.body, n + 1, here, Emit(c, "")))
  {
    hide Meaning, Flatten, WellNested, TestExpr;
    assert ([b] + bs)[0] == b && ([b] + bs)[1..] == bs;
  }

  /** A part that is not chosen is quiet, and so are those after the chosen one. */
  lemma ChosenQuiet(parts: seq<Part>, t: Table)
    requires parts != [] && PartOk(parts[0]) && OthersQuiet(parts, Chosen(parts, t))
    ensures Holds(parts[0].w, t) ==> AllQuiet(parts[1..])
    ensures !Holds(parts[0].w, t) ==> OthersQuiet(parts[1..], Chosen(parts[1..], t)) && Silent(Flatten(parts[0].items))
  {
    hide Holds, Quiet, Silent, CanWrite, WellNested;
    if !Holds(parts[0].w, t) {
      var k := Chosen(parts[1..], t);
      assert parts[..k + 1][0] == parts[0] && parts[..k + 1][1..] == parts[1..][..k];
      if k < |parts[1..]| { assert parts[1..][k + 1..] == parts[k + 2..]; }
      QuietSilent(parts[0].body);
    }
  }

  /** Of the `#elif` and `#else` parts, if none before them was, the first whose test holds is live. */
  lemma {:induction false} PartsLive(inc: Includes, parts: seq<Part>, n: nat, c: Core)
    requires PartsOk(parts) && Nested(parts) && OthersQuiet(parts, Chosen(parts, c.macros))
    requires forall k :: 0 <= k < |parts| ==> WellNested(parts[k].items)
    ensures PartsMeaning(inc, parts, n, false, c) == Outcome(inc, parts, n, c)
    decreases |parts|
  {
    hide Meaning, MeaningBranches, MeaningElse, Blanks, Silent, BranchesOf, ElseOf, Flatten, ClassifyAll, PartOk, Holds,
         Nested, PartsMeaning, LinesOf, WellNested;
    if parts == [] {
      NoPartsMeaning(inc, n, c);
    } else {
      var p, rest := parts[0], parts[1..];
      PartLines(parts);
      ChosenQuiet(parts, c.macros);
      BlankOne(c);
      if p.w.ElifLine? {
        var m := n + 1 + |p.body|;
        PartsFlatten(rest);
        ElifMeaning(inc, parts, n, false, c);
        if Holds(p.w, c.macros) {
          PartsDead(inc, rest, m, Meaning(inc, p.items, n + 1, true, Blanks(c, 1)));
        } else {
          DeadMeaning(inc, p.items, n + 1, Blanks(c, 1));
          BlanksJoin(c, 1, |p.body|);
          BlanksKeep(c, 1 + |p.body|);
          PartsLive(inc, rest, m, Blanks(c, 1 + |p.body|));
        }
      } else {
        assert rest == [];
        ElseMeaning(inc, parts, n, c);
      }
    }
  }

  /** The lines of a part and of the others. */
  lemma PartLines(parts: seq<Part>)
    requires parts != [] && PartOk(parts[0])
    ensures var p, rest := parts[0], LinesOf(parts[1..]);
      && ClassifyAll(LinesOf(parts)) == [Says(p.w, p.g)] + (Flatten(p.items) + ClassifyAll(rest))
      && |LinesOf(parts)| == 1 + |p.body| + |rest| && |Flatten(p.items)| == |p.body|
  {
    hide Classify, Written, CanWrite, Says, Flatten, WellNested, ClassifyAll;
    PartClassified(parts[0], LinesOf(parts[1..]));
  }

  lemma NoPartsMeaning(inc: Includes, n: nat, c: Core)
    requires Nested([])
    ensures PartsMeaning(inc, [], n, false, c) == c
  {
  }

  lemma ElseMeaning(inc: Includes, parts: seq<Part>, n: nat, c: Core)
    requires |parts| == 1 && parts[0].w.ElseLine? && Nested(parts) && WellNested(parts[0].items)
    ensures Holds(parts[0].w, c.macros)
    ensures PartsMeaning(inc, parts, n, false, c)
      == Blanks(Meaning(inc, parts[0].items, n + 1, true, Emit(c, "")), |LinesOf(parts[1..])|)
  {
    hide Meaning, WellNested;
    assert parts[1..] == [];
  }

  /** The same, by the number of the part. */
  lemma {:induction false} OutcomeChosen(inc: Includes, parts: seq<Part>, n: nat, c: Core)
    requires forall k :: 0 <= k < |parts| ==> WellNested(parts[k].items)
    ensures var k := Chosen(parts, c.macros);
      Outcome(inc, parts, n, c) ==
      if k == |parts| then Blanks(c, |LinesOf(parts)|)
      else
        var before := |LinesOf(parts[..k])| + 1;
        Blanks(Meaning(inc, parts[k].items, n + before, true, Blanks(c, before)), |LinesOf(parts[k + 1..])|)
    decreases |parts|
  {
    hide Meaning, Blanks, Holds, WellNested, LinesOf;
    NoLines();
    if parts == [] {
      NoBlanks(c);
    } else if Holds(parts[0].w, c.macros) {
      assert parts[..0] == [];
    } else {
      var rest, m := parts[1..], 1 + |parts[0].body|;
      var k := Chosen(rest, c.macros);
      BlanksKeep(c, m);
      FirstLines(parts);
      OutcomeChosen(inc, rest, n + m, Blanks(c, m));
      if k == |rest| {
        BlanksJoin(c, m, |LinesOf(rest)|);
      } else {
        var before := |LinesOf(rest[..k])| + 1;
        assert parts[..k + 1][0] == parts[0] && parts[..k + 1][1..] == rest[..k] && parts[k + 2..] == rest[k + 1..];
        FirstLines(parts[..k + 1]);
        BlanksJoin(c, m, before);
      }
    }
  }

  lemma NoLines()
    ensures LinesOf([]) == []
  {
  }

  lemma FirstLines(parts: seq<Part>)
    requires parts != []
    ensures |LinesOf(parts)| == 1 + |parts[0].body| + |LinesOf(parts[1..])|
  {
    hide Written;
  }

  // ------------------------------------------------------------------ whole groups

  /** A group of text: an `#ifdef`, `#ifndef` or `#if` part, then `#elif` parts, and perhaps an `#else` part. */
  ghost predicate GroupOk(parts: seq<Part>) {
    && parts != [] && PartOk(parts[0]) && PartsOk(parts[1..])
    && (parts[0].w.IfdefLine? || parts[0].w.IfndefLine? || parts[0].w.IfLine?)
  }

  function GroupItem(parts: seq<Part>): Item
    requires parts != []
  {
    Group(Says(parts[0].w, parts[0].g), parts[0].items, BranchesOf(parts[1..]), ElseOf(parts[1..]))
  }

  lemma {:induction false} FindNames(t: Table, name: string)
    ensures Find(t, name).Some? <==> name in Names(t)
  {
    if t != [] {
      FindNames(t[1..], name);
      assert Names(t) == [t[0].name] + Names(t[1..]);
    }
  }

  lemma TestHolds(w: Wording, g: Gaps, t: Table)
    requires w.IfdefLine? || w.IfndefLine? || w.IfLine?
    ensures IsTest(Says(w, g)) && Test(Says(w, g), t) == Holds(w, t)
  {
    hide Find, Names, Cut, IfEval.EvalExpr;
    if !w.IfLine? { FindNames(t, Cut(w.name)); }
  }

  lemma GroupMeans(inc: Includes, parts: seq<Part>, n: nat, c: Core)
    requires GroupOk(parts) && OthersQuiet(parts, Chosen(parts, c.macros))
    requires forall k :: 0 <= k < |parts| ==> WellNested(parts[k].items)
    ensures WellNestedItem(GroupItem(parts))
    ensures MeaningItem(inc, GroupItem(parts), n, true, c) == Blanks(Outcome(inc, parts, n, c), 1)
  {
    hide Meaning, MeaningBranches, MeaningElse, Blanks, Silent, BranchesOf, ElseOf, Flatten, ClassifyAll, PartOk, Holds,
         LinesOf, WellNested, NestedBranches, Outcome, Test, Says, FlattenBranches;
    var p, rest := parts[0], parts[1..];
    var m := n + 1 + |p.body|;
    PartLines(parts);
    ChosenQuiet(parts, c.macros);
    TestHolds(p.w, p.g, c.macros);
    PartsFlatten(rest);
    BlankOne(c);
    OutcomeUnfold(inc, parts, n, c);
    if Holds(p.w, c.macros) {
      PartsDead(inc, rest, m, Meaning(inc, p.items, n + 1, true, Blanks(c, 1)));
    } else {
      DeadMeaning(inc, p.items, n + 1, Blanks(c, 1));
      BlanksJoin(c, 1, |p.body|);
      BlanksKeep(c, 1 + |p.body|);
      PartsLive(inc, rest, m, Blanks(c, 1 + |p.body|));
    }
    BlankOne(Outcome(inc, parts, n, c));
  }

  lemma OutcomeUnfold(inc: Includes, parts: seq<Part>, n: nat, c: Core)
    requires parts != [] && forall k :: 0 <= k < |parts| ==> WellNested(parts[k].items)
    ensures Outcome(inc, parts, n, c) ==
            if Holds(parts[0].w, c.macros) then
              Blanks(Meaning(inc, parts[0].items, n + 1, true, Blanks(c, 1)), |LinesOf(parts[1..])|)
            else Outcome(inc, parts[1..], n + 1 + |parts[0].body|, Blanks(c, 1 + |parts[0].body|))
  {
    hide Meaning, Blanks, Holds, WellNested, LinesOf;
  }

  lemma {:induction false} PartsDepth(inc: Includes, parts: seq<Part>, most: nat)
    requires PartsOk(parts) && forall k :: 0 <= k < |parts| ==> Depth(inc, parts[k].items) <= most
    ensures DepthBranches(inc, BranchesOf(parts)) <= most
    ensures ElseOf(parts).HasElse? ==> Depth(inc, ElseOf(parts).body) <= most
  {
    hide Depth, PartOk;
    if parts != [] {
      PartsDepth(inc, parts[1..], most);
      if parts[0].w.ElifLine? {
        var bs := BranchesOf(parts);
        assert bs[0] == Branch(parts[0].w.expr, parts[0].items) && bs[1..] == BranchesOf(parts[1..]);
      }
    }
  }

  lemma GroupDepth(inc: Includes, parts: seq<Part>, most: nat)
    requires GroupOk(parts) && forall k :: 0 <= k < |parts| ==> Depth(inc, parts[k].items) <= most
    ensures Depth(inc, [GroupItem(parts)]) <= 1 + most
  {
    hide PartOk, PartsOk, Says;
    PartsDepth(inc, parts[1..], most);
    var item := GroupItem(parts);
    assert [item][0] == item && [item][1..] == [];
    assert Depth(inc, [item]) == Max(DepthItem(inc, item), Depth(inc, []));
  }

  /** The lines of the group, classified. */
  lemma GroupClassified(parts: seq<Part>, tail: string, g: Gaps)
    requires GroupOk(parts) && CanWrite(EndifLine(tail), g) && WellNestedItem(GroupItem(parts))
    ensures ClassifyAll(LinesOf(parts) + [Written(EndifLine(tail), g)]) == Flatten([GroupItem(parts)])
    ensures WellNested([GroupItem(parts)])
  {
    hide Classify, ClassifyAll, Flatten, CanWrite, Written, PartOk, PartsOk, WellNestedItem, FlattenBranches,
         FlattenElse, LinesOf, Says, BranchesOf, ElseOf;
    var p, rest, item := parts[0], parts[1..], GroupItem(parts);
    var last := [Written(EndifLine(tail), g)];
    ClassifyJoin(LinesOf(parts), last);
    ClassifyOne(last[0]);
    ClassifyWritten(EndifLine(tail), g);
    EndifSays(tail, g);
    PartLines(parts);
    PartsFlatten(rest);
    FlattenOne(item);
    var f, fb, fe := Flatten(p.items), FlattenBranches(BranchesOf(rest)), FlattenElse(ElseOf(rest));
    var first := [Says(p.w, p.g)];
    assert FlattenItem(item) == first + (f + (fb + (fe + [HashEndif])));
    assert (first + (f + (fb + fe))) + [HashEndif] == first + (f + (fb + (fe + [HashEndif])));
  }

  lemma EndifSays(tail: string, g: Gaps)
    ensures Says(EndifLine(tail), g) == HashEndif
  {
  }

  lemma FlattenOne(item: Item)
    ensures Flatten([item]) == FlattenItem(item)
    ensures WellNestedItem(item) ==> WellNested([item])
  {
    hide FlattenItem, WellNestedItem;
    assert [item][1..] == [];
    assert Flatten([item]) == FlattenItem([item][0]) + Flatten([item][1..]);
  }

  /** The part that is processed, if any: as it would be by itself, between blank lines. */
  ghost predicate OnlyPart(fs: Files, path: string, depth: nat, parts: seq<Part>, n: nat, s: Flat, after: Flat)
    requires depth < MAX_INCLUDE
  {
    var k := Chosen(parts, s.core.macros);
    if k == |parts| then after == Flat(Blanks(s.core, |LinesOf(parts)| + 1), s.frames)
    else
      var before := |LinesOf(parts[..k])| + 1;
      var inside := ProcessLines(fs, path, depth, parts[k].body, n + before, Flat(Blanks(s.core, before), s.frames));
      after == Flat(Blanks(inside.core, |LinesOf(parts[k + 1..])| + 1), s.frames) && inside.frames == s.frames
  }

  /** Of the parts of a group in a live region exactly the first whose test holds is
      processed, as it would be by itself, and all other lines come out blank: whatever the
      parts hold, if the stack has room for them. */
  lemma GroupDecides(fs: Files, trees: map<string, seq<Item>>, path: string, depth: nat, parts: seq<Part>, tail: string,
                     g: Gaps, n: nat, s: Flat)
    requires Grouped(fs, trees) && depth < MAX_INCLUDE && GroupOk(parts) && CanWrite(EndifLine(tail), g)
    requires OthersQuiet(parts, Chosen(parts, s.core.macros))
    requires WellStacked(s.frames) && Active(s.frames) && |s.frames| < MAX_FRAMES
    requires var inc := IncludesOf(fs, trees, path, depth);
      forall k :: 0 <= k < |parts| ==> |s.frames| + 1 + Depth(inc, parts[k].items) <= MAX_FRAMES
    ensures OnlyPart(fs, path, depth, parts, n, s,
              ProcessLines(fs, path, depth, LinesOf(parts) + [Written(EndifLine(tail), g)], n, s))
  {
    hide PartOk, PartsOk, LinesOf, Grouped, ProcessLines, Run, Flatten, Meaning, Depth, WellNested, WellStacked,
         Active, IncludesOf, OthersQuiet, Written, CanWrite, Outcome, Blanks, Chosen, GroupItem, ClassifyAll, Agree;
    var inc, item, c := IncludesOf(fs, trees, path, depth), GroupItem(parts), s.core;
    GroupNested(parts);
    GroupMeans(inc, parts, n, c);
    GroupClassified(parts, tail, g);
    GroupDepth(inc, parts, MAX_FRAMES - |s.frames| - 1);
    var lines := LinesOf(parts) + [Written(EndifLine(tail), g)];
    ItemsProcessed(fs, trees, path, depth, lines, [item], n, s);
    MeaningOne(inc, item, n, c);
    OutcomeChosen(inc, parts, n, c);
    var k := Chosen(parts, c.macros);
    if k == |parts| {
      BlanksJoin(c, |LinesOf(parts)|, 1);
    } else {
      var before := |LinesOf(parts[..k])| + 1;
      PartChosen(parts, k);
      var s1 := Flat(Blanks(c, before), s.frames);
      ItemsProcessed(fs, trees, path, depth, parts[k].body, parts[k].items, n + before, s1);
      BlanksJoin(Meaning(inc, parts[k].items, n + before, true, Blanks(c, before)), |LinesOf(parts[k + 1..])|, 1);
    }
  }

  lemma GroupNested(parts: seq<Part>)
    requires GroupOk(parts)
    ensures forall k :: 0 <= k < |parts| ==> WellNested(parts[k].items)
  {
    hide WellNested, CanWrite, ClassifyAll, Flatten;
    PartsNested(parts[1..]);
    forall k | 0 <= k < |parts| ensures WellNested(parts[k].items) {
      if k > 0 { assert parts[k] == parts[1..][k - 1]; }
    }
  }

  lemma PartChosen(parts: seq<Part>, k: nat)
    requires GroupOk(parts) && k < |parts|
    ensures ClassifyAll(parts[k].body) == Flatten(parts[k].items)
  {
    hide PartOk;
    if k > 0 { PartAmong(parts[1..], k - 1); }
    PartBody(parts[k]);
  }

  lemma {:induction false} PartAmong(parts: seq<Part>, k: nat)
    requires PartsOk(parts) && k < |parts|
    ensures PartOk(parts[k])
    decreases k
  {
    hide PartOk;
    if k > 0 { PartAmong(parts[1..], k - 1); }
  }

  /** Well nested lines in a live region do what they mean. */
  lemma ItemsProcessed(fs: Files, trees: map<string, seq<Item>>, path: string, depth: nat, lines: seq<string>,
                       items: seq<Item>, n: nat, s: Flat)
    requires Grouped(fs, trees) && depth < MAX_INCLUDE && WellNested(items) && ClassifyAll(lines) == Flatten(items)
    requires WellStacked(s.frames) && Active(s.frames)
    requires |s.frames| + Depth(IncludesOf(fs, trees, path, depth), items) <= MAX_FRAMES
    ensures ProcessLines(fs, path, depth, lines, n, s)
      == Flat(Meaning(IncludesOf(fs, trees, path, depth), items, n, true, s.core), s.frames)
  {
    hide Grouped, ProcessLines, Run, Flatten, Meaning, Depth, WellNested, WellStacked, Active, IncludesOf, ClassifyAll,
         Agree;
    var inc := IncludesOf(fs, trees, path, depth);
    IncludesAgree(fs, trees, path, depth);
    LinesRun(fs, trees, path, depth, lines, n, s);
    assert With(s.core, s.frames) == s;
    ItemsRefine(inc, items, n, s.core, s.frames);
  }

  lemma MeaningOne(inc: Includes, item: Item, n: nat, c: Core)
    requires WellNestedItem(item) && WellNested([item])
    ensures Meaning(inc, [item], n, true, c) == MeaningItem(inc, item, n, true, c)
  {
    hide MeaningItem, WellNestedItem;
    assert [item][1..] == [];
    assert Meaning(inc, [item], n, true, c)
      == Meaning(inc, [item][1..], n + |FlattenItem([item][0])|, true, MeaningItem(inc, [item][0], n, true, c));
  }
}
