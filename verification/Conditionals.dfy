/** The flat stack of conditional frames, and the nested groups of lines it stands for. */
module Conditionals {
  import opened Syntax
  import opened Macros
  import opened Directives
  import ExpandSpec
  import IfEval

  const MAX_FRAMES: nat := 31

  // ---------------------------------------------------------- the flat machine

  datatype Frame = Frame(active: bool, matched: bool, parentActive: bool)

  type Frames = seq<Frame>

  /** Every frame is active. */
  predicate Active(fs: Frames) {
    fs == [] || (fs[|fs| - 1].active && Active(fs[..|fs| - 1]))
  }

  /** At the limit a push is ignored. */
  function PushFrame(fs: Frames, parentActive: bool, cond: bool): Frames {
    if |fs| >= MAX_FRAMES then fs
    else fs + [Frame(parentActive && cond, parentActive ==> cond, parentActive)]
  }

  function ElseFrame(fs: Frames): Frames {
    if fs == [] then fs
    else
      var f := fs[|fs| - 1];
      var active := f.parentActive && !f.matched;
      fs[|fs| - 1 := Frame(active, f.matched || active, f.parentActive)]
  }

  function ElifFrame(fs: Frames, cond: bool): Frames {
    if fs == [] then fs
    else
      var f := fs[|fs| - 1];
      if f.matched then fs[|fs| - 1 := f.(active := false)]
      else
        var active := f.parentActive && cond;
        fs[|fs| - 1 := Frame(active, active, f.parentActive)]
  }

  function PopFrame(fs: Frames): Frames {
    if fs == [] then fs else fs[..|fs| - 1]
  }

  /** What comes out: the text of each source line, and markers around included files. */
  datatype OutLine = Marker(line: nat, file: string) | Code(text: string)

  /** Macros, output and errors so far. */
  datatype Core = Core(macros: Table, out: seq<OutLine>, errs: nat)

  function Emit(c: Core, text: string): Core {
    c.(out := c.out + [Code(text)])
  }

  function Fail(c: Core, errs: nat): Core {
    c.(errs := c.errs + errs)
  }

  /** A line that is neither conditional nor an `#include`. */
  predicate IsLeaf(d: Directive) {
    d.Plain? || d.Define? || d.Undef? || d.ErrorLine? || d.PassThrough? || d.Ignored?
  }

  function LeafStep(d: Directive, active: bool, c: Core): Core
    requires IsLeaf(d)
  {
    match d
    case Plain(text) =>
      if active then
        var x := ExpandSpec.Expand(c.macros, text);
        Fail(Emit(c, x.out), x.errs)
      else Emit(c, "")
    case Define(name, m) => Emit(if active then c.(macros := Add(c.macros, name, m)) else c, "")
    case Undef(name) => Emit(if active then c.(macros := Remove(c.macros, name)) else c, "")
    case ErrorLine => Emit(if active then Fail(c, 1) else c, "")
    case PassThrough(text) => Emit(c, text)
    case Ignored => Emit(c, "")
  }

  predicate IsTest(d: Directive) {
    d.Ifdef? || d.Ifndef? || d.HashIf?
  }

  function Test(d: Directive, t: Table): bool
    requires IsTest(d)
  {
    match d
    case Ifdef(name) => Find(t, name).Some?
    case Ifndef(name) => Find(t, name).None?
    case HashIf(expr) => TestExpr(expr, t)
  }

  function TestExpr(expr: string, t: Table): bool {
    IfEval.EvalExpr(t, expr, 0).v != 0
  }

  datatype Flat = Flat(core: Core, frames: Frames)

  /** One line that is not an `#include`. */
  function Step(d: Directive, s: Flat): Flat
    requires !d.Include?
  {
    if IsLeaf(d) then s.(core := LeafStep(d, Active(s.frames), s.core))
    else
      Flat(Emit(s.core, ""),
        if IsTest(d) then PushFrame(s.frames, Active(s.frames), Test(d, s.core.macros))
        else if d.HashElif? then ElifFrame(s.frames, TestExpr(d.expr, s.core.macros))
        else if d.HashElse? then ElseFrame(s.frames)
        else PopFrame(s.frames))
  }

  /** What it does to follow an `#include`, given the directive's argument and its line: to
      the machine, and to what the groups mean; and how deeply the groups of the file nest. */
  datatype Includes = Includes(
    machine: (string, nat, Flat) -> Flat,
    meaning: (string, nat, Core) -> Core,
    depth: string -> nat)

  /** Any line, of number `n` in its file.  An `#include` is followed where lines are live. */
  function StepLine(inc: Includes, d: Directive, n: nat, s: Flat): Flat {
    if !d.Include? then Step(d, s)
    else if Active(s.frames) then inc.machine(d.arg, n, s)
    else s.(core := Emit(s.core, ""))
  }

  /** The lines of a file from number `n` on. */
  function Run(inc: Includes, ds: seq<Directive>, n: nat, s: Flat): Flat {
    if ds == [] then s else Run(inc, ds[1..], n + 1, StepLine(inc, ds[0], n, s))
  }

  // ------------------------------------------------------------- nested groups

  datatype Item =
    | Leaf(d: Directive)
    | Group(test: Directive, body: seq<Item>, elifs: seq<Branch>, els: Rest)

  datatype Branch = Branch(expr: string, body: seq<Item>)

  datatype Rest = NoElse | HasElse(body: seq<Item>)

  predicate WellNested(items: seq<Item>)
    decreases items
  {
    forall i :: 0 <= i < |items| ==> WellNestedItem(items[i])
  }

  predicate WellNestedItem(item: Item)
    decreases item
  {
    match item
    case Leaf(d) => IsLeaf(d) || d.Include?
    case Group(test, body, elifs, els) =>
      && IsTest(test) && WellNested(body)
      && NestedBranches(elifs)
      && (els.HasElse? ==> WellNested(els.body))
  }

  predicate NestedBranches(bs: seq<Branch>)
    decreases bs
  {
    forall i :: 0 <= i < |bs| ==> WellNested(bs[i].body)
  }

  /** The lines of the items, one after the other. */
  function Flatten(items: seq<Item>): seq<Directive>
    decreases items
  {
    if items == [] then [] else FlattenItem(items[0]) + Flatten(items[1..])
  }

  function FlattenItem(item: Item): seq<Directive>
    decreases item
  {
    match item
    case Leaf(d) => [d]
    case Group(test, body, elifs, els) =>
      [test] + (Flatten(body) + (FlattenBranches(elifs) + (FlattenElse(els) + [HashEndif])))
  }

  function FlattenBranches(bs: seq<Branch>): seq<Directive>
    decreases bs
  {
    if bs == [] then [] else [HashElif(bs[0].expr)] + (Flatten(bs[0].body) + FlattenBranches(bs[1..]))
  }

  function FlattenElse(els: Rest): seq<Directive>
    decreases els
  {
    if els.NoElse? then [] else [HashElse] + Flatten(els.body)
  }

  function Max(a: nat, b: nat): nat {
    if a < b then b else a
  }

  /** How deeply the groups nest, those of included files too. */
  function Depth(inc: Includes, items: seq<Item>): nat
    decreases items
  {
    if items == [] then 0 else Max(DepthItem(inc, items[0]), Depth(inc, items[1..]))
  }

  function DepthItem(inc: Includes, item: Item): nat
    decreases item
  {
    match item
    case Leaf(d) => if d.Include? then inc.depth(d.arg) else 0
    case Group(_, body, elifs, els) =>
      1 + Max(Depth(inc, body), Max(DepthBranches(inc, elifs), if els.HasElse? then Depth(inc, els.body) else 0))
  }

  function DepthBranches(inc: Includes, bs: seq<Branch>): nat
    decreases bs
  {
    if bs == [] then 0 else Max(Depth(inc, bs[0].body), DepthBranches(inc, bs[1..]))
  }

  // ------------------------------------------------------ what the groups mean

  /** Of each group in a live region the first branch whose test is true is live, or else
      the `#else` branch.  Dead lines come out blank, define nothing and include nothing.
      The items start on line `n`. */
  function Meaning(inc: Includes, items: seq<Item>, n: nat, live: bool, c: Core): Core
    requires WellNested(items)
    decreases items
  {
    if items == [] then c
    else Meaning(inc, items[1..], n + |FlattenItem(items[0])|, live, MeaningItem(inc, items[0], n, live, c))
  }

  function MeaningItem(inc: Includes, item: Item, n: nat, live: bool, c: Core): Core
    requires WellNestedItem(item)
    decreases item
  {
    match item
    case Leaf(d) =>
      if !d.Include? then LeafStep(d, live, c) else if live then inc.meaning(d.arg, n, c) else Emit(c, "")
    case Group(test, body, elifs, els) =>
      var taken := Test(test, c.macros);
      var c1 := Meaning(inc, body, n + 1, live && taken, Emit(c, ""));
      var m := n + 1 + |Flatten(body)|;
      var r := MeaningBranches(inc, elifs, m, live, taken, c1);
      Emit(MeaningElse(inc, els, m + |FlattenBranches(elifs)|, live && !r.taken, r.core), "")
  }

  /** Has some branch been true by now, and what has come out. */
  datatype Progress = Progress(taken: bool, core: Core)

  function MeaningBranches(inc: Includes, bs: seq<Branch>, n: nat, live: bool, taken: bool, c: Core): Progress
    requires NestedBranches(bs)
    decreases bs
  {
    if bs == [] then Progress(taken, c)
    else
      var here := !taken && TestExpr(bs[0].expr, c.macros);
      var c1 := Meaning(inc, bs[0].body, n + 1, live && here, Emit(c, ""));
      MeaningBranches(inc, bs[1..], n + 1 + |Flatten(bs[0].body)|, live, taken || here, c1)
  }

  function MeaningElse(inc: Includes, els: Rest, n: nat, live: bool, c: Core): Core
    requires els.HasElse? ==> WellNested(els.body)
    decreases els
  {
    if els.NoElse? then c else Meaning(inc, els.body, n + 1, live, Emit(c, ""))
  }
}
