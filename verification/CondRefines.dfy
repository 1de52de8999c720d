/** The flat stack keeps exactly the lines the nested groups mean, as long as they nest no
    deeper than the stack. */
module CondRefines {
  import opened Syntax
  import opened Macros
  import opened Directives
  import opened Conditionals

  // ------------------------------------------------------------- the invariant

  /** Each frame remembers whether everything below it is active, and is active only then. */
  ghost predicate WellStacked(fs: Frames) {
    && |fs| <= MAX_FRAMES
    && (fs == [] ||
        (var f := fs[|fs| - 1];
         var below := fs[..|fs| - 1];
         WellStacked(below) && f.parentActive == Active(below) && (f.active ==> f.parentActive)))
  }

  /** So the top frame alone tells whether lines are live. */
  lemma ActiveIsTop(fs: Frames)
    requires WellStacked(fs)
    ensures Active(fs) <==> fs == [] || fs[|fs| - 1].active
  {
  }

  lemma PushKeeps(fs: Frames, cond: bool)
    requires WellStacked(fs)
    ensures WellStacked(PushFrame(fs, Active(fs), cond))
  {
    if |fs| < MAX_FRAMES {
      assert PushFrame(fs, Active(fs), cond)[..|fs|] == fs;
    }
  }

  lemma TopKeeps(fs: Frames, f: Frame)
    requires WellStacked(fs) && fs != []
    requires f.parentActive == fs[|fs| - 1].parentActive && (f.active ==> f.parentActive)
    ensures WellStacked(fs[|fs| - 1 := f])
  {
    assert fs[|fs| - 1 := f][..|fs| - 1] == fs[..|fs| - 1];
  }

  /** No line breaks the invariant, well nested or not. */
  lemma StepKeeps(d: Directive, s: Flat)
    requires !d.Include? && WellStacked(s.frames)
    ensures WellStacked(Step(d, s).frames)
  {
    hide LeafStep, Test, TestExpr;
    var fs := s.frames;
    if IsTest(d) {
      PushKeeps(fs, Test(d, s.core.macros));
    } else if d.HashElif? && fs != [] {
      TopKeeps(fs, ElifFrame(fs, TestExpr(d.expr, s.core.macros))[|fs| - 1]);
    } else if d.HashElse? && fs != [] {
      TopKeeps(fs, ElseFrame(fs)[|fs| - 1]);
    }
  }

  // ------------------------------------------------------------------ running

  lemma {:induction false} RunJoin(inc: Includes, a: seq<Directive>, b: seq<Directive>, n: nat, s: Flat)
    ensures Run(inc, a + b, n, s) == Run(inc, b, n + |a|, Run(inc, a, n, s))
    decreases |a|
  {
    hide StepLine;
    if a == [] {
      assert a + b == b;
    } else {
      assert (a + b)[0] == a[0] && (a + b)[1..] == a[1..] + b;
      RunJoin(inc, a[1..], b, n + 1, StepLine(inc, a[0], n, s));
    }
  }

  lemma RunOne(inc: Includes, d: Directive, n: nat, s: Flat)
    ensures Run(inc, [d], n, s) == StepLine(inc, d, n, s)
  {
    hide StepLine;
    assert Run(inc, [d], n, s) == Run(inc, [d][1..], n + 1, StepLine(inc, [d][0], n, s));
  }

  // ------------------------------------------------------------------ the theorem

  /** `s` with another core. */
  function With(c: Core, fs: Frames): Flat {
    Flat(c, fs)
  }

  /** Following an `#include` does to the machine what it means, from any live stack with
      room for the file. */
  ghost predicate Agree(inc: Includes) {
    forall arg, n, c, fs :: WellStacked(fs) && Active(fs) && |fs| + inc.depth(arg) <= MAX_FRAMES ==>
      inc.machine(arg, n, With(c, fs)) == With(inc.meaning(arg, n, c), fs)
  }

  /** From a stack with room for them, the lines of the items do what the items mean, and
      leave the stack as it was. */
  lemma {:induction false} ItemsRefine(inc: Includes, items: seq<Item>, n: nat, c: Core, fs: Frames)
    requires Agree(inc) && WellNested(items) && WellStacked(fs) && |fs| + Depth(inc, items) <= MAX_FRAMES
    ensures Run(inc, Flatten(items), n, With(c, fs)) == With(Meaning(inc, items, n, Active(fs), c), fs)
    decreases items, 1
  {
    hide Agree, WellStacked, Active, FlattenItem, MeaningItem, DepthItem, WellNestedItem, StepLine;
    if items != [] {
      var c1 := MeaningItem(inc, items[0], n, Active(fs), c);
      var m := n + |FlattenItem(items[0])|;
      ItemRefines(inc, items[0], n, c, fs);
      ItemsRefine(inc, items[1..], m, c1, fs);
      RunJoin(inc, FlattenItem(items[0]), Flatten(items[1..]), n, With(c, fs));
    }
  }

  /** The top frame inside a group, whose surroundings are live or not, and of which a
      branch has been taken or not. */
  function GroupFrame(live: bool, taken: bool, active: bool): Frame {
    Frame(active, live ==> taken, live)
  }

  lemma GroupStacked(below: Frames, taken: bool, active: bool)
    requires WellStacked(below) && |below| < MAX_FRAMES && (active ==> Active(below))
    ensures WellStacked(below + [GroupFrame(Active(below), taken, active)])
    ensures Active(below + [GroupFrame(Active(below), taken, active)]) == active
  {
    var fs := below + [GroupFrame(Active(below), taken, active)];
    assert fs[..|fs| - 1] == below;
    if active { assert Active(fs[..|fs| - 1]); }
  }

  /** What `#if`, `#elif`, `#else` and `#endif` do to that frame. */
  lemma GroupSteps(below: Frames, live: bool, taken: bool, active: bool, cond: bool)
    ensures |below| < MAX_FRAMES ==>
      PushFrame(below, live, cond) == below + [GroupFrame(live, cond, live && cond)]
    ensures ElifFrame(below + [GroupFrame(live, taken, active)], cond)
      == below + [GroupFrame(live, taken || (!taken && cond), live && !taken && cond)]
    ensures ElseFrame(below + [GroupFrame(live, taken, active)])
      == below + [GroupFrame(live, true, live && !taken)]
    ensures PopFrame(below + [GroupFrame(live, taken, active)]) == below
  {
  }

  /** One branch: a line that sets the frame, then the lines of the branch. */
  lemma {:induction false} BranchRefines(inc: Includes, d: Directive, body: seq<Item>, n: nat, c: Core, fs: Frames,
                                         below: Frames, taken: bool, active: bool)
    requires Agree(inc) && !d.Include? && WellNested(body)
    requires WellStacked(below) && |below| + 1 + Depth(inc, body) <= MAX_FRAMES && (active ==> Active(below))
    requires Step(d, With(c, fs)) == With(Emit(c, ""), below + [GroupFrame(Active(below), taken, active)])
    ensures Run(inc, [d] + Flatten(body), n, With(c, fs))
      == With(Meaning(inc, body, n + 1, active, Emit(c, "")), below + [GroupFrame(Active(below), taken, active)])
    decreases body, 2
  {
    hide Agree, WellStacked, Active, Flatten, Meaning, Depth, WellNested, Step, Run, GroupFrame;
    var top := below + [GroupFrame(Active(below), taken, active)];
    GroupStacked(below, taken, active);
    ItemsRefine(inc, body, n + 1, Emit(c, ""), top);
    RunOne(inc, d, n, With(c, fs));
    RunJoin(inc, [d], Flatten(body), n, With(c, fs));
  }

  lemma RunNone(inc: Includes, n: nat, s: Flat)
    ensures Run(inc, [], n, s) == s
  {
  }

  lemma ElifStep(expr: string, c: Core, fs: Frames)
    ensures Step(HashElif(expr), With(c, fs)) == With(Emit(c, ""), ElifFrame(fs, TestExpr(expr, c.macros)))
  {
    hide TestExpr, ElifFrame;
  }

  /** The first branch and the others. */
  lemma BranchesParts(inc: Includes, bs: seq<Branch>, n: nat, live: bool, taken: bool, c: Core)
    requires bs != [] && NestedBranches(bs)
    ensures var here := !taken && TestExpr(bs[0].expr, c.macros);
      var c1 := Meaning(inc, bs[0].body, n + 1, live && here, Emit(c, ""));
      && WellNested(bs[0].body) && NestedBranches(bs[1..])
      && FlattenBranches(bs) == ([HashElif(bs[0].expr)] + Flatten(bs[0].body)) + FlattenBranches(bs[1..])
      && DepthBranches(inc, bs) >= Depth(inc, bs[0].body) && DepthBranches(inc, bs) >= DepthBranches(inc, bs[1..])
      && MeaningBranches(inc, bs, n, live, taken, c) ==
         MeaningBranches(inc, bs[1..], n + 1 + |Flatten(bs[0].body)|, live, taken || here, c1)
  {
    hide Flatten, Meaning, Depth, WellNested, TestExpr;
  }

  lemma {:induction false} BranchesRefine(inc: Includes, bs: seq<Branch>, n: nat, c: Core, below: Frames, taken: bool,
                                          active: bool)
    returns (last: bool)
    requires Agree(inc) && NestedBranches(bs)
    requires WellStacked(below) && |below| + 1 + DepthBranches(inc, bs) <= MAX_FRAMES
    requires active ==> Active(below)
    ensures last ==> Active(below)
    ensures var live := Active(below);
      var r := MeaningBranches(inc, bs, n, live, taken, c);
      Run(inc, FlattenBranches(bs), n, With(c, below + [GroupFrame(live, taken, active)]))
        == With(r.core, below + [GroupFrame(live, r.taken, last)])
    decreases bs, 0
  {
    hide Agree, WellStacked, Active, Flatten, Meaning, Depth, WellNested, GroupFrame, TestExpr, Run, Step, ElifFrame;
    last := active;
    if bs == [] {
      RunNone(inc, n, With(c, below + [GroupFrame(Active(below), taken, active)]));
    } else {
      hide FlattenBranches, MeaningBranches, DepthBranches, NestedBranches;
      BranchesParts(inc, bs, n, Active(below), taken, c);
      var live := Active(below);
      var cond := TestExpr(bs[0].expr, c.macros);
      var here := !taken && cond;
      var d := HashElif(bs[0].expr);
      var fs := below + [GroupFrame(live, taken, active)];
      var m := n + 1 + |Flatten(bs[0].body)|;
      GroupSteps(below, live, taken, active, cond);
      ElifStep(bs[0].expr, c, fs);
      BranchRefines(inc, d, bs[0].body, n, c, fs, below, taken || here, live && here);
      var c1 := Meaning(inc, bs[0].body, n + 1, live && here, Emit(c, ""));
      last := BranchesRefine(inc, bs[1..], m, c1, below, taken || here, live && here);
      RunJoin(inc, [d] + Flatten(bs[0].body), FlattenBranches(bs[1..]), n, With(c, fs));
    }
  }

  lemma {:induction false} ElseRefines(inc: Includes, els: Rest, n: nat, c: Core, below: Frames, taken: bool,
                                       active: bool)
    returns (last: bool)
    requires Agree(inc)
    requires els.HasElse? ==> WellNested(els.body) && |below| + 1 + Depth(inc, els.body) <= MAX_FRAMES
    requires WellStacked(below) && (active ==> Active(below))
    ensures last ==> Active(below)
    ensures var live := Active(below);
      Run(inc, FlattenElse(els), n, With(c, below + [GroupFrame(live, taken, active)]))
        == With(MeaningElse(inc, els, n, live && !taken, c), below + [GroupFrame(live, taken || els.HasElse?, last)])
    decreases els, 0
  {
    hide Agree, WellStacked, Active, Flatten, Meaning, Depth, WellNested, GroupFrame;
    last := active;
    if els.HasElse? {
      var live := Active(below);
      GroupSteps(below, live, taken, active, true);
      var start := below + [GroupFrame(live, taken, active)];
      BranchRefines(inc, HashElse, els.body, n, c, start, below, true, live && !taken);
      last := live && !taken;
    }
  }

  lemma {:induction false} ItemRefines(inc: Includes, item: Item, n: nat, c: Core, fs: Frames)
    requires Agree(inc) && WellNestedItem(item) && WellStacked(fs) && |fs| + DepthItem(inc, item) <= MAX_FRAMES
    ensures Run(inc, FlattenItem(item), n, With(c, fs)) == With(MeaningItem(inc, item, n, Active(fs), c), fs)
    decreases item, 1
  {
    match item
    case Leaf(d) => LeafRefines(inc, d, n, c, fs);
    case Group(_, _, _, _) => GroupRefines(inc, item, n, c, fs);
  }

  lemma LeafRefines(inc: Includes, d: Directive, n: nat, c: Core, fs: Frames)
    requires Agree(inc) && WellNestedItem(Leaf(d)) && WellStacked(fs) && |fs| + DepthItem(inc, Leaf(d)) <= MAX_FRAMES
    ensures Run(inc, [d], n, With(c, fs)) == With(MeaningItem(inc, Leaf(d), n, Active(fs), c), fs)
  {
    hide Run, LeafStep, WellStacked, Active;
    RunOne(inc, d, n, With(c, fs));
  }

  lemma GroupEnds(test: Directive, c: Core, fs: Frames)
    requires IsTest(test)
    ensures Step(test, With(c, fs)) == With(Emit(c, ""), PushFrame(fs, Active(fs), Test(test, c.macros)))
    ensures Step(HashEndif, With(c, fs)) == With(Emit(c, ""), PopFrame(fs))
  {
    hide LeafStep, Test, Active, PushFrame, PopFrame;
  }

  lemma {:induction false} GroupRefines(inc: Includes, item: Item, n: nat, c: Core, fs: Frames)
    requires Agree(inc) && item.Group? && WellNestedItem(item)
    requires WellStacked(fs) && |fs| + DepthItem(inc, item) <= MAX_FRAMES
    ensures Run(inc, FlattenItem(item), n, With(c, fs)) == With(MeaningItem(inc, item, n, Active(fs), c), fs)
    decreases item, 0
  {
    hide Agree, WellStacked, Active, Flatten, Meaning, Depth, WellNested, GroupFrame, Test, FlattenBranches,
         FlattenElse, MeaningBranches, MeaningElse, NestedBranches, DepthBranches, Run, Step;
    GroupEnds(item.test, c, fs);
    var live := Active(fs);
    var taken := Test(item.test, c.macros);
    GroupSteps(fs, live, taken, false, taken);
    BranchRefines(inc, item.test, item.body, n, c, fs, fs, taken, live && taken);
    var d1, d2, d3 := [item.test] + Flatten(item.body), FlattenBranches(item.elifs), FlattenElse(item.els);
    var m := n + 1 + |Flatten(item.body)|;
    var m2 := m + |d2|;
    var c1 := Meaning(inc, item.body, n + 1, live && taken, Emit(c, ""));
    var r := MeaningBranches(inc, item.elifs, m, live, taken, c1);
    var a1 := BranchesRefine(inc, item.elifs, m, c1, fs, taken, live && taken);
    var a2 := ElseRefines(inc, item.els, m2, r.core, fs, r.taken, a1);
    var c2 := MeaningElse(inc, item.els, m2, live && !r.taken, r.core);
    var last := fs + [GroupFrame(live, r.taken || item.els.HasElse?, a2)];
    GroupSteps(fs, live, r.taken || item.els.HasElse?, a2, true);
    GroupEnds(item.test, c2, last);
    RunOne(inc, HashEndif, m2 + |d3|, With(c2, last));
    RunJoin(inc, d3, [HashEndif], m2, With(r.core, fs + [GroupFrame(live, r.taken, a1)]));
    RunJoin(inc, d2, d3 + [HashEndif], m, With(c1, fs + [GroupFrame(live, taken, live && taken)]));
    RunJoin(inc, d1, d2 + (d3 + [HashEndif]), n, With(c, fs));
    assert FlattenItem(item) == d1 + (d2 + (d3 + [HashEndif]));
  }

  // -------------------------------------------------------------- the exact depth

  /** Run from an empty stack, the lines do what the items mean. */
  ghost predicate Faithful(inc: Includes, items: seq<Item>, c: Core)
    requires WellNested(items)
  {
    Run(inc, Flatten(items), 1, With(c, [])) == With(Meaning(inc, items, 1, true, c), [])
  }

  const START: Core := Core([], [], 0)

  /** A line `x` inside `n` groups that are not live. */
  function Inner(n: nat): seq<Item> {
    if n == 0 then [Leaf(Plain("x"))] else [Group(Ifdef("X"), Inner(n - 1), [], NoElse)]
  }

  /** The same inside `n` live groups. */
  function Outer(n: nat, m: nat): seq<Item> {
    if n == 0 then Inner(m) else [Group(Ifndef("X"), Outer(n - 1, m), [], NoElse)]
  }

  lemma {:induction false} InnerShape(inc: Includes, n: nat)
    ensures WellNested(Inner(n)) && Depth(inc, Inner(n)) == n
  {
    if n > 0 { InnerShape(inc, n - 1); }
  }

  lemma {:induction false} OuterShape(inc: Includes, n: nat, m: nat)
    ensures WellNested(Outer(n, m)) && Depth(inc, Outer(n, m)) == n + m
  {
    if n == 0 { InnerShape(inc, m); } else { OuterShape(inc, n - 1, m); }
  }

  /** A group with one branch, step by step. */
  lemma SimpleGroup(inc: Includes, test: Directive, body: seq<Item>, k: nat, s: Flat)
    requires IsTest(test) && WellNested(body)
    ensures var items := [Group(test, body, [], NoElse)];
      && WellNested(items)
      && Run(inc, Flatten(items), k, s) == Step(HashEndif, Run(inc, Flatten(body), k + 1, Step(test, s)))
  {
    hide Step;
    var item := Group(test, body, [], NoElse);
    assert WellNestedItem(item);
    var a, b := [test], Flatten(body) + [HashEndif];
    RunOne(inc, HashEndif, k + 1 + |Flatten(body)|, Run(inc, Flatten(body), k + 1, Step(test, s)));
    RunJoin(inc, Flatten(body), [HashEndif], k + 1, Step(test, s));
    RunOne(inc, test, k, s);
    RunJoin(inc, a, b, k, s);
    assert FlattenBranches([]) + (FlattenElse(NoElse) + [HashEndif]) == [HashEndif];
    assert FlattenItem(item) == a + b;
    assert Flatten([item]) == FlattenItem(item) + Flatten([item][1..]);
    assert Flatten([item]) == a + b;
  }

  lemma SimpleGroupMeaning(inc: Includes, test: Directive, body: seq<Item>, k: nat, live: bool, c: Core)
    requires IsTest(test) && WellNested(body)
    ensures var items := [Group(test, body, [], NoElse)];
      WellNested(items)
      && Meaning(inc, items, k, live, c)
           == Emit(Meaning(inc, body, k + 1, live && Test(test, c.macros), Emit(c, "")), "")
  {
    hide Test;
    var item := Group(test, body, [], NoElse);
    assert WellNestedItem(item) && [item][1..] == [];
    var c1 := Meaning(inc, body, k + 1, live && Test(test, c.macros), Emit(c, ""));
    var m := k + 1 + |Flatten(body)|;
    assert MeaningBranches(inc, [], m, live, Test(test, c.macros), c1) == Progress(Test(test, c.macros), c1);
    assert MeaningElse(inc, NoElse, m + |FlattenBranches([])|, live && !Test(test, c.macros), c1) == c1;
    assert MeaningItem(inc, item, k, live, c) == Emit(c1, "");
    assert Meaning(inc, [item], k, live, c)
      == Meaning(inc, [item][1..], k + |FlattenItem([item][0])|, live, MeaningItem(inc, [item][0], k, live, c));
  }

  /** The stack is full, so the dead groups are not seen and the line comes out. */
  lemma {:induction false} InnerRun(inc: Includes, n: nat, k: nat, c: Core, fs: Frames)
    requires c.macros == [] && |fs| == MAX_FRAMES && Active(fs)
    ensures var r := Run(inc, Flatten(Inner(n)), k, With(c, fs)).core;
      r.macros == [] && |r.out| > |c.out| + n && r.out[|c.out| + n] == Code("x")
    decreases n, 0
  {
    if n == 0 {
      LineKept();
      RunOne(inc, Plain("x"), k, With(c, fs));
      assert Flatten(Inner(0)) == [Plain("x")];
    } else {
      InnerShape(inc, n - 1);
      SimpleGroup(inc, Ifdef("X"), Inner(n - 1), k, With(c, fs));
      InnerRunNext(inc, n, k, c, fs);
    }
  }

  lemma {:induction false} InnerRunNext(inc: Includes, n: nat, k: nat, c: Core, fs: Frames)
    requires c.macros == [] && |fs| == MAX_FRAMES && Active(fs) && n > 0
    ensures var r := Step(HashEndif, Run(inc, Flatten(Inner(n - 1)), k + 1, Step(Ifdef("X"), With(c, fs)))).core;
      r.macros == [] && |r.out| > |c.out| + n && r.out[|c.out| + n] == Code("x")
    decreases n - 1, 1
  {
    hide Run, Flatten, Inner;
    InnerRun(inc, n - 1, k + 1, Emit(c, ""), fs);
  }

  lemma LineKept()
    ensures ExpandSpec.Expand([], "x") == ExpandSpec.Expanded("x", 0)
  {
    ExpandSpec.ExpandIdentity([], "x");
  }

  lemma {:induction false} OuterRun(inc: Includes, n: nat, m: nat, k: nat, c: Core, fs: Frames)
    requires c.macros == [] && |fs| + n == MAX_FRAMES && Active(fs)
    ensures var r := Run(inc, Flatten(Outer(n, m)), k, With(c, fs)).core;
      r.macros == [] && |r.out| > |c.out| + n + m && r.out[|c.out| + n + m] == Code("x")
    decreases n, 0
  {
    if n == 0 {
      InnerRun(inc, m, k, c, fs);
    } else {
      OuterShape(inc, n - 1, m);
      SimpleGroup(inc, Ifndef("X"), Outer(n - 1, m), k, With(c, fs));
      OuterRunNext(inc, n, m, k, c, fs);
    }
  }

  lemma {:induction false} OuterRunNext(inc: Includes, n: nat, m: nat, k: nat, c: Core, fs: Frames)
    requires c.macros == [] && |fs| + n == MAX_FRAMES && Active(fs) && n > 0
    ensures var r := Step(HashEndif, Run(inc, Flatten(Outer(n - 1, m)), k + 1, Step(Ifndef("X"), With(c, fs)))).core;
      r.macros == [] && |r.out| > |c.out| + n + m && r.out[|c.out| + n + m] == Code("x")
    decreases n - 1, 1
  {
    hide Run, Flatten, Outer, Step, Active;
    var fs' := LivePushed(c, fs);
    OuterRun(inc, n - 1, m, k + 1, Emit(c, ""), fs');
    EndifEmits(Run(inc, Flatten(Outer(n - 1, m)), k + 1, With(Emit(c, ""), fs')));
  }

  lemma LivePushed(c: Core, fs: Frames) returns (fs': Frames)
    requires c.macros == [] && |fs| < MAX_FRAMES && Active(fs)
    ensures Step(Ifndef("X"), With(c, fs)) == With(Emit(c, ""), fs')
    ensures |fs'| == |fs| + 1 && Active(fs')
  {
    fs' := fs + [Frame(true, true, true)];
    assert fs'[..|fs|] == fs;
  }

  lemma EndifEmits(s: Flat)
    ensures Step(HashEndif, s).core == Emit(s.core, "")
  {
  }

  /** What the groups mean instead: the line is dead. */
  lemma {:induction false} InnerMeaning(inc: Includes, n: nat, k: nat, live: bool, c: Core)
    requires c.macros == [] && WellNested(Inner(n)) && (live ==> n > 0)
    ensures var r := Meaning(inc, Inner(n), k, live, c);
      r.macros == [] && |r.out| > |c.out| + n && r.out[|c.out| + n] == Code("")
  {
    if n == 0 {
      assert Meaning(inc, Inner(0), k, live, c) == Emit(c, "");
    } else {
      InnerShape(inc, n - 1);
      InnerMeaning(inc, n - 1, k + 1, false, Emit(c, ""));
      SimpleGroupMeaning(inc, Ifdef("X"), Inner(n - 1), k, live, c);
    }
  }

  lemma {:induction false} OuterMeaning(inc: Includes, n: nat, m: nat, k: nat, c: Core)
    requires c.macros == [] && WellNested(Outer(n, m)) && m > 0
    ensures var r := Meaning(inc, Outer(n, m), k, true, c);
      r.macros == [] && |r.out| > |c.out| + n + m && r.out[|c.out| + n + m] == Code("")
  {
    if n == 0 {
      InnerMeaning(inc, m, k, true, c);
    } else {
      OuterShape(inc, n - 1, m);
      OuterMeaning(inc, n - 1, m, k + 1, Emit(c, ""));
      SimpleGroupMeaning(inc, Ifndef("X"), Outer(n - 1, m), k, true, c);
    }
  }

  /** Conditionals nested `d` deep are handled faithfully whatever their lines are exactly
      when `d` is at most 31: the 32nd group is not seen. */
  lemma DepthLimit(inc: Includes, d: nat)
    requires Agree(inc)
    ensures (forall items, c :: WellNested(items) && Depth(inc, items) == d ==> Faithful(inc, items, c))
            <==> d <= 31
  {
    hide Run, Meaning, Flatten, Agree;
    if d <= MAX_FRAMES {
      forall items, c | WellNested(items) && Depth(inc, items) == d
        ensures Faithful(inc, items, c)
      {
        ItemsRefine(inc, items, 1, c, []);
      }
    } else {
      var m := d - MAX_FRAMES;
      OuterShape(inc, MAX_FRAMES, m);
      OuterRun(inc, MAX_FRAMES, m, 1, START, []);
      OuterMeaning(inc, MAX_FRAMES, m, 1, START);
      assert !Faithful(inc, Outer(MAX_FRAMES, m), START);
    }
  }
}
