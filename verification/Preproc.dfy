/** The preprocessor as it runs: a cursor that evaluates `#if` lines, the stack of
    conditional frames, the line expander and the loop over a file. */
module Preproc {
  import opened Syntax
  import opened Chars
  import opened Macros
  import opened Directives
  import opened Conditionals
  import opened PreprocSpec
  import ExpandSpec
  import Expander
  import IfEval

  // ------------------------------------------------------------- the evaluator

  /** Blanks before an operand do not matter. */
  lemma BlanksSkipped(t: Table, s: string, i: nat)
    requires i <= |s|
    ensures IfEval.EvalAtom(t, s, i) == IfEval.EvalAtom(t, s, SkipBlanks(s, i))
  {
    hide IfEval.EvalDefined, IfEval.ReadUnsigned, IfEval.NameValue, WordEndWithin, IfEval.EvalExpr;
    var j := SkipBlanks(s, i);
    assert SkipBlanks(s, j) == j;
  }

  class Cursor {
    const t: Table
    const s: string
    var pos: nat

    constructor (t: Table, s: string)
      ensures this.t == t && this.s == s && pos == 0
    {
      this.t, this.s, pos := t, s, 0;
    }

    method Skip()
      requires pos <= |s|
      modifies this
      ensures pos == SkipBlanks(s, old(pos))
    {
      while pos < |s| && IsBlank(s[pos])
        invariant old(pos) <= pos <= |s| && SkipBlanks(s, pos) == SkipBlanks(s, old(pos))
      {
        pos := pos + 1;
      }
    }

    /** The characters of a name, as many as fit the buffer. */
    method TakeName() returns (name: string)
      requires pos <= |s|
      modifies this
      ensures pos == WordEndWithin(s, old(pos), IfEval.NAME_MAX) && name == s[old(pos)..pos]
    {
      var start := pos;
      while pos < |s| && IsIdCont(s[pos]) && pos - start < IfEval.NAME_MAX
        invariant start <= pos <= |s| && pos - start <= IfEval.NAME_MAX
        invariant WordEndWithin(s, pos, IfEval.NAME_MAX - (pos - start)) == WordEndWithin(s, start, IfEval.NAME_MAX)
      {
        pos := pos + 1;
      }
      name := s[start..pos];
    }

    method EvalDefined() returns (v: Int64)
      requires pos <= |s|
      modifies this
      ensures IfEval.Read(v, pos) == IfEval.EvalDefined(t, s, old(pos)) && pos <= |s|
    {
      hide SkipBlanks, WordEndWithin, Find;
      Skip();
      var paren := pos < |s| && s[pos] == '(';
      if paren {
        pos := pos + 1;
        Skip();
      }
      var name := TakeName();
      Skip();
      if paren && pos < |s| && s[pos] == ')' { pos := pos + 1; }
      v := if Find(t, name).Some? then 1 else 0;
    }

    /** A number, or a name with its value. */
    method EvalOperand() returns (v: Int64)
      requires pos < |s| && !IsBlank(s[pos]) && s[pos] != '!' && s[pos] != '('
      modifies this
      ensures IfEval.Read(v, pos) == IfEval.EvalAtom(t, s, old(pos)) && pos <= |s|
    {
      hide IfEval.EvalDefined, IfEval.ReadUnsigned, IfEval.LeadingInt, Find, WordEndWithin, IfEval.EvalExpr,
           IfEval.Saturate;
      if IsDigit(s[pos]) {
        var n := IfEval.ReadUnsigned(s, pos);
        pos := n.1;
        return IfEval.Saturate(n.0);
      }
      if IsIdStart(s[pos]) {
        var id := TakeName();
        if id == "defined" {
          v := EvalDefined();
          return;
        }
        var m := Find(t, id);
        return if m.Some? && !m.value.isFunc then IfEval.LeadingInt(m.value.body) else 0;
      }
      v := 0;
    }

    method EvalAtom() returns (v: Int64)
      requires pos <= |s|
      modifies this
      ensures IfEval.Read(v, pos) == IfEval.EvalAtom(t, s, old(pos)) && pos <= |s|
      decreases |s| - pos, 0
    {
      hide IfEval.EvalDefined, IfEval.ReadUnsigned, IfEval.NameValue, Find, SkipBlanks, WordEndWithin, IfEval.EvalExpr,
           IfEval.Saturate;
      Skip();
      if pos < |s| && s[pos] == '!' {
        pos := pos + 1;
        var x := EvalAtom();
        return if x == 0 then 1 else 0;
      }
      if pos < |s| && s[pos] == '(' {
        pos := pos + 1;
        v := EvalExpr();
        Skip();
        if pos < |s| && s[pos] == ')' { pos := pos + 1; }
        return;
      }
      if pos == |s| { return 0; }
      BlanksSkipped(t, s, old(pos));
      v := EvalOperand();
    }

    method EvalAnd() returns (v: Int64)
      requires pos <= |s|
      modifies this
      ensures IfEval.Read(v, pos) == IfEval.EvalAnd(t, s, old(pos)) && pos <= |s|
      decreases |s| - pos, 1
    {
      hide IfEval.EvalAtom, SkipBlanks;
      v := EvalAtom();
      Skip();
      while pos + 1 < |s| && s[pos] == '&' && s[pos + 1] == '&'
        invariant old(pos) <= pos <= |s|
        invariant IfEval.AndTail(t, s, pos, v) == IfEval.EvalAnd(t, s, old(pos))
        decreases |s| - pos
      {
        pos := pos + 2;
        var r := EvalAtom();
        v := if v != 0 && r != 0 then 1 else 0;
        Skip();
      }
    }

    method EvalExpr() returns (v: Int64)
      requires pos <= |s|
      modifies this
      ensures IfEval.Read(v, pos) == IfEval.EvalExpr(t, s, old(pos)) && pos <= |s|
      decreases |s| - pos, 2
    {
      hide IfEval.EvalAnd, SkipBlanks;
      v := EvalAnd();
      Skip();
      while pos + 1 < |s| && s[pos] == '|' && s[pos + 1] == '|'
        invariant old(pos) <= pos <= |s|
        invariant IfEval.OrTail(t, s, pos, v) == IfEval.EvalExpr(t, s, old(pos))
        decreases |s| - pos
      {
        pos := pos + 2;
        var r := EvalAnd();
        v := if v != 0 || r != 0 then 1 else 0;
        Skip();
      }
    }
  }

  // ------------------------------------------------------------ the frame stack

  class CondStack {
    const frames: array<Frame>
    var top: nat

    constructor ()
      ensures Valid() && Contents() == [] && fresh(frames)
    {
      frames := new Frame[32](_ => Frame(false, false, false));
      top := 0;
    }

    ghost predicate Valid()
      reads this
    {
      frames.Length == 32 && top <= MAX_FRAMES
    }

    ghost function Contents(): Frames
      requires Valid()
      reads this, frames
    {
      frames[..top]
    }

    method IsActive() returns (r: bool)
      requires Valid()
      ensures r == Active(Contents())
    {
      for i := 0 to top
        invariant Active(frames[..i])
      {
        assert frames[..i + 1][..i] == frames[..i];
        if !frames[i].active {
          NotActive(i);
          return false;
        }
      }
      r := true;
    }

    lemma NotActive(i: nat)
      requires Valid() && i < top && !frames[i].active
      ensures !Active(Contents())
    {
      DeadBelow(Contents(), i);
    }

    method Push(parentActive: bool, cond: bool)
      requires Valid()
      modifies this, frames
      ensures Valid() && Contents() == PushFrame(old(Contents()), parentActive, cond)
    {
      if top >= 31 { return; }
      frames[top] := Frame(if parentActive then cond else false, if parentActive then cond else true, parentActive);
      top := top + 1;
    }

    method Else()
      requires Valid()
      modifies this, frames
      ensures Valid() && Contents() == ElseFrame(old(Contents()))
    {
      if top == 0 { return; }
      var f := frames[top - 1];
      var active := f.parentActive && !f.matched;
      frames[top - 1] := Frame(active, if active then true else f.matched, f.parentActive);
    }

    method Elif(cond: bool)
      requires Valid()
      modifies this, frames
      ensures Valid() && Contents() == ElifFrame(old(Contents()), cond)
    {
      if top == 0 { return; }
      var f := frames[top - 1];
      if f.matched {
        frames[top - 1] := f.(active := false);
        return;
      }
      var active := f.parentActive && cond;
      frames[top - 1] := Frame(active, if active then true else f.matched, f.parentActive);
    }

    method Pop()
      requires Valid()
      modifies this
      ensures Valid() && Contents() == PopFrame(old(Contents()))
    {
      if top > 0 { top := top - 1; }
    }
  }

  // ------------------------------------------------------------- the file loop

  class Preprocessor {
    const fs: Files
    const cs: CondStack
    var macros: Table
    var out: seq<OutLine>
    var errors: nat
    var depth: nat

    constructor (fs: Files, macros: Table)
      ensures this.fs == fs && cs.Valid() && fresh(cs) && fresh(cs.frames)
      ensures depth == 0 && State() == Flat(Core(macros, [], 0), [])
    {
      this.fs, this.macros := fs, macros;
      var stack := new CondStack();
      cs := stack;
      out, errors, depth := [], 0, 0;
    }

    ghost function State(): Flat
      requires cs.Valid()
      reads this, cs, cs.frames
    {
      Flat(Core(macros, out, errors), cs.Contents())
    }

    method Report()
      requires cs.Valid()
      modifies this`errors
      ensures State() == Blame(old(State()))
    {
      errors := errors + 1;
    }

    method Put(line: OutLine)
      requires cs.Valid()
      modifies this`out
      ensures State() == Out(old(State()), line)
    {
      out := out + [line];
    }

    method EvalTest(expr: string) returns (v: bool)
      ensures v == TestExpr(expr, macros)
    {
      var e := new Cursor(macros, expr);
      var x := e.EvalExpr();
      v := x != 0;
    }

    method ProcessLeaf(d: Directive, active: bool)
      requires cs.Valid() && IsLeaf(d)
      modifies this`macros, this`out, this`errors
      ensures State() == old(State()).(core := LeafStep(d, active, old(State()).core))
    {
      hide ExpandSpec.Expand, Add, Remove;
      var text := "";
      match d {
        case Plain(line) =>
          if active {
            var x, bad := Expander.ExpandLine(macros, line);
            text := x;
            errors := errors + bad;
          }
        case Define(name, m) =>
          if active { macros := Add(macros, name, m); }
        case Undef(name) =>
          if active { macros := Remove(macros, name); }
        case ErrorLine =>
          if active { errors := errors + 1; }
        case PassThrough(line) => text := line;
        case Ignored =>
      }
      out := out + [Code(text)];
    }

    method ProcessConditional(d: Directive, active: bool)
      requires cs.Valid() && !IsLeaf(d) && !d.Include? && active == Active(cs.Contents())
      modifies this`out, cs, cs.frames
      ensures cs.Valid() && State() == Step(d, old(State()))
    {
      hide TestExpr, Active, PushFrame, ElseFrame, ElifFrame, PopFrame, Find;
      if d.HashElif? {
        var v := EvalTest(d.expr);
        cs.Elif(v);
      } else if d.HashElse? {
        cs.Else();
      } else if d.HashEndif? {
        cs.Pop();
      } else {
        var v := TestLine(d);
        cs.Push(active, v);
      }
      out := out + [Code("")];
    }

    method TestLine(d: Directive) returns (v: bool)
      requires IsTest(d)
      ensures v == Test(d, macros)
    {
      hide TestExpr, Find;
      match d
      case HashIf(expr) => v := EvalTest(expr);
      case Ifdef(name) => v := Find(macros, name).Some?;
      case Ifndef(name) => v := Find(macros, name).None?;
    }

    /** Follows a live `#include`, marks the way back, and leaves a blank line for it. */
    method ProcessInclude(path: string, line: string, lineNo: nat)
      requires cs.Valid() && depth < MAX_INCLUDE && Classify(line).Include?
      modifies this, cs, cs.frames
      ensures cs.Valid() && depth == old(depth)
      ensures State() == PreprocSpec.ProcessLine(fs, path, depth, line, lineNo, old(State()))
      decreases MAX_INCLUDE - depth, 0
    {
      hide PreprocSpec.ProcessFile, Classify, IncludeSpec, Active;
      var active := cs.IsActive();
      if active {
        var spec := IncludeSpec(Classify(line).arg);
        if spec.None? {
          Report();
        } else {
          var target := fs.resolve(path, spec.value.0, spec.value.1);
          if target.None? {
            Report();
          } else {
            depth := depth + 1;
            var ok := ProcessFile(target.value);
            depth := depth - 1;
            Put(Marker(lineNo + 1, path));
          }
        }
      }
      Put(Code(""));
    }

    method ProcessLine(path: string, line: string, lineNo: nat)
      requires cs.Valid() && depth < MAX_INCLUDE
      modifies this, cs, cs.frames
      ensures cs.Valid() && depth == old(depth)
      ensures State() == PreprocSpec.ProcessLine(fs, path, depth, line, lineNo, old(State()))
      decreases MAX_INCLUDE - depth, 1
    {
      hide PreprocSpec.ProcessFile, Classify, LeafStep, IncludeTarget, Active, PushFrame, ElseFrame, ElifFrame,
           PopFrame, Test, TestExpr;
      var d := Classify(line);
      if d.Include? {
        ProcessInclude(path, line, lineNo);
      } else {
        var active := cs.IsActive();
        if IsLeaf(d) { ProcessLeaf(d, active); } else { ProcessConditional(d, active); }
      }
    }

    /** Reads the text line by line; a file that is too deep or missing is an error. */
    method ProcessFile(path: string) returns (ok: bool)
      requires cs.Valid() && depth <= MAX_INCLUDE
      modifies this, cs, cs.frames
      ensures cs.Valid() && depth == old(depth)
      ensures Processed(State(), ok) == PreprocSpec.ProcessFile(fs, path, depth, old(State()))
      decreases MAX_INCLUDE - depth, 2
    {
      hide PreprocSpec.ProcessLine, FirstOf;
      if depth >= MAX_INCLUDE || path !in fs.text {
        Report();
        return false;
      }
      var text := fs.text[path];
      Put(Marker(1, path));
      ghost var goal := ProcessLines(fs, path, depth, LinesFrom(text, 0), 1, State());
      var i, lineNo, more := 0, 1, true;
      while more
        invariant cs.Valid() && depth == old(depth) && i <= |text|
        invariant more ==> ProcessLines(fs, path, depth, LinesFrom(text, i), lineNo, State()) == goal
        invariant !more ==> State() == goal
        decreases |text| - i, more
      {
        var e := LineEnd(text, i);
        assert LinesFrom(text, i)[0] == text[i..e];
        ProcessLine(path, text[i..e], lineNo);
        lineNo := lineNo + 1;
        if e == |text| {
          more := false;
        } else {
          i := e + 1;
        }
      }
      ok := true;
    }

    method LineEnd(text: string, i: nat) returns (e: nat)
      requires i <= |text|
      ensures e == FirstOf(text, i, '\n')
    {
      e := i;
      while e < |text| && text[e] != '\n'
        invariant i <= e <= |text| && FirstOf(text, e, '\n') == FirstOf(text, i, '\n')
      {
        e := e + 1;
      }
    }
  }

  lemma {:induction false} DeadBelow(fs: Frames, i: nat)
    requires i < |fs| && !fs[i].active
    ensures !Active(fs)
    decreases |fs|
  {
    if i < |fs| - 1 { DeadBelow(fs[..|fs| - 1], i); }
  }
}
