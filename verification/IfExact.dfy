/** The `#if` evaluator leaves its cursor at the end of exactly the texts of the language. */
module IfExact {
  import opened Syntax
  import opened Seqs
  import opened Chars
  import opened Macros
  import opened IfEval
  import opened IfLanguage

  // ----------------------------------------------- one closing parenthesis less

  /** A position in `s + ")"`, moved back into `s`. */
  function Clip(s: string, i: nat): (j: nat)
    ensures j <= |s|
  {
    if i <= |s| then i else |s|
  }

  predicate Within(s: string, i: nat) {
    i <= |s| + 1
  }

  function Clipped(s: string, r: Read): Read {
    Read(r.v, Clip(s, r.next))
  }

  lemma CharKept(s: string, i: nat, c: char)
    requires Within(s, i) && c != ')'
    ensures Have(s + ")", i, c) <==> Have(s, Clip(s, i), c)
    ensures Have(s, Clip(s, i), ')') ==> Have(s + ")", i, ')')
    ensures Have(s + ")", i, ')') && !Have(s, Clip(s, i), ')') ==> i == |s|
  {
  }

  lemma {:induction false} BlanksKept(s: string, i: nat)
    requires Within(s, i)
    ensures Within(s, SkipBlanks(s + ")", i)) && SkipBlanks(s, Clip(s, i)) == Clip(s, SkipBlanks(s + ")", i))
    decreases |s| + 1 - i
  {
    if i < |s| && IsBlank(s[i]) { BlanksKept(s, i + 1); }
  }

  lemma {:induction false} WordKept(s: string, i: nat, max: nat)
    requires i <= |s|
    ensures WordEndWithin(s + ")", i, max) == WordEndWithin(s, i, max) <= |s|
    decreases |s| - i
  {
    if i < |s| && max > 0 { WordKept(s, i + 1, max - 1); }
  }

  lemma {:induction false} DigitsKept(s: string, i: nat, base: nat)
    requires i <= |s| && base <= 16
    ensures DigitsEnd(s + ")", i, base) == DigitsEnd(s, i, base) <= |s|
    decreases |s| - i
  {
    if i < |s| { DigitsKept(s, i + 1, base); }
  }

  lemma {:induction false} ValueKept(s: string, i: nat, j: nat, base: nat)
    requires i <= j <= |s|
    ensures NumberAt(s + ")", i, j, base) == NumberAt(s, i, j, base)
    decreases j - i
  {
    if i < j { ValueKept(s, i, j - 1, base); }
  }

  lemma NumeralKept(s: string, i: nat)
    requires i < |s|
    ensures ReadUnsigned(s + ")", i) == ReadUnsigned(s, i)
  {
    hide DigitsEnd, NumberAt;
    assert DigitValue(')') == 16;
    var (start, base) := BaseAt(s, i);
    assert BaseAt(s + ")", i) == (start, base);
    DigitsKept(s, start, base);
    ValueKept(s, start, DigitsEnd(s, start, base), base);
  }

  /** Blanks are not skipped past the added parenthesis. */
  lemma {:induction false} ParenStops(s: string, i: nat)
    requires i <= |s|
    ensures SkipBlanks(s + ")", i) <= |s|
    decreases |s| - i
  {
    if i < |s| { ParenStops(s, i + 1); }
  }

  /** The name after `defined`, and the parenthesis that may close it. */
  function NameRead(t: Table, s: string, start: nat, paren: bool): Read
    requires start <= |s|
  {
    var end := WordEndWithin(s, start, NAME_MAX);
    Read(Bool(Find(t, s[start..end]).Some?), CloseAt(s, end, paren))
  }

  function CloseAt(s: string, i: nat, paren: bool): nat
    requires i <= |s|
  {
    var k := SkipBlanks(s, i);
    if paren && Have(s, k, ')') then k + 1 else k
  }

  lemma CloseKept(s: string, i: nat, paren: bool)
    requires Within(s, i)
    ensures Within(s, CloseAt(s + ")", i, paren))
    ensures CloseAt(s, Clip(s, i), paren) == Clip(s, CloseAt(s + ")", i, paren))
  {
    hide SkipBlanks;
    BlanksKept(s, i);
    CharKept(s, SkipBlanks(s + ")", i), '(');
  }

  lemma NameKept(t: Table, s: string, start: nat, paren: bool)
    requires start <= |s|
    ensures Within(s, NameRead(t, s + ")", start, paren).next)
    ensures NameRead(t, s, start, paren) == Clipped(s, NameRead(t, s + ")", start, paren))
  {
    hide WordEndWithin, Find, CloseAt;
    var s' := s + ")";
    WordKept(s, start, NAME_MAX);
    var end := WordEndWithin(s, start, NAME_MAX);
    assert s'[start..end] == s[start..end];
    CloseKept(s, end, paren);
  }

  lemma DefinedIsName(t: Table, s: string, i: nat)
    requires i <= |s|
    ensures var j := SkipBlanks(s, i);
      EvalDefined(t, s, i)
        == if Have(s, j, '(') then NameRead(t, s, SkipBlanks(s, j + 1), true) else NameRead(t, s, j, false)
  {
    hide SkipBlanks, WordEndWithin, Find;
  }

  lemma DefinedKept(t: Table, s: string, i: nat)
    requires i <= |s|
    ensures Within(s, EvalDefined(t, s + ")", i).next)
    ensures EvalDefined(t, s, i) == Clipped(s, EvalDefined(t, s + ")", i))
  {
    hide SkipBlanks, NameRead, EvalDefined, Clipped;
    var s' := s + ")";
    DefinedIsName(t, s, i);
    DefinedIsName(t, s', i);
    BlanksKept(s, i);
    ParenStops(s, i);
    var j := SkipBlanks(s, i);
    CharKept(s, j, '(');
    if Have(s, j, '(') {
      BlanksKept(s, j + 1);
      ParenStops(s, j + 1);
      NameKept(t, s, SkipBlanks(s, j + 1), true);
    } else {
      NameKept(t, s, j, false);
    }
  }

  lemma {:induction false} AtomKept(t: Table, s: string, i: nat)
    requires Within(s, i)
    ensures Within(s, EvalAtom(t, s + ")", i).next)
    ensures EvalAtom(t, s, Clip(s, i)) == Clipped(s, EvalAtom(t, s + ")", i))
    decreases |s| + 1 - i, 1
  {
    hide SkipBlanks, EvalAtom;
    var j := SkipBlanks(s + ")", i);
    BlanksKept(s, i);
    CharKept(s, j, '(');
    if Have(s, Clip(s, j), '(') { ParenKept(t, s, i); } else { OtherKept(t, s, i); }
  }

  lemma {:induction false} ParenKept(t: Table, s: string, i: nat)
    requires Within(s, i) && Have(s, SkipBlanks(s, Clip(s, i)), '(')
    ensures Within(s, EvalAtom(t, s + ")", i).next)
    ensures EvalAtom(t, s, Clip(s, i)) == Clipped(s, EvalAtom(t, s + ")", i))
    decreases |s| + 1 - i, 0
  {
    hide SkipBlanks, WordEndWithin, EvalExpr, EvalDefined, ReadUnsigned, NameValue;
    var s' := s + ")";
    var j := SkipBlanks(s', i);
    BlanksKept(s, i);
    CharKept(s, j, '(');
    ExprKept(t, s, j + 1);
    CloseKept(s, EvalExpr(t, s', j + 1).next, true);
  }

  lemma {:induction false} OtherKept(t: Table, s: string, i: nat)
    requires Within(s, i) && !Have(s, SkipBlanks(s, Clip(s, i)), '(')
    ensures Within(s, EvalAtom(t, s + ")", i).next)
    ensures EvalAtom(t, s, Clip(s, i)) == Clipped(s, EvalAtom(t, s + ")", i))
    decreases |s| + 1 - i, 0
  {
    hide SkipBlanks, EvalAtom;
    var j := SkipBlanks(s + ")", i);
    BlanksKept(s, i);
    CharKept(s, j, '!');
    CharKept(s, j, '(');
    if Have(s, Clip(s, j), '!') {
      AtomKept(t, s, j + 1);
      BangStep(t, s, Clip(s, i));
      BangStep(t, s + ")", i);
    } else {
      OperandKept(t, s, i);
    }
  }

  lemma BangStep(t: Table, s: string, i: nat)
    requires i <= |s| && Have(s, SkipBlanks(s, i), '!')
    ensures var x := EvalAtom(t, s, SkipBlanks(s, i) + 1);
      EvalAtom(t, s, i) == Read(Bool(x.v == 0), x.next)
  {
    hide SkipBlanks, EvalExpr, EvalDefined, WordEndWithin, ReadUnsigned, NameValue;
  }

  /** A numeral, a word, or nothing. */
  function PlainAt(t: Table, s: string, j: nat): Read
    requires j <= |s|
  {
    if j < |s| && IsDigit(s[j]) then Read(Saturate(ReadUnsigned(s, j).0), ReadUnsigned(s, j).1)
    else if j < |s| && IsIdStart(s[j]) then
      var end := WordEndWithin(s, j, NAME_MAX);
      if s[j..end] == "defined" then EvalDefined(t, s, end) else Read(NameValue(t, s[j..end]), end)
    else Read(0, j)
  }

  lemma PlainStep(t: Table, s: string, i: nat)
    requires i <= |s| && !Have(s, SkipBlanks(s, i), '!') && !Have(s, SkipBlanks(s, i), '(')
    ensures EvalAtom(t, s, i) == PlainAt(t, s, SkipBlanks(s, i))
  {
    hide SkipBlanks, EvalExpr, EvalDefined, WordEndWithin, ReadUnsigned, NameValue;
  }

  lemma OperandKept(t: Table, s: string, i: nat)
    requires Within(s, i)
    requires !Have(s, SkipBlanks(s, Clip(s, i)), '(') && !Have(s, SkipBlanks(s, Clip(s, i)), '!')
    ensures Within(s, EvalAtom(t, s + ")", i).next)
    ensures EvalAtom(t, s, Clip(s, i)) == Clipped(s, EvalAtom(t, s + ")", i))
  {
    hide SkipBlanks, EvalAtom, PlainAt, Clipped;
    var j := SkipBlanks(s + ")", i);
    BlanksKept(s, i);
    CharKept(s, j, '!');
    CharKept(s, j, '(');
    PlainStep(t, s, Clip(s, i));
    PlainStep(t, s + ")", i);
    PlainKept(t, s, j);
  }

  lemma PlainKept(t: Table, s: string, j: nat)
    requires Within(s, j)
    ensures Within(s, PlainAt(t, s + ")", j).next)
    ensures PlainAt(t, s, Clip(s, j)) == Clipped(s, PlainAt(t, s + ")", j))
  {
    hide WordEndWithin, EvalDefined, ReadUnsigned, NameValue;
    var s' := s + ")";
    if j < |s| {
      if IsDigit(s[j]) {
        NumeralKept(s, j);
      } else if IsIdStart(s[j]) {
        WordKept(s, j, NAME_MAX);
        var end := WordEndWithin(s, j, NAME_MAX);
        assert s'[j..end] == s[j..end];
        DefinedKept(t, s, end);
      }
    }
  }

  lemma {:induction false} AndKept(t: Table, s: string, i: nat)
    requires Within(s, i)
    ensures Within(s, EvalAnd(t, s + ")", i).next)
    ensures EvalAnd(t, s, Clip(s, i)) == Clipped(s, EvalAnd(t, s + ")", i))
    decreases |s| + 1 - i, 2
  {
    hide SkipBlanks, EvalAtom, AndTail;
    AtomKept(t, s, i);
    var x := EvalAtom(t, s + ")", i);
    BlanksKept(s, x.next);
    AndTailKept(t, s, SkipBlanks(s + ")", x.next), x.v);
  }

  lemma AndTailStep(t: Table, s: string, i: nat, v: Int64)
    requires i <= |s|
    ensures Have(s, i, '&') && Have(s, i + 1, '&') ==>
              var x := EvalAtom(t, s, i + 2);
              AndTail(t, s, i, v) == AndTail(t, s, SkipBlanks(s, x.next), Bool(v != 0 && x.v != 0))
    ensures !(Have(s, i, '&') && Have(s, i + 1, '&')) ==> AndTail(t, s, i, v) == Read(v, i)
  {
    hide SkipBlanks, EvalAtom, Have;
  }

  lemma {:induction false} AndTailKept(t: Table, s: string, i: nat, v: Int64)
    requires Within(s, i)
    ensures Within(s, AndTail(t, s + ")", i, v).next)
    ensures AndTail(t, s, Clip(s, i), v) == Clipped(s, AndTail(t, s + ")", i, v))
    decreases |s| + 1 - i, 1
  {
    hide SkipBlanks, EvalAtom, AndTail;
    CharKept(s, i, '&');
    AndTailStep(t, s, Clip(s, i), v);
    AndTailStep(t, s + ")", i, v);
    if Have(s, Clip(s, i), '&') {
      CharKept(s, i + 1, '&');
      if Have(s, i + 1, '&') {
        AtomKept(t, s, i + 2);
        var x := EvalAtom(t, s + ")", i + 2);
        BlanksKept(s, x.next);
        AndTailKept(t, s, SkipBlanks(s + ")", x.next), Bool(v != 0 && x.v != 0));
      }
    }
  }

  lemma {:induction false} ExprKept(t: Table, s: string, i: nat)
    requires Within(s, i)
    ensures Within(s, EvalExpr(t, s + ")", i).next)
    ensures EvalExpr(t, s, Clip(s, i)) == Clipped(s, EvalExpr(t, s + ")", i))
    decreases |s| + 1 - i, 4
  {
    hide SkipBlanks, EvalAnd, OrTail;
    AndKept(t, s, i);
    var x := EvalAnd(t, s + ")", i);
    BlanksKept(s, x.next);
    OrTailKept(t, s, SkipBlanks(s + ")", x.next), x.v);
  }

  lemma OrTailStep(t: Table, s: string, i: nat, v: Int64)
    requires i <= |s|
    ensures Have(s, i, '|') && Have(s, i + 1, '|') ==>
              var x := EvalAnd(t, s, i + 2);
              OrTail(t, s, i, v) == OrTail(t, s, SkipBlanks(s, x.next), Bool(v != 0 || x.v != 0))
    ensures !(Have(s, i, '|') && Have(s, i + 1, '|')) ==> OrTail(t, s, i, v) == Read(v, i)
  {
    hide SkipBlanks, EvalAnd, Have;
  }

  lemma {:induction false} OrTailKept(t: Table, s: string, i: nat, v: Int64)
    requires Within(s, i)
    ensures Within(s, OrTail(t, s + ")", i, v).next)
    ensures OrTail(t, s, Clip(s, i), v) == Clipped(s, OrTail(t, s + ")", i, v))
    decreases |s| + 1 - i, 3
  {
    hide SkipBlanks, EvalAnd, OrTail;
    CharKept(s, i, '|');
    OrTailStep(t, s, Clip(s, i), v);
    OrTailStep(t, s + ")", i, v);
    if Have(s, Clip(s, i), '|') {
      CharKept(s, i + 1, '|');
      if Have(s, i + 1, '|') {
        AndKept(t, s, i + 2);
        var x := EvalAnd(t, s + ")", i + 2);
        BlanksKept(s, x.next);
        OrTailKept(t, s, SkipBlanks(s + ")", x.next), Bool(v != 0 || x.v != 0));
      }
    }
  }

  /** Leaving out closing parentheses at the end changes neither the value nor, but for
      them, how far the evaluator gets. */
  lemma {:induction false} ClosersNotNeeded(t: Table, s: string, n: nat)
    ensures EvalExpr(t, s, 0) == Clipped(s, EvalExpr(t, s + Closers(n), 0))
    decreases n
  {
    hide EvalExpr;
    if n == 0 {
      assert s + Closers(0) == s;
    } else {
      ExprKept(t, s + Closers(n - 1), 0);
      assert s + Closers(n) == (s + Closers(n - 1)) + ")";
      ClosersNotNeeded(t, s, n - 1);
    }
  }

  // ------------------------------------------- whatever is read is of the language

  /** An operator of the evaluator stands at `m`. */
  predicate Operator(s: string, m: nat) {
    !NoAnd(s, m) || !NoOr(s, m)
  }

  /** Nothing at `m` can be more of an expression, nor close a parenthesis. */
  predicate Stuck(s: string, m: nat) {
    m <= |s| && (m < |s| ==> !IsBlank(s[m]) && s[m] != ')') && !Operator(s, m)
  }

  /** `text`, whose last operand is `last`, is what stands from `i` to `m`, with `n` closing
      parentheses that are missing.  If any are, nothing can follow; and after an unclosed
      `defined(` an operator does. */
  predicate Found(s: string, i: nat, m: nat, text: string, last: Operand, n: nat) {
    && i <= m <= |s| && text == s[i..m] + Closers(n)
    && (n > 0 ==> Stuck(s, m))
    && (EndsOpen(last) ==> Operator(s, m))
  }

  lemma BlanksFound(s: string, i: nat)
    requires i <= |s|
    ensures Blanks(s[i..SkipBlanks(s, i)])
  {
  }

  lemma OneFound(s: string, i: nat, j: nat, m: nat, x: Operand, after: string, n: nat)
    requires i <= j <= m <= |s| && (n > 0 ==> Stuck(s, m)) && (EndsOpen(x) ==> Operator(s, m))
    requires OperandText(x) + after == s[j..m] + Closers(n)
    ensures Found(s, i, m, AllText(One(s[i..j], x, after)), x, n)
  {
    hide OperandText, Closers, Stuck, EndsOpen, Operator;
    assert s[i..j] + (s[j..m] + Closers(n)) == s[i..m] + Closers(n);
  }

  /** The numeral that the evaluator reads is a numeral. */
  lemma NumeralFound(s: string, i: nat)
    requires i < |s| && IsDigit(s[i])
    ensures var e := ReadUnsigned(s, i).1;
      i < e <= |s| && Numeral(s[i..e])
  {
    hide NumberAt, DigitsEnd, DigitValue;
    var (start, base) := BaseAt(s, i);
    var e := DigitsEnd(s, start, base);
    FirstDigit(s, i);
    DigitsFound(s, start, base);
    NumeralCut(s, i, e);
  }

  lemma FirstDigit(s: string, i: nat)
    requires i < |s| && IsDigit(s[i])
    ensures var (start, base) := BaseAt(s, i);
      start < |s| && DigitValue(s[start]) < base
  {
  }

  lemma {:induction false} DigitsFound(s: string, i: nat, base: nat)
    requires i <= |s|
    ensures forall k :: i <= k < DigitsEnd(s, i, base) ==> DigitValue(s[k]) < base
    ensures i < |s| && DigitValue(s[i]) < base ==> DigitsEnd(s, i, base) > i
    decreases |s| - i
  {
    if i < |s| && DigitValue(s[i]) < base { DigitsFound(s, i + 1, base); }
  }

  lemma NumeralCut(s: string, i: nat, e: nat)
    requires i < |s| && IsDigit(s[i]) && BaseAt(s, i).0 < e <= |s|
    requires forall k :: BaseAt(s, i).0 <= k < e ==> DigitValue(s[k]) < BaseAt(s, i).1
    ensures Numeral(s[i..e])
  {
    var (start, base) := BaseAt(s, i);
    var ds := s[i..e];
    assert forall k :: 0 <= k < |ds| ==> ds[k] == s[i + k];
    if base == 8 && |ds| > 1 { assert DigitValue(s[i + 1]) < 8; }
    assert NumeralBase(ds) == base && NumeralStart(ds) == start - i;
    forall k | start - i <= k < |ds|
      ensures DigitValue(ds[k]) < base
    {
      assert ds[k] == s[i + k];
    }
  }

  lemma {:induction false} WordFound(s: string, i: nat, max: nat)
    requires i <= |s|
    ensures var e := WordEndWithin(s, i, max);
      i <= e <= |s| && e - i <= max && forall k :: i <= k < e ==> IsIdCont(s[k])
    ensures max > 0 && i < |s| && IsIdCont(s[i]) ==> WordEndWithin(s, i, max) > i
    ensures WordEndWithin(s, i, max) - i < max && WordEndWithin(s, i, max) < |s| ==>
              !IsIdCont(s[WordEndWithin(s, i, max)])
    decreases max
  {
    if i < |s| && IsIdCont(s[i]) && max > 0 { WordFound(s, i + 1, max - 1); }
  }

  lemma IdentifierFound(s: string, i: nat)
    requires i <= |s|
    ensures WordEndWithin(s, i, NAME_MAX) <= |s| && Identifier(s[i..WordEndWithin(s, i, NAME_MAX)])
  {
    hide WordEndWithin;
    WordFound(s, i, NAME_MAX);
  }

  lemma NoBlank()
    ensures Blanks("")
  {
  }

  lemma BlanksJoin(a: string, b: string)
    requires Blanks(a) && Blanks(b)
    ensures Blanks(a + b)
  {
  }

  lemma FewClosers()
    ensures Closers(0) == "" && Closers(1) == ")"
  {
    assert Closers(1) == Closers(0) + ")";
  }

  /** `defined` without a parenthesis. */
  /** The text from `j` on: the word, blanks, a name or none, and blanks. */
  lemma BareText(s: string, j: nat, g: nat, end: nat, m: nat)
    requires j + 7 <= g <= end <= m <= |s| && s[j..j + 7] == "defined"
    ensures OperandText(Bare(s[j + 7..g], s[g..end])) + s[end..m] == s[j..m] + ""
    ensures s[g..end] == "" ==> OperandText(Bare("", "")) + (s[j + 7..g] + s[end..m]) == s[j..m] + ""
  {
    assert s[j..m] == s[j..j + 7] + (s[j + 7..g] + (s[g..end] + s[end..m]));
    assert OperandText(Bare("", "")) == "defined";
  }

  lemma BareFound(t: Table, s: string, i: nat, j: nat) returns (c: All)
    requires i <= j && j + 7 <= |s| && s[j..j + 7] == "defined" && Blanks(s[i..j])
    requires j + 7 < |s| ==> !IsIdCont(s[j + 7])
    requires !Have(s, SkipBlanks(s, j + 7), '(')
    ensures c.One? && AllFits(c) && Found(s, i, EvalDefined(t, s, j + 7).next, AllText(c), c.x, 0)
  {
    hide WordEndWithin, SkipBlanks, Find, Stuck, Blanks, IsIdCont, Identifier, Found, Closers;
    var g := SkipBlanks(s, j + 7);
    var end := WordEndWithin(s, g, NAME_MAX);
    var m := SkipBlanks(s, end);
    FewClosers();
    BlanksFound(s, j + 7);
    IdentifierFound(s, g);
    BlanksFound(s, end);
    var gap, id, after := s[j + 7..g], s[g..end], s[end..m];
    if id == "" {
      NoBlank();
      BlanksJoin(gap, after);
      var x := Bare("", "");
      c := One(s[i..j], x, gap + after);
      BareText(s, j, g, end, m);
      OneFound(s, i, j, m, x, gap + after, 0);
    } else {
      var x := Bare(gap, id);
      NameStarts(s, g);
      c := One(s[i..j], x, after);
      BareText(s, j, g, end, m);
      OneFound(s, i, j, m, x, after, 0);
    }
  }

  lemma NameStarts(s: string, i: nat)
    requires i <= |s| && WordEndWithin(s, i, NAME_MAX) > i
    ensures i < |s| && IsIdCont(s[i])
  {
  }

  lemma StuckAfterBlanks(s: string, e: nat)
    requires e <= |s| && !Have(s, SkipBlanks(s, e), ')') && !Operator(s, SkipBlanks(s, e))
    ensures Stuck(s, SkipBlanks(s, e))
  {
  }

  lemma Cut(s: string, a: nat, b: nat, c: nat)
    requires a <= b <= c <= |s|
    ensures s[a..c] == s[a..b] + s[b..c]
  {
  }

  /** The parts of `defined(` and a name, with the blanks among them. */
  lemma BracedText(s: string, j: nat, g: nat, start: nat, end: nat, k: nat)
    requires j + 7 <= g < start <= end <= k <= |s| && s[j..j + 7] == "defined" && s[g] == '('
    ensures s[j..k] == "defined" + (s[j + 7..g] + ("(" + (s[g + 1..start] + (s[start..end] + s[end..k]))))
  {
    assert s[g..g + 1] == "(";
    Cut(s, j, j + 7, k);
    Cut(s, j + 7, g, k);
    Cut(s, g, g + 1, k);
    Cut(s, g + 1, start, k);
    Cut(s, start, end, k);
  }

  /** `defined` with a parenthesis. */
  lemma BracedFound(t: Table, s: string, i: nat, j: nat) returns (c: All, n: nat)
    requires i <= j && j + 7 <= |s| && s[j..j + 7] == "defined" && Blanks(s[i..j])
    requires Have(s, SkipBlanks(s, j + 7), '(')
    ensures c.One? && AllFits(c) && Found(s, i, EvalDefined(t, s, j + 7).next, AllText(c), c.x, n)
  {
    hide WordEndWithin, SkipBlanks, Find, Blanks, IsIdCont, Identifier, Found, Operator, AllText, AllFits;
    var g := SkipBlanks(s, j + 7);
    var start := SkipBlanks(s, g + 1);
    var end := WordEndWithin(s, start, NAME_MAX);
    var k := SkipBlanks(s, end);
    BlanksFound(s, j + 7);
    BlanksFound(s, g + 1);
    IdentifierFound(s, start);
    BlanksFound(s, end);
    if !Have(s, k, ')') && Operator(s, k) {
      c := UnclosedFound(s, i, j, g, start, end, k);
      n := 0;
    } else {
      if !Have(s, k, ')') { StuckAfterBlanks(s, end); }
      c, n := ClosedFound(s, i, j, g, start, end, k);
    }
  }

  lemma ClosedFound(s: string, i: nat, j: nat, g: nat, start: nat, end: nat, k: nat) returns (c: All, n: nat)
    requires i <= j && j + 7 <= g < start <= end <= k <= |s| && s[j..j + 7] == "defined" && s[g] == '('
    requires Blanks(s[i..j]) && Blanks(s[j + 7..g]) && Blanks(s[g + 1..start]) && Blanks(s[end..k])
    requires Identifier(s[start..end]) && (Have(s, k, ')') || Stuck(s, k))
    ensures c.One? && AllFits(c)
    ensures Found(s, i, if Have(s, k, ')') then k + 1 else k, AllText(c), c.x, n)
  {
    hide Blanks, Identifier, Found, Closers, Stuck, AllText;
    var x := Braced(s[j + 7..g], s[g + 1..start], s[start..end], s[end..k]);
    FewClosers();
    NoBlank();
    BracedText(s, j, g, start, end, k);
    ClosedText(s[j..k], x);
    c := One(s[i..j], x, "");
    if Have(s, k, ')') {
      n := 0;
      assert s[j..k + 1] == s[j..k] + ")";
      OneFound(s, i, j, k + 1, x, "", 0);
    } else {
      n := 1;
      OneFound(s, i, j, k, x, "", 1);
    }
  }

  lemma ClosedText(s: string, x: Operand)
    requires x.Braced? && s == "defined" + (x.gap + ("(" + (x.open + (x.id + x.close))))
    ensures OperandText(x) == s + ")"
  {
    assert "defined" + (x.gap + ("(" + (x.open + (x.id + (x.close + ")")))))
        == ("defined" + (x.gap + ("(" + (x.open + (x.id + x.close))))) + ")";
  }

  lemma UnclosedFound(s: string, i: nat, j: nat, g: nat, start: nat, end: nat, k: nat) returns (c: All)
    requires i <= j && j + 7 <= g < start <= end <= k <= |s| && s[j..j + 7] == "defined" && s[g] == '('
    requires Blanks(s[i..j]) && Blanks(s[j + 7..g]) && Blanks(s[g + 1..start]) && Blanks(s[end..k])
    requires Identifier(s[start..end]) && Operator(s, k)
    ensures c.One? && AllFits(c) && Found(s, i, k, AllText(c), c.x, 0)
  {
    hide Blanks, Identifier, Found, Closers, Operator, AllText;
    var gap, open, id, close := s[j + 7..g], s[g + 1..start], s[start..end], s[end..k];
    FewClosers();
    NoBlank();
    BracedText(s, j, g, start, end, k);
    var x := if id == "" then Unclosed(gap, "", "") else Unclosed(gap, open, id);
    var after := if id == "" then open + close else close;
    if id == "" { BlanksJoin(open, close); }
    UnclosedText(gap, open, id, close, x, after);
    c := One(s[i..j], x, after);
    OneFound(s, i, j, k, x, after, 0);
  }

  lemma UnclosedText(gap: string, open: string, id: string, close: string, x: Operand, after: string)
    requires x == (if id == "" then Unclosed(gap, "", "") else Unclosed(gap, open, id))
    requires after == if id == "" then open + close else close
    ensures OperandText(x) + after == ("defined" + (gap + ("(" + (open + (id + close))))) + ""
  {
    if id == "" {
      assert ("defined" + (gap + ("(" + ("" + "")))) + (open + close)
          == ("defined" + (gap + ("(" + (open + ("" + close))))) + "";
    } else {
      assert ("defined" + (gap + ("(" + (open + id)))) + close ==
             ("defined" + (gap + ("(" + (open + (id + close))))) + "";
    }
  }

  /** An operand that the evaluator reads is one of the language. */
  lemma {:induction false} OperandFound(t: Table, s: string, i: nat) returns (c: All, n: nat)
    requires i <= |s|
    ensures c.One? && AllFits(c) && Found(s, i, EvalAtom(t, s, i).next, AllText(c), c.x, n)
    decreases |s| - i, 1
  {
    hide WordEndWithin, SkipBlanks, EvalDefined, EvalExpr, ReadUnsigned, NameValue, Found, Closers, Stuck, Operator,
         Numeral, Blanks, AllText;
    var j := SkipBlanks(s, i);
    BlanksFound(s, i);
    NoBlank();
    FewClosers();
    if Have(s, j, '!') {
      c, n := BangFound(t, s, i, j);
    } else if Have(s, j, '(') {
      c, n := ParenFound(t, s, i, j);
    } else if j < |s| && IsDigit(s[j]) {
      NumeralFound(s, j);
      var m := ReadUnsigned(s, j).1;
      var x := Numeric(s[j..m]);
      c, n := One(s[i..j], x, ""), 0;
      assert OperandText(x) + "" == s[j..m] + "";
      OneFound(s, i, j, m, x, "", 0);
    } else if j < |s| && IsIdStart(s[j]) {
      c, n := NameFound(t, s, i, j);
    } else {
      c, n := One(s[i..j], Missing, ""), 0;
      assert OperandText(Missing) + "" == s[j..j] + "";
      OneFound(s, i, j, j, Missing, "", 0);
    }
  }

  lemma NameFound(t: Table, s: string, i: nat, j: nat) returns (c: All, n: nat)
    requires i <= |s| && i <= j == SkipBlanks(s, i) < |s| && IsIdStart(s[j]) && Blanks(s[i..j])
    ensures c.One? && AllFits(c) && Found(s, i, EvalAtom(t, s, i).next, AllText(c), c.x, n)
  {
    hide WordEndWithin, SkipBlanks, EvalDefined, EvalExpr, ReadUnsigned, NameValue, Found, Closers, Stuck, Operator,
         Numeral, Blanks, AllText;
    var end := WordEndWithin(s, j, NAME_MAX);
    WordFound(s, j, NAME_MAX);
    var word := s[j..end];
    if word == "defined" {
      if Have(s, SkipBlanks(s, end), '(') {
        c, n := BracedFound(t, s, i, j);
      } else {
        c := BareFound(t, s, i, j);
        n := 0;
      }
    } else {
      NoBlank();
      FewClosers();
      var x := Named(word);
      assert forall k :: 0 <= k < |word| ==> word[k] == s[j + k];
      c, n := One(s[i..j], x, ""), 0;
      assert OperandText(x) + "" == s[j..end] + "";
      OneFound(s, i, j, end, x, "", 0);
    }
  }

  /** A `!` before an operand. */
  function Banged(before: string, y: All): All
    requires y.One?
  {
    One(before, Bang(y.before, y.x), y.after)
  }

  lemma BangText(s: string, i: nat, j: nat, m: nat, y: All, n: nat)
    requires y.One? && i <= j < m <= |s| && s[j] == '!' && AllText(y) == s[j + 1..m] + Closers(n)
    ensures AllText(Banged(s[i..j], y)) == s[i..m] + Closers(n)
  {
    hide Closers;
    assert AllText(Banged(s[i..j], y)) == s[i..j] + ("!" + AllText(y));
    assert s[i..j] + ("!" + (s[j + 1..m] + Closers(n))) == s[i..m] + Closers(n);
  }

  lemma BangFits(before: string, y: All)
    requires y.One? && AllFits(y) && Blanks(before)
    ensures AllFits(Banged(before, y)) && (EndsOpen(Banged(before, y).x) <==> EndsOpen(y.x))
  {
    hide Blanks;
  }

  lemma {:induction false} BangFound(t: Table, s: string, i: nat, j: nat) returns (c: All, n: nat)
    requires i <= |s| && i <= j == SkipBlanks(s, i) && Have(s, j, '!') && Blanks(s[i..j])
    ensures c.One? && AllFits(c) && Found(s, i, EvalAtom(t, s, i).next, AllText(c), c.x, n)
    decreases |s| - j, 0
  {
    hide EvalAtom, SkipBlanks, Closers, Stuck, Operator, Blanks, OperandText, AllText, AllFits, EndsOpen;
    var y;
    y, n := OperandFound(t, s, j + 1);
    c := Banged(s[i..j], y);
    BangStep(t, s, i);
    BangFits(s[i..j], y);
    BangText(s, i, j, EvalAtom(t, s, j + 1).next, y, n);
  }

  lemma {:induction false} ParenFound(t: Table, s: string, i: nat, j: nat) returns (c: All, n: nat)
    requires i <= |s| && i <= j == SkipBlanks(s, i) && Have(s, j, '(') && Blanks(s[i..j])
    ensures c.One? && AllFits(c) && Found(s, i, EvalAtom(t, s, i).next, AllText(c), c.x, n)
    decreases |s| - j, 0
  {
    hide EvalExpr, EvalAtom, SkipBlanks, Operator, Blanks, AllText, AnyText, AnyFits, Found;
    var e, k := AnyFound(t, s, j + 1);
    NoBlank();
    c, n := EnclosedFound(s, i, j, EvalExpr(t, s, j + 1).next, e, k);
    ParenStep(t, s, i);
  }

  lemma ParenStep(t: Table, s: string, i: nat)
    requires i <= |s| && Have(s, SkipBlanks(s, i), '(')
    ensures EvalAtom(t, s, i).next == CloseAt(s, EvalExpr(t, s, SkipBlanks(s, i) + 1).next, true)
  {
    hide SkipBlanks, EvalExpr, EvalDefined, WordEndWithin, ReadUnsigned, NameValue;
  }

  lemma EnclosedFound(s: string, i: nat, j: nat, m: nat, e: Any, k: nat) returns (c: All, n: nat)
    requires i <= j && Have(s, j, '(') && Blanks(s[i..j]) && Blanks("") && AnyFits(e)
    requires Found(s, j + 1, m, AnyText(e), e.c.x, k) && SkipBlanks(s, m) == m && !Operator(s, m)
    ensures c.One? && AllFits(c) && Found(s, i, CloseAt(s, m, true), AllText(c), c.x, n)
  {
    hide SkipBlanks, Operator, Blanks, AllText, AnyText, AnyFits, Closers, EndsOpen;
    assert !EndsOpen(e.c.x);
    var x := Paren(e);
    NotOpen(x);
    FewClosers();
    c := One(s[i..j], x, "");
    if Have(s, m, ')') {
      n := 0;
      EnclosedText(s, j, m, AnyText(e), k);
      OneFound(s, i, j, m + 1, x, "", 0);
    } else {
      n := k + 1;
      EnclosedText(s, j, m, AnyText(e), k);
      StuckHere(s, m);
      OneFound(s, i, j, m, x, "", n);
    }
  }

  lemma NotOpen(x: Operand)
    requires x.Paren?
    ensures !EndsOpen(x)
  {
  }

  lemma StuckHere(s: string, m: nat)
    requires m <= |s| && SkipBlanks(s, m) == m && !Operator(s, m) && !Have(s, m, ')')
    ensures Stuck(s, m)
  {
  }

  lemma EnclosedText(s: string, j: nat, m: nat, text: string, k: nat)
    requires Have(s, j, '(') && j < m <= |s| && text == s[j + 1..m] + Closers(k)
    ensures "(" + (text + ")") == s[j..m] + Closers(k + 1)
    ensures k == 0 && Have(s, m, ')') ==> "(" + (text + ")") == s[j..m + 1]
  {
    assert Closers(k + 1) == Closers(k) + ")";
    assert s[j..m] == "(" + s[j + 1..m];
  }

  /** Blanks after an operand belong to it. */
  lemma WithBlanks(s: string, i: nat, m: nat, c: All, n: nat) returns (d: All)
    requires AllFits(c) && m <= |s| && Found(s, i, m, AllText(c), c.x, n)
    ensures AllFits(d) && d.x == c.x && Found(s, i, SkipBlanks(s, m), AllText(d), d.x, n)
    ensures c.One? ==> d.One?
  {
    hide OperandText, OperandFits, EndsOpen;
    var k := SkipBlanks(s, m);
    BlanksFound(s, m);
    var after := s[m..k];
    if after == "" {
      d := c;
    } else {
      assert n == 0;
      BlanksJoin(c.after, after);
      d := c.(after := c.after + after);
      LongerText(c, after);
      assert s[i..k] == s[i..m] + after;
      OperatorNotBlank(s, m);
    }
  }

  lemma LongerText(c: All, after: string)
    ensures AllText(c.(after := c.after + after)) == AllText(c) + after
  {
    hide OperandText;
    var last := c.before + (OperandText(c.x) + c.after);
    assert c.before + (OperandText(c.x) + (c.after + after)) == last + after;
    if c.More? {
      assert AllText(c.l) + ("&&" + (last + after)) == (AllText(c.l) + ("&&" + last)) + after;
    }
  }

  lemma OperatorNotBlank(s: string, m: nat)
    requires m <= |s|
    ensures Operator(s, m) ==> SkipBlanks(s, m) == m
  {
  }

  lemma {:induction false} AndFound(t: Table, s: string, i: nat) returns (c: All, n: nat)
    requires i <= |s|
    ensures var m := EvalAnd(t, s, i).next;
      AllFits(c) && Found(s, i, m, AllText(c), c.x, n) && SkipBlanks(s, m) == m && NoAnd(s, m)
    decreases |s| - i, 3
  {
    hide EvalAtom, AndTail, SkipBlanks, Found, AllText, OperandFits, Blanks;
    var first, k := OperandFound(t, s, i);
    var x := EvalAtom(t, s, i);
    var d := WithBlanks(s, i, x.next, first, k);
    SkippedTwice(s, x.next);
    c, n := AndTailFound(t, s, i, SkipBlanks(s, x.next), x.v, d, k);
  }

  lemma {:induction false} AndTailFound(t: Table, s: string, i: nat, m: nat, v: Int64, l: All, k: nat)
    returns (c: All, n: nat)
    requires i <= m <= |s| && AllFits(l) && Found(s, i, m, AllText(l), l.x, k) && SkipBlanks(s, m) == m
    ensures var e := AndTail(t, s, m, v).next;
      AllFits(c) && Found(s, i, e, AllText(c), c.x, n) && SkipBlanks(s, e) == e && NoAnd(s, e)
    decreases |s| - m, 2
  {
    hide EvalAtom, SkipBlanks, OperandFits, Blanks, OperandText;
    if NoAnd(s, m) {
      c, n := l, k;
    } else {
      var r, q := OperandFound(t, s, m + 2);
      var x := EvalAtom(t, s, m + 2);
      var d := WithBlanks(s, m + 2, x.next, r, q);
      var e := SkipBlanks(s, x.next);
      SkippedTwice(s, x.next);
      var joined := More(l, d.before, d.x, d.after);
      JoinedFound(s, i, m, e, AllText(l), AllText(d), "&&", q);
      c, n := AndTailFound(t, s, i, e, Bool(v != 0 && x.v != 0), joined, q);
    }
  }

  /** Two found pieces with an operator between them. */
  lemma JoinedFound(s: string, i: nat, m: nat, e: nat, l: string, r: string, op: string, n: nat)
    requires i <= m && m + 2 <= e <= |s| && |op| == 2 && s[m] == op[0] && s[m + 1] == op[1]
    requires l == s[i..m] + Closers(0) && r == s[m + 2..e] + Closers(n)
    ensures l + (op + r) == s[i..e] + Closers(n)
  {
    assert l == s[i..m];
    assert op == s[m..m + 2];
    assert s[i..e] == s[i..m] + (s[m..m + 2] + s[m + 2..e]);
  }

  lemma {:induction false} AnyFound(t: Table, s: string, i: nat) returns (e: Any, n: nat)
    requires i <= |s|
    ensures var m := EvalExpr(t, s, i).next;
      AnyFits(e) && Found(s, i, m, AnyText(e), e.c.x, n) && SkipBlanks(s, m) == m && !Operator(s, m)
    decreases |s| - i, 5
  {
    hide EvalAnd, OrTail, SkipBlanks, Found, AllText, AllFits;
    var first, k := AndFound(t, s, i);
    var x := EvalAnd(t, s, i);
    e, n := OrTailFound(t, s, i, x.next, x.v, Single(first), k);
  }

  lemma {:induction false} OrTailFound(t: Table, s: string, i: nat, m: nat, v: Int64, l: Any, k: nat)
    returns (e: Any, n: nat)
    requires i <= m <= |s| && AnyFits(l) && Found(s, i, m, AnyText(l), l.c.x, k) && SkipBlanks(s, m) == m && NoAnd(s, m)
    ensures var r := OrTail(t, s, m, v).next;
      AnyFits(e) && Found(s, i, r, AnyText(e), e.c.x, n) && SkipBlanks(s, r) == r && !Operator(s, r)
    decreases |s| - m, 4
  {
    hide EvalAnd, SkipBlanks, AllFits, AllText;
    if NoOr(s, m) {
      e, n := l, k;
    } else {
      var r, q := AndFound(t, s, m + 2);
      var x := EvalAnd(t, s, m + 2);
      JoinedFound(s, i, m, x.next, AnyText(l), AllText(r), "||", q);
      e, n := OrTailFound(t, s, i, x.next, Bool(v != 0 || x.v != 0), Other(l, r), q);
    }
  }

  // ------------------------------------------------------------------ exactly these

  /** The evaluator reads a text to its end exactly when it is one of the language, and then
      gives it its value.  Anything else, an `==` for one, stops it on the way. */
  lemma ReadsExactlyTexts(t: Table, s: string)
    ensures EvalExpr(t, s, 0).next == |s| <==> IsText(s)
    ensures forall e, n :: AnyFits(e) && AnyText(e) == s + Closers(n) ==> EvalExpr(t, s, 0) == Read(AnyValue(t, e), |s|)
  {
    hide EvalExpr, AnyFits, AnyText, AnyValue;
    forall e, n: nat | AnyFits(e) && AnyText(e) == s + Closers(n)
      ensures EvalExpr(t, s, 0) == Read(AnyValue(t, e), |s|)
    {
      ClosedTextRead(t, e);
      ClosersNotNeeded(t, s, n);
    }
    if EvalExpr(t, s, 0).next == |s| {
      var e, n := AnyFound(t, s, 0);
      assert s[0..|s|] == s;
    }
  }
}
