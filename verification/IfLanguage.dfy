/** Exactly which texts the `#if` evaluator reads to their end, and what they mean. */
module IfLanguage {
  import opened Syntax
  import opened Seqs
  import opened Chars
  import opened Macros
  import opened IfEval

  // -------------------------------------------------------------- the language

  /** An operand as it is written.  It may be missing, and so may the name after `defined`,
      which may stand in parentheses, closed or not, and may start with a digit. */
  datatype Operand =
    | Missing
    | Numeric(text: string)
    | Named(text: string)
    | Bare(gap: string, id: string)
    | Braced(gap: string, open: string, id: string, close: string)
    | Unclosed(gap: string, open: string, id: string)       // defined gap ( open id
    | Bang(gap: string, x: Operand)
    | Paren(e: Any)

  /** Operands joined by `&&`, each with the blanks around it. */
  datatype All =
    | One(before: string, x: Operand, after: string)
    | More(l: All, before: string, x: Operand, after: string)

  /** Those joined by `||`. */
  datatype Any = Single(c: All) | Other(l: Any, c: All)

  predicate Blanks(b: string) {
    forall k :: 0 <= k < |b| ==> IsBlank(b[k])
  }

  /** What may stand after `defined`. */
  predicate Identifier(id: string) {
    |id| <= NAME_MAX && forall k :: 0 <= k < |id| ==> IsIdCont(id[k])
  }

  predicate OperandFits(x: Operand)
    decreases x
  {
    match x
    case Missing => true
    case Numeric(text) => Numeral(text)
    case Named(text) => IsWord(text) && |text| <= NAME_MAX && text != "defined"
    case Bare(gap, id) => Blanks(gap) && Identifier(id) && (id == "" <==> gap == "")
    case Braced(gap, open, id, close) => Blanks(gap) && Blanks(open) && Identifier(id) && Blanks(close)
    case Unclosed(gap, open, id) => Blanks(gap) && Blanks(open) && Identifier(id) && (id == "" ==> open == "")
    case Bang(gap, y) => Blanks(gap) && OperandFits(y)
    case Paren(e) => AnyFits(e) && !EndsOpen(e.c.x)
  }

  /** A closing parenthesis here would belong to the `defined`. */
  predicate EndsOpen(x: Operand) {
    x.Unclosed? || (x.Bang? && EndsOpen(x.x))
  }

  predicate AllFits(c: All)
    decreases c
  {
    Blanks(c.before) && OperandFits(c.x) && Blanks(c.after) && (c.More? ==> AllFits(c.l))
  }

  predicate AnyFits(e: Any)
    decreases e
  {
    AllFits(e.c) && (e.Other? ==> AnyFits(e.l))
  }

  function OperandText(x: Operand): string
    decreases x
  {
    match x
    case Missing => ""
    case Numeric(text) => text
    case Named(text) => text
    case Bare(gap, id) => "defined" + (gap + id)
    case Braced(gap, open, id, close) => "defined" + (gap + ("(" + (open + (id + (close + ")")))))
    case Unclosed(gap, open, id) => "defined" + (gap + ("(" + (open + id)))
    case Bang(gap, y) => "!" + (gap + OperandText(y))
    case Paren(e) => "(" + (AnyText(e) + ")")
  }

  function AllText(c: All): string
    decreases c
  {
    if c.One? then c.before + (OperandText(c.x) + c.after)
    else AllText(c.l) + ("&&" + (c.before + (OperandText(c.x) + c.after)))
  }

  function AnyText(e: Any): string
    decreases e
  {
    if e.Single? then AllText(e.c) else AnyText(e.l) + ("||" + AllText(e.c))
  }

  function OperandValue(t: Table, x: Operand): Int64
    decreases x
  {
    match x
    case Missing => 0
    case Numeric(text) => Saturate(NumeralValue(text))
    case Named(text) => NameValue(t, text)
    case Bare(_, id) => if Find(t, id).Some? then 1 else 0
    case Braced(_, _, id, _) => if Find(t, id).Some? then 1 else 0
    case Unclosed(_, _, id) => if Find(t, id).Some? then 1 else 0
    case Bang(_, y) => if OperandValue(t, y) == 0 then 1 else 0
    case Paren(e) => AnyValue(t, e)
  }

  function AllValue(t: Table, c: All): Int64
    decreases c
  {
    if c.One? then OperandValue(t, c.x)
    else if AllValue(t, c.l) != 0 && OperandValue(t, c.x) != 0 then 1 else 0
  }

  function AnyValue(t: Table, e: Any): Int64
    decreases e
  {
    if e.Single? then AllValue(t, e.c)
    else if AnyValue(t, e.l) != 0 || AllValue(t, e.c) != 0 then 1 else 0
  }

  function Closers(n: nat): (s: string)
    ensures |s| == n
  {
    if n == 0 then "" else Closers(n - 1) + ")"
  }

  /** The texts of the language: those that can be written with all their parentheses
      closed, less any number of closing parentheses at the very end. */
  ghost predicate IsText(s: string) {
    exists e: Any, n: nat :: AnyFits(e) && AnyText(e) == s + Closers(n)
  }

  // ------------------------------------------------------ every text is read whole

  /** What follows an operand within a text. */
  predicate Follows(s: string, m: nat) {
    && m <= |s| && (m == |s| || !IsIdCont(s[m]))
    && var k := SkipBlanks(s, m);
       k == |s| || s[k] == '&' || s[k] == '|' || s[k] == ')'
  }

  /** And what follows one that ends with an unclosed `defined(`. */
  predicate FollowsOperand(s: string, m: nat, x: Operand) {
    Follows(s, m) && (EndsOpen(x) ==> !Have(s, SkipBlanks(s, m), ')'))
  }

  lemma {:induction false} SkipOver(s: string, i: nat, b: string)
    requires At(s, i, b) && Blanks(b)
    ensures i + |b| <= |s| && SkipBlanks(s, i) == SkipBlanks(s, i + |b|)
    decreases |b|
  {
    if b != "" {
      AtElement(s, i, b, 0);
      assert b == b[..1] + b[1..];
      AtSplit(s, i, b[..1], b[1..]);
      SkipOver(s, i + 1, b[1..]);
    }
  }

  lemma FollowsBlanks(s: string, m: nat, b: string)
    requires At(s, m, b) && Blanks(b) && Follows(s, m + |b|)
    ensures Follows(s, m) && SkipBlanks(s, m) == SkipBlanks(s, m + |b|)
  {
    SkipOver(s, m, b);
    if b != "" { AtElement(s, m, b, 0); }
  }

  /** A name after `defined` is read whole. */
  lemma IdentifierRead(s: string, i: nat, id: string)
    requires At(s, i, id) && Identifier(id) && (i + |id| < |s| ==> !IsIdCont(s[i + |id|]))
    ensures WordEndWithin(s, i, NAME_MAX) == i + |id| && s[i..i + |id|] == id
  {
    AtElements(s, i, id);
    WordEndAt(s, i, i + |id|);
  }

  lemma DefinedWord(t: Table, s: string, i: nat)
    requires At(s, i, "defined") && (i + 7 < |s| ==> !IsIdCont(s[i + 7]))
    ensures EvalAtom(t, s, i) == EvalDefined(t, s, i + 7)
  {
    hide EvalDefined, WordEndWithin;
    WordRead(s, i, "defined");
    NoBlanks(s, i);
  }

  lemma BareRead(t: Table, s: string, i: nat, x: Operand)
    requires x.Bare? && OperandFits(x) && At(s, i, OperandText(x)) && Follows(s, i + |OperandText(x)|)
    ensures Evaluates(t, s, i, OperandValue(t, x), i + |OperandText(x)|)
  {
    hide WordEndWithin, Find, IsWord, At, SkipBlanks, EvalDefined, EvalAtom;
    AtSplit(s, i, "defined", x.gap + x.id);
    AtSplit(s, i + 7, x.gap, x.id);
    var start := i + 7 + |x.gap|;
    SkipOver(s, i + 7, x.gap);
    if x.gap != "" { AtElement(s, i + 7, x.gap, 0); }
    DefinedWord(t, s, i);
    BareName(t, s, i + 7, start, x.id);
  }

  lemma BareName(t: Table, s: string, i: nat, start: nat, id: string)
    requires At(s, start, id) && Identifier(id) && i <= start <= |s| && SkipBlanks(s, i) == SkipBlanks(s, start)
    requires Follows(s, start + |id|)
    ensures EvalDefined(t, s, i) == Read(Bool(Find(t, id).Some?), SkipBlanks(s, start + |id|))
  {
    hide WordEndWithin, Find, At, Identifier;
    NameAfterBlanks(s, start, id);
    if id != "" {
      AtElement(s, start, id, 0);
      NotParen(id);
      NoBlanks(s, start);
    }
  }

  lemma NotParen(id: string)
    requires Identifier(id) && id != ""
    ensures IsIdCont(id[0]) && id[0] != '(' && !IsBlank(id[0])
  {
  }

  lemma AtNothing(s: string, i: nat)
    requires i <= |s|
    ensures At(s, i, "")
  {
  }

  /** From the parenthesis on. */
  lemma BracketRead(t: Table, s: string, i: nat, p: nat, open: string, id: string, close: string)
    requires Blanks(open) && Identifier(id) && Blanks(close) && At(s, p, "(" + (open + (id + (close + ")"))))
    requires i <= p < |s| && SkipBlanks(s, i) == p
    ensures EvalDefined(t, s, i) == Read(Bool(Find(t, id).Some?), p + |open| + |id| + |close| + 2)
  {
    hide Find, At, SkipBlanks, EvalDefined, IsIdCont, Blanks, Identifier;
    var rest := id + (close + ")");
    AtSplit(s, p, "(", open + rest);
    AtSplit(s, p + 1, open, rest);
    var start := p + 1 + |open|;
    AtSplit(s, start, id, close + ")");
    var end := start + |id|;
    AtSplit(s, end, close, ")");
    AtElement(s, p, "(", 0);
    AtElement(s, end + |close|, ")", 0);
    NoIdBefore(s, end, close);
    SkipOver(s, p + 1, open);
    SkipOver(s, end, close);
    NoBlanks(s, end + |close|);
    BracedName(t, s, i, p, start, id, end);
  }

  lemma BracedRead(t: Table, s: string, i: nat, x: Operand)
    requires x.Braced? && OperandFits(x) && At(s, i, OperandText(x))
    ensures EvalAtom(t, s, i) == Read(OperandValue(t, x), i + |OperandText(x)|)
  {
    hide Find, At, SkipBlanks, EvalAtom, EvalDefined, IsIdCont, Blanks, Identifier;
    var bracket := "(" + (x.open + (x.id + (x.close + ")")));
    AtSplit(s, i, "defined", x.gap + bracket);
    AtSplit(s, i + 7, x.gap, bracket);
    var p := i + 7 + |x.gap|;
    AtElement(s, p, bracket, 0);
    AfterDefined(s, i + 7, x.gap, p);
    SkipOver(s, i + 7, x.gap);
    NoBlanks(s, p);
    DefinedWord(t, s, i);
    BracketRead(t, s, i + 7, p, x.open, x.id, x.close);
  }

  /** The name in the parentheses, with blanks before it or, if it is missing, after it. */
  lemma DefinedInParens(t: Table, s: string, i: nat)
    requires i <= |s| && Have(s, SkipBlanks(s, i), '(')
    ensures var start := SkipBlanks(s, SkipBlanks(s, i) + 1);
      var end := WordEndWithin(s, start, NAME_MAX);
      var k := SkipBlanks(s, end);
      EvalDefined(t, s, i) == Read(Bool(Find(t, s[start..end]).Some?), if Have(s, k, ')') then k + 1 else k)
  {
    hide WordEndWithin, Find, SkipBlanks;
  }

  lemma ParenNoWord(s: string, k: nat)
    requires Have(s, k, ')')
    ensures k < |s| && !IsIdCont(s[k])
  {
  }

  lemma BracedName(t: Table, s: string, i: nat, p: nat, start: nat, id: string, end: nat)
    requires i <= p < start <= end == start + |id| <= |s| && SkipBlanks(s, i) == p && s[p] == '('
    requires At(s, start, id) && Identifier(id) && SkipBlanks(s, p + 1) == SkipBlanks(s, start)
    requires end < |s| && !IsIdCont(s[end]) && Have(s, SkipBlanks(s, end), ')')
    ensures EvalDefined(t, s, i) == Read(Bool(Find(t, id).Some?), SkipBlanks(s, end) + 1)
  {
    hide WordEndWithin, Find, At, Identifier, SkipBlanks, EvalDefined, IsIdCont;
    ParenNoWord(s, SkipBlanks(s, end));
    NameAfterBlanks(s, start, id);
    DefinedInParens(t, s, i);
  }

  /** Where the evaluator looks for the name it finds it, and the same blanks after it. */
  lemma NameAfterBlanks(s: string, start: nat, id: string)
    requires At(s, start, id) && Identifier(id) && start + |id| <= |s|
    requires start + |id| < |s| ==> !IsIdCont(s[start + |id|])
    requires var k := SkipBlanks(s, start + |id|);
             k < |s| ==> !IsIdCont(s[k])
    ensures var j := SkipBlanks(s, start);
      var e := WordEndWithin(s, j, NAME_MAX);
      e <= |s| && s[j..e] == id && SkipBlanks(s, e) == SkipBlanks(s, start + |id|)
  {
    hide WordEndWithin, At;
    if id == "" {
      AtNothing(s, SkipBlanks(s, start));
      IdentifierRead(s, SkipBlanks(s, start), "");
      SkippedTwice(s, start);
    } else {
      AtElement(s, start, id, 0);
      NoBlanks(s, start);
      IdentifierRead(s, start, id);
    }
  }

  lemma AfterDefined(s: string, i: nat, gap: string, p: nat)
    requires At(s, i, gap) && Blanks(gap) && p == i + |gap| < |s| && s[p] == '('
    ensures !IsIdCont(s[i])
  {
    if gap != "" { AtElement(s, i, gap, 0); }
  }

  lemma NoIdBefore(s: string, i: nat, b: string)
    requires At(s, i, b) && Blanks(b) && Have(s, i + |b|, ')')
    ensures i < |s| && !IsIdCont(s[i])
  {
    if b != "" { AtElement(s, i, b, 0); }
  }

  lemma UnclosedRead(t: Table, s: string, i: nat, x: Operand)
    requires x.Unclosed? && OperandFits(x) && At(s, i, OperandText(x)) && FollowsOperand(s, i + |OperandText(x)|, x)
    ensures Evaluates(t, s, i, OperandValue(t, x), i + |OperandText(x)|)
  {
    hide Find, At, SkipBlanks, EvalAtom, EvalDefined, IsIdCont, Blanks, Identifier, Follows;
    var bracket := "(" + (x.open + x.id);
    AtSplit(s, i, "defined", x.gap + bracket);
    AtSplit(s, i + 7, x.gap, bracket);
    var p := i + 7 + |x.gap|;
    AtElement(s, p, bracket, 0);
    AfterDefined(s, i + 7, x.gap, p);
    SkipOver(s, i + 7, x.gap);
    NoBlanks(s, p);
    DefinedWord(t, s, i);
    OpenRead(t, s, i + 7, p, x.open, x.id);
    SkippedTwice(s, i + |OperandText(x)|);
  }

  lemma OpenRead(t: Table, s: string, i: nat, p: nat, open: string, id: string)
    requires i <= p < |s| && SkipBlanks(s, i) == p && At(s, p, "(" + (open + id)) && Blanks(open) && Identifier(id)
    requires Follows(s, p + 1 + |open| + |id|) && !Have(s, SkipBlanks(s, p + 1 + |open| + |id|), ')')
    ensures EvalDefined(t, s, i) == Read(Bool(Find(t, id).Some?), SkipBlanks(s, p + 1 + |open| + |id|))
  {
    hide Find, At, SkipBlanks, EvalDefined, IsIdCont, Blanks, Identifier, Follows;
    AtElement(s, p, "(" + (open + id), 0);
    AtSplit(s, p, "(", open + id);
    AtSplit(s, p + 1, open, id);
    SkipOver(s, p + 1, open);
    UnclosedName(t, s, i, p, p + 1 + |open|, id);
  }

  lemma UnclosedName(t: Table, s: string, i: nat, p: nat, start: nat, id: string)
    requires i <= p < start <= |s| && SkipBlanks(s, i) == p && s[p] == '('
    requires At(s, start, id) && Identifier(id) && SkipBlanks(s, p + 1) == SkipBlanks(s, start)
    requires Follows(s, start + |id|) && !Have(s, SkipBlanks(s, start + |id|), ')')
    ensures EvalDefined(t, s, i) == Read(Bool(Find(t, id).Some?), SkipBlanks(s, start + |id|))
  {
    hide WordEndWithin, Find, At, Identifier, SkipBlanks;
    NameAfterBlanks(s, start, id);
  }

  /** The operand at `i` gets the value `v`, and the evaluator is then at the first thing
      from `m` on that is not blank, or before blanks that lead there. */
  ghost predicate Evaluates(t: Table, s: string, i: nat, v: Int64, m: nat)
    requires i <= |s| && m <= |s|
  {
    EvalAtom(t, s, i).v == v && SkipBlanks(s, EvalAtom(t, s, i).next) == SkipBlanks(s, m)
  }

  lemma MissingRead(t: Table, s: string, i: nat)
    requires Follows(s, i)
    ensures Evaluates(t, s, i, 0, i)
  {
    hide WordEndWithin, EvalDefined, ReadUnsigned;
    SkippedTwice(s, i);
  }

  lemma NumericRead(t: Table, s: string, i: nat, ds: string)
    requires Numeral(ds) && At(s, i, ds) && Follows(s, i + |ds|)
    ensures Evaluates(t, s, i, Saturate(NumeralValue(ds)), i + |ds|)
  {
    hide NumeralValue, ReadUnsigned, At, EvalExpr;
    AtElement(s, i, ds, 0);
    NoBlanks(s, i);
    NumberRead(s, i, ds);
  }

  lemma NamedRead(t: Table, s: string, i: nat, id: string)
    requires IsWord(id) && |id| <= NAME_MAX && id != "defined" && At(s, i, id) && Follows(s, i + |id|)
    ensures Evaluates(t, s, i, NameValue(t, id), i + |id|)
  {
    hide NameValue, WordEndWithin, EvalDefined, EvalExpr, ReadUnsigned;
    AtElement(s, i, id, 0);
    NoBlanks(s, i);
    WordRead(s, i, id);
  }

  lemma {:induction false} OperandRead(t: Table, s: string, i: nat, x: Operand)
    requires OperandFits(x) && At(s, i, OperandText(x)) && FollowsOperand(s, i + |OperandText(x)|, x)
    ensures Evaluates(t, s, i, OperandValue(t, x), i + |OperandText(x)|)
    decreases x, 0
  {
    hide NameValue, Find, EvalAtom, NumeralValue, At, SkipBlanks, Follows, IsWord, Numeral, AnyText, AnyValue, AnyFits,
         Blanks, Evaluates;
    match x
    case Missing => MissingRead(t, s, i);
    case Numeric(text) => NumericRead(t, s, i, text);
    case Named(text) => NamedRead(t, s, i, text);
    case Bare(_, _) => BareRead(t, s, i, x);
    case Braced(_, _, _, _) =>
      BracedRead(t, s, i, x);
      EvaluatesAt(t, s, i, OperandValue(t, x), i + |OperandText(x)|);
    case Unclosed(_, _, _) => UnclosedRead(t, s, i, x);
    case Bang(gap, y) => BangRead(t, s, i, gap, y);
    case Paren(e) =>
      ParenthesesRead(t, s, i, e);
      EvaluatesAt(t, s, i, AnyValue(t, e), i + |OperandText(x)|);
  }

  lemma EvaluatesAt(t: Table, s: string, i: nat, v: Int64, m: nat)
    requires i <= |s| && m <= |s| && EvalAtom(t, s, i) == Read(v, m)
    ensures Evaluates(t, s, i, v, m)
  {
    hide EvalAtom;
  }

  lemma {:induction false} BangRead(t: Table, s: string, i: nat, gap: string, y: Operand)
    requires Blanks(gap) && OperandFits(y) && At(s, i, "!" + (gap + OperandText(y)))
    requires FollowsOperand(s, i + 1 + |gap + OperandText(y)|, y)
    ensures i < |s| && Evaluates(t, s, i, Bool(OperandValue(t, y) == 0), i + 1 + |gap + OperandText(y)|)
    decreases y, 2
  {
    hide OperandText, OperandFits, OperandValue, At, Follows, SkipBlanks;
    AtSplit(s, i, "!", gap + OperandText(y));
    AtElement(s, i, "!", 0);
    NoBlanks(s, i);
    SpacedRead(t, s, i + 1, gap, y);
  }

  /** Blanks before it make no difference. */
  lemma {:induction false} SpacedRead(t: Table, s: string, i: nat, before: string, x: Operand)
    requires Blanks(before) && OperandFits(x) && At(s, i, before + OperandText(x))
    requires FollowsOperand(s, i + |before + OperandText(x)|, x)
    ensures i <= |s| && Evaluates(t, s, i, OperandValue(t, x), i + |before + OperandText(x)|)
    decreases x, 1
  {
    hide EvalAtom, OperandText, OperandFits, OperandValue, At, Follows, SkipBlanks, Blanks;
    AtSplit(s, i, before, OperandText(x));
    SkipOver(s, i, before);
    OperandRead(t, s, i + |before|, x);
    SameStart(t, s, i, i + |before|);
  }

  lemma SameStart(t: Table, s: string, i: nat, j: nat)
    requires i <= |s| && j <= |s| && SkipBlanks(s, i) == SkipBlanks(s, j)
    ensures EvalAtom(t, s, i) == EvalAtom(t, s, j)
  {
    hide EvalExpr, EvalDefined, WordEndWithin, ReadUnsigned, SkipBlanks, NameValue;
  }

  lemma {:induction false} ParenthesesRead(t: Table, s: string, i: nat, e: Any)
    requires AnyFits(e) && !EndsOpen(e.c.x) && At(s, i, "(" + (AnyText(e) + ")"))
    ensures EvalAtom(t, s, i) == Read(AnyValue(t, e), i + |AnyText(e)| + 2)
    decreases e, 2
  {
    hide AnyText, AnyValue, AnyFits, EvalExpr, OrTail, At;
    var end := i + 1 + |AnyText(e)|;
    AtSplit(s, i, "(", AnyText(e) + ")");
    AtSplit(s, i + 1, AnyText(e), ")");
    AtElement(s, i, "(", 0);
    AtElement(s, end, ")", 0);
    NoBlanks(s, i);
    NoBlanks(s, end);
    OperatorFollows(s, end);
    AnyRead(t, s, i + 1, e);
    OrDone(t, s, end, AnyValue(t, e));
  }

  /** An operand with the blanks on both sides. */
  lemma {:induction false} PlacedRead(t: Table, s: string, i: nat, c: All)
    requires Blanks(c.before) && OperandFits(c.x) && Blanks(c.after)
    requires At(s, i, PlacedText(c)) && FollowsOperand(s, i + |PlacedText(c)|, c.x)
    ensures i <= |s| && Evaluates(t, s, i, OperandValue(t, c.x), i + |PlacedText(c)|)
    decreases c.x, 3
  {
    hide EvalAtom, OperandText, OperandFits, OperandValue, At, Follows, SkipBlanks, Blanks;
    var last := c.before + OperandText(c.x);
    assert PlacedText(c) == last + c.after;
    AtSplit(s, i, last, c.after);
    FollowsBlanks(s, i + |last|, c.after);
    SpacedRead(t, s, i, c.before, c.x);
  }

  function PlacedText(c: All): string {
    c.before + (OperandText(c.x) + c.after)
  }

  lemma {:induction false} AllRead(t: Table, s: string, i: nat, c: All)
    requires AllFits(c) && At(s, i, AllText(c)) && FollowsOperand(s, i + |AllText(c)|, c.x)
    ensures EvalAnd(t, s, i) == AndTail(t, s, SkipBlanks(s, i + |AllText(c)|), AllValue(t, c))
    decreases c, 0
  {
    hide EvalAtom, EvalAnd, AndTail, At, OperandText, OperandFits, OperandValue, Follows, Blanks, SkipBlanks;
    if c.One? {
      PlacedRead(t, s, i, c);
      AndStart(t, s, i, EvalAtom(t, s, i).next, OperandValue(t, c.x));
    } else {
      var m := i + |AllText(c.l)|;
      AtSplit(s, i, AllText(c.l), "&&" + PlacedText(c));
      AtSplit(s, m, "&&", PlacedText(c));
      AtElement(s, m, "&&", 0);
      AtElement(s, m, "&&", 1);
      OperatorFollows(s, m);
      assert FollowsOperand(s, m, c.l.x);
      AllRead(t, s, i, c.l);
      PlacedRead(t, s, m + 2, c);
      AndStep(t, s, m, AllValue(t, c.l), EvalAtom(t, s, m + 2).next, OperandValue(t, c.x));
    }
  }

  lemma OperatorFollows(s: string, m: nat)
    requires Have(s, m, '&') || Have(s, m, '|') || Have(s, m, ')')
    ensures Follows(s, m) && SkipBlanks(s, m) == m
  {
  }

  lemma {:induction false} AnyRead(t: Table, s: string, i: nat, e: Any)
    requires AnyFits(e) && At(s, i, AnyText(e)) && Ended(s, i + |AnyText(e)|, e)
    ensures EvalExpr(t, s, i) == OrTail(t, s, SkipBlanks(s, i + |AnyText(e)|), AnyValue(t, e))
    decreases e, 0
  {
    hide EvalAnd, EvalExpr, AndTail, OrTail, At, AllText, AllFits, AllValue, Follows, SkipBlanks;
    var end := i + |AnyText(e)|;
    var k := SkipBlanks(s, end);
    SkippedTwice(s, end);
    if e.Single? {
      AllRead(t, s, i, e.c);
      AndDone(t, s, k, AllValue(t, e.c));
      OrStart(t, s, i, k, AllValue(t, e.c));
    } else {
      var m := i + |AnyText(e.l)|;
      AtSplit(s, i, AnyText(e.l), "||" + AllText(e.c));
      AtSplit(s, m, "||", AllText(e.c));
      AtElement(s, m, "||", 0);
      AtElement(s, m, "||", 1);
      OperatorFollows(s, m);
      assert Ended(s, m, e.l);
      AnyRead(t, s, i, e.l);
      AllRead(t, s, m + 2, e.c);
      AndDone(t, s, k, AllValue(t, e.c));
      OrStep(t, s, m, AnyValue(t, e.l), k, AllValue(t, e.c));
    }
  }

  lemma OrStart(t: Table, s: string, i: nat, e: nat, v: Int64)
    requires i <= e <= |s| && EvalAnd(t, s, i) == Read(v, e)
    ensures EvalExpr(t, s, i) == OrTail(t, s, SkipBlanks(s, e), v)
  {
    hide EvalAnd, OrTail;
  }

  /** What follows a chain of `||`: no operator that would be part of it but `||` itself. */
  predicate Ended(s: string, m: nat, e: Any) {
    FollowsOperand(s, m, e.c.x) && NoAnd(s, SkipBlanks(s, m))
  }

  /** A text with all its parentheses is read whole. */
  lemma ClosedTextRead(t: Table, e: Any)
    requires AnyFits(e)
    ensures EvalExpr(t, AnyText(e), 0) == Read(AnyValue(t, e), |AnyText(e)|)
  {
    hide AnyText, AnyValue, AnyFits, EvalExpr;
    assert At(AnyText(e), 0, AnyText(e));
    AnyRead(t, AnyText(e), 0, e);
  }
}
