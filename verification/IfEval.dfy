/** The `#if` evaluator, a cursor over the text of the line, and what the expressions it
    accepts mean. */
module IfEval {
  import opened Syntax
  import opened Seqs
  import opened Chars
  import opened Macros

  const LLONG_MAX: Int64 := 0x7FFF_FFFF_FFFF_FFFF
  const NAME_MAX: nat := 127

  /** A value and where the cursor stops. */
  datatype Read = Read(v: Int64, next: nat)

  // ----------------------------------------------------------------- integers

  function DigitsEnd(s: string, i: nat, base: nat): (j: nat)
    requires i <= |s|
    ensures i <= j <= |s|
    decreases |s| - i
  {
    if i < |s| && DigitValue(s[i]) < base then DigitsEnd(s, i + 1, base) else i
  }

  function Saturate(n: int): Int64 {
    if n > LLONG_MAX then LLONG_MAX else if n < -LLONG_MAX - 1 then -LLONG_MAX - 1 else n
  }

  /** Where the digits start, and in which base: `0x` with a hexadecimal digit after it is
      base 16, another leading `0` base 8. */
  function BaseAt(s: string, i: nat): (r: (nat, nat))
    requires i <= |s|
    ensures i <= r.0 <= |s|
  {
    if i + 2 < |s| && s[i] == '0' && (s[i + 1] == 'x' || s[i + 1] == 'X') && DigitValue(s[i + 2]) < 16 then (i + 2, 16)
    else if i < |s| && s[i] == '0' then (i, 8)
    else (i, 10)
  }

  function ReadUnsigned(s: string, i: nat): (r: (nat, nat))
    requires i <= |s|
    ensures i <= r.1 <= |s|
  {
    var (start, base) := BaseAt(s, i);
    var end := DigitsEnd(s, start, base);
    (NumberAt(s, start, end, base), end)
  }

  function SkipSpace(s: string, i: nat): (j: nat)
    requires i <= |s|
    ensures i <= j <= |s|
    decreases |s| - i
  {
    if i < |s| && (IsBlank(s[i]) || s[i] == '\n' || s[i] == '\r' || s[i] == '\U{0B}' || s[i] == '\U{0C}')
    then SkipSpace(s, i + 1) else i
  }

  /** The integer a macro body starts with, white space and a sign allowed; 0 if there is none. */
  function LeadingInt(s: string): Int64 {
    var i := SkipSpace(s, 0);
    if i < |s| && s[i] == '-' then
      var n: int := ReadUnsigned(s, i + 1).0;
      Saturate(-n)
    else if i < |s| && s[i] == '+' then Saturate(ReadUnsigned(s, i + 1).0)
    else Saturate(ReadUnsigned(s, i).0)
  }

  // ---------------------------------------------------------------- evaluation

  function Bool(b: bool): Int64 {
    if b then 1 else 0
  }

  function NameValue(t: Table, id: string): Int64 {
    var m := Find(t, id);
    if m.Some? && !m.value.isFunc then LeadingInt(m.value.body) else 0
  }

  /** After `defined`: a name, in parentheses or not. */
  function EvalDefined(t: Table, s: string, i: nat): (r: Read)
    requires i <= |s|
    ensures i <= r.next <= |s|
  {
    var j := SkipBlanks(s, i);
    var paren := Have(s, j, '(');
    var start := if paren then SkipBlanks(s, j + 1) else j;
    var end := WordEndWithin(s, start, NAME_MAX);
    var k := SkipBlanks(s, end);
    Read(Bool(Find(t, s[start..end]).Some?), if paren && Have(s, k, ')') then k + 1 else k)
  }

  function EvalAtom(t: Table, s: string, i: nat): (r: Read)
    requires i <= |s|
    ensures i <= r.next <= |s|
    decreases |s| - i, 0
  {
    var j := SkipBlanks(s, i);
    if Have(s, j, '!') then
      var x := EvalAtom(t, s, j + 1);
      Read(Bool(x.v == 0), x.next)
    else if Have(s, j, '(') then
      var x := EvalExpr(t, s, j + 1);
      var k := SkipBlanks(s, x.next);
      Read(x.v, if Have(s, k, ')') then k + 1 else k)
    else if j < |s| && IsDigit(s[j]) then
      var n := ReadUnsigned(s, j);
      Read(Saturate(n.0), n.1)
    else if j < |s| && IsIdStart(s[j]) then
      var end := WordEndWithin(s, j, NAME_MAX);
      if s[j..end] == "defined" then EvalDefined(t, s, end) else Read(NameValue(t, s[j..end]), end)
    else Read(0, j)
  }

  function EvalAnd(t: Table, s: string, i: nat): (r: Read)
    requires i <= |s|
    ensures i <= r.next <= |s|
    decreases |s| - i, 1
  {
    var x := EvalAtom(t, s, i);
    AndTail(t, s, SkipBlanks(s, x.next), x.v)
  }

  function AndTail(t: Table, s: string, i: nat, v: Int64): (r: Read)
    requires i <= |s|
    ensures i <= r.next <= |s|
    decreases |s| - i, 0
  {
    if Have(s, i, '&') && Have(s, i + 1, '&') then
      var x := EvalAtom(t, s, i + 2);
      AndTail(t, s, SkipBlanks(s, x.next), Bool(v != 0 && x.v != 0))
    else Read(v, i)
  }

  /** The value of the text from `i` on, up to the first thing that is not part of it. */
  function EvalExpr(t: Table, s: string, i: nat): (r: Read)
    requires i <= |s|
    ensures i <= r.next <= |s|
    decreases |s| - i, 2
  {
    var x := EvalAnd(t, s, i);
    OrTail(t, s, SkipBlanks(s, x.next), x.v)
  }

  function OrTail(t: Table, s: string, i: nat, v: Int64): (r: Read)
    requires i <= |s|
    ensures i <= r.next <= |s|
    decreases |s| - i, 0
  {
    if Have(s, i, '|') && Have(s, i + 1, '|') then
      var x := EvalAnd(t, s, i + 2);
      OrTail(t, s, SkipBlanks(s, x.next), Bool(v != 0 || x.v != 0))
    else Read(v, i)
  }

  // ------------------------------------------------------- expressions as trees

  datatype Cond =
    | Num(digits: string)
    | Name(id: string)
    | Defined(id: string)
    | Not(c: Cond)
    | And(l: Cond, r: Cond)
    | Or(l: Cond, r: Cond)

  /** A numeral is hexadecimal after `0x`, octal after another leading `0`, else decimal. */
  function NumeralBase(ds: string): (base: nat)
    ensures base == 8 || base == 10 || base == 16
  {
    if |ds| > 2 && ds[0] == '0' && (ds[1] == 'x' || ds[1] == 'X') then 16
    else if |ds| > 0 && ds[0] == '0' then 8
    else 10
  }

  function NumeralStart(ds: string): (start: nat)
    ensures start <= |ds|
  {
    if NumeralBase(ds) == 16 then 2 else 0
  }

  predicate Numeral(ds: string) {
    ds != "" && IsDigit(ds[0]) && forall k :: NumeralStart(ds) <= k < |ds| ==> DigitValue(ds[k]) < NumeralBase(ds)
  }

  function NumeralValue(ds: string): nat {
    NumberAt(ds, NumeralStart(ds), |ds|, NumeralBase(ds))
  }

  /** Numerals, and names that fit the buffer; `defined` is not a name. */
  predicate Printable(c: Cond) {
    match c
    case Num(ds) => Numeral(ds)
    case Name(id) => IsWord(id) && |id| <= NAME_MAX && id != "defined"
    case Defined(id) => IsWord(id) && |id| <= NAME_MAX
    case Not(x) => Printable(x)
    case And(l, r) => Printable(l) && Printable(r)
    case Or(l, r) => Printable(l) && Printable(r)
  }

  /** What the condition means under a macro table. */
  function Denote(t: Table, c: Cond): Int64 {
    match c
    case Num(ds) => Saturate(NumeralValue(ds))
    case Name(id) => NameValue(t, id)
    case Defined(id) => if Find(t, id).Some? then 1 else 0
    case Not(x) => if Denote(t, x) == 0 then 1 else 0
    case And(l, r) => if Denote(t, l) != 0 && Denote(t, r) != 0 then 1 else 0
    case Or(l, r) => if Denote(t, l) != 0 || Denote(t, r) != 0 then 1 else 0
  }

  /** Precedence: 0 for `||`, 1 for `&&`, 2 for the rest. */
  function Level(c: Cond): nat {
    if c.Or? then 0 else if c.And? then 1 else 2
  }

  /** The text of `c` where an expression of level `k` is expected, with parentheses only
      where they are needed. */
  function Print(c: Cond, k: nat): string
    decreases c, if Level(c) < k then 1 else 0
  {
    if Level(c) < k then "(" + (Print(c, 0) + ")")
    else match c
      case Num(ds) => ds
      case Name(id) => id
      case Defined(id) => "defined" + ("(" + (id + ")"))
      case Not(x) => "!" + Print(x, 2)
      case And(l, r) => Print(l, 1) + ("&&" + Print(r, 2))
      case Or(l, r) => Print(l, 0) + ("||" + Print(r, 1))
  }

  // ----------------------------------------------------- evaluation undoes printing

  /** What may follow an operand: anything that cannot be more of its last word or numeral. */
  predicate Ends(s: string, e: nat) {
    e <= |s| && (e == |s| || !IsIdCont(s[e]) || (e > 0 && s[e - 1] == ')'))
  }

  predicate NoAnd(s: string, e: nat) {
    !(Have(s, e, '&') && Have(s, e + 1, '&'))
  }

  predicate NoOr(s: string, e: nat) {
    !(Have(s, e, '|') && Have(s, e + 1, '|'))
  }

  lemma {:induction false} DigitsMoved(s: string, i: nat, ds: string, j: nat, k: nat, base: nat)
    requires At(s, i, ds) && j <= k <= |ds|
    ensures NumberAt(s, i + j, i + k, base) == NumberAt(ds, j, k, base)
    decreases k - j
  {
    if k > j {
      AtElement(s, i, ds, k - 1);
      DigitsMoved(s, i, ds, j, k - 1, base);
    }
  }

  lemma NumeralBaseAt(s: string, i: nat, ds: string)
    requires At(s, i, ds) && Ends(s, i + |ds|) && Numeral(ds)
    ensures BaseAt(s, i) == (i + NumeralStart(ds), NumeralBase(ds))
  {
    AtElements(s, i, ds);
    if |ds| == 1 {
      assert i + 1 < |s| ==> !IsIdCont(s[i + 1]);
    } else if |ds| == 2 {
      assert ds[0] == '0' ==> DigitValue(ds[1]) < 8;
    }
  }

  /** A numeral is read whole, whatever its base. */
  lemma NumberRead(s: string, i: nat, ds: string)
    requires At(s, i, ds) && Ends(s, i + |ds|) && Numeral(ds)
    ensures ReadUnsigned(s, i) == (NumeralValue(ds), i + |ds|)
  {
    hide DigitsEnd, BaseAt, NumberAt;
    var start, base := NumeralStart(ds), NumeralBase(ds);
    NumeralBaseAt(s, i, ds);
    AtElements(s, i, ds);
    NumeralLast(ds);
    DigitsEndAt(s, i + start, i + |ds|, base);
    DigitsMoved(s, i, ds, start, |ds|, base);
  }

  lemma NumeralLast(ds: string)
    requires Numeral(ds)
    ensures DigitValue(ds[|ds| - 1]) < 16
  {
  }

  lemma {:induction false} DigitsEndAt(s: string, i: nat, j: nat, base: nat)
    requires i <= j <= |s| && base <= 16
    requires forall k :: i <= k < j ==> DigitValue(s[k]) < base
    requires Ends(s, j) && j > 0 && DigitValue(s[j - 1]) < 16
    ensures DigitsEnd(s, i, base) == j
    decreases j - i
  {
    if i < j { DigitsEndAt(s, i + 1, j, base); }
  }

  /** A name that fits the buffer is read whole. */
  lemma WordRead(s: string, i: nat, id: string)
    requires At(s, i, id) && IsWord(id) && |id| <= NAME_MAX
    requires i + |id| < |s| ==> !IsIdCont(s[i + |id|])
    ensures WordEndWithin(s, i, NAME_MAX) == i + |id| && s[i..i + |id|] == id
    ensures IsIdStart(s[i])
  {
    forall k | i <= k < i + |id|
      ensures s[k] == id[k - i] && IsIdCont(s[k])
    {
      AtElement(s, i, id, k - i);
    }
    WordEndAt(s, i, i + |id|);
  }

  lemma NoBlanks(s: string, i: nat)
    requires i < |s| && !IsBlank(s[i])
    ensures SkipBlanks(s, i) == i
  {
  }

  lemma DefinedNameRead(t: Table, s: string, i: nat, id: string)
    requires At(s, i, "(" + (id + ")")) && IsWord(id) && |id| <= NAME_MAX
    ensures EvalDefined(t, s, i) == Read(Bool(Find(t, id).Some?), i + |id| + 2)
  {
    hide Find, WordEndWithin, IsWord, At, SkipBlanks;
    AtSplit(s, i, "(", id + ")");
    AtSplit(s, i + 1, id, ")");
    AtElement(s, i, "(", 0);
    AtElement(s, i + 1 + |id|, ")", 0);
    WordRead(s, i + 1, id);
    NoBlanks(s, i);
    NoBlanks(s, i + 1);
    NoBlanks(s, i + 1 + |id|);
  }

  lemma DefinedRead(t: Table, s: string, i: nat, id: string)
    requires At(s, i, "defined" + ("(" + (id + ")"))) && IsWord(id) && |id| <= NAME_MAX
    ensures EvalAtom(t, s, i) == Read(Denote(t, Defined(id)), i + |id| + 9)
  {
    hide Find, WordEndWithin, EvalDefined;
    AtSplit(s, i, "defined", "(" + (id + ")"));
    AtElement(s, i, "defined", 0);
    AtElement(s, i + 7, "(" + (id + ")"), 0);
    WordRead(s, i, "defined");
    DefinedNameRead(t, s, i + 7, id);
    assert SkipBlanks(s, i) == i;
  }

  lemma OrDone(t: Table, s: string, e: nat, v: Int64)
    requires Have(s, e, ')')
    ensures OrTail(t, s, e, v) == Read(v, e)
  {
  }

  lemma ParenPrinted(c: Cond)
    requires Level(c) < 2
    ensures Print(c, 2) == "(" + (Print(c, 0) + ")")
    ensures |Print(c, 2)| == |Print(c, 0)| + 2
  {
  }

  lemma {:induction false} ParenRead(t: Table, s: string, i: nat, c: Cond)
    requires Printable(c) && Level(c) < 2 && At(s, i, Print(c, 2))
    ensures EvalAtom(t, s, i) == Read(Denote(t, c), i + |Print(c, 2)|)
    decreases c, 5
  {
    hide Denote, Printable, OrTail, Print, At, EvalExpr;
    ParenPrinted(c);
    var inner := Print(c, 0);
    AtSplit(s, i, "(", inner + ")");
    AtSplit(s, i + 1, inner, ")");
    AtElement(s, i, "(", 0);
    AtElement(s, i + 1 + |inner|, ")", 0);
    ExprRead(t, s, i + 1, c);
    OrDone(t, s, i + 1 + |inner|, Denote(t, c));
  }

  lemma {:induction false} NotRead(t: Table, s: string, i: nat, c: Cond)
    requires Printable(c) && c.Not? && At(s, i, Print(c, 2)) && Ends(s, i + |Print(c, 2)|)
    ensures EvalAtom(t, s, i) == Read(Denote(t, c), i + |Print(c, 2)|)
    decreases c, 0
  {
    hide At, Ends, EvalExpr, EvalDefined, ReadUnsigned, WordEndWithin, NameValue;
    AtSplit(s, i, "!", Print(c.c, 2));
    AtElement(s, i, "!", 0);
    NoBlanks(s, i);
    AtomRead(t, s, i + 1, c.c);
  }

  /** An operand printed at `i` is read to its end. */
  lemma {:induction false} AtomRead(t: Table, s: string, i: nat, c: Cond)
    requires Printable(c) && At(s, i, Print(c, 2)) && Ends(s, i + |Print(c, 2)|)
    ensures EvalAtom(t, s, i) == Read(Denote(t, c), i + |Print(c, 2)|)
    decreases c, if Level(c) < 2 then 6 else 1
  {
    hide NameValue, NumberAt, Find, ReadUnsigned, WordEndWithin, EvalDefined;
    if Level(c) < 2 {
      ParenRead(t, s, i, c);
    } else {
      match c
      case Num(ds) =>
        AtElement(s, i, ds, 0);
        NumberRead(s, i, ds);
      case Name(id) =>
        AtElement(s, i, id, 0);
        WordRead(s, i, id);
      case Defined(id) => DefinedRead(t, s, i, id);
      case Not(_) => NotRead(t, s, i, c);
    }
  }

  lemma {:induction false} ChainRead(t: Table, s: string, i: nat, c: Cond)
    requires Printable(c) && c.And? && At(s, i, Print(c, 1)) && Ends(s, i + |Print(c, 1)|)
    ensures EvalAnd(t, s, i) == AndTail(t, s, SkipBlanks(s, i + |Print(c, 1)|), Denote(t, c))
    decreases c, 1
  {
    hide EvalAtom, EvalAnd, AndTail, NameValue, NumberAt, Find, At, SkipBlanks;
    var l, r := Print(c.l, 1), Print(c.r, 2);
    AtSplit(s, i, l, "&&" + r);
    AtSplit(s, i + |l|, "&&", r);
    AtElement(s, i + |l|, "&&", 0);
    AtElement(s, i + |l|, "&&", 1);
    NoBlanks(s, i + |l|);
    AndRead(t, s, i, c.l);
    AtomRead(t, s, i + |l| + 2, c.r);
    AndStep(t, s, i + |l|, Denote(t, c.l), i + |Print(c, 1)|, Denote(t, c.r));
  }

  lemma AndStep(t: Table, s: string, m: nat, v: Int64, e: nat, w: Int64)
    requires Have(s, m, '&') && Have(s, m + 1, '&') && e <= |s|
    requires EvalAtom(t, s, m + 2) == Read(w, e)
    ensures AndTail(t, s, m, v) == AndTail(t, s, SkipBlanks(s, e), Bool(v != 0 && w != 0))
  {
    hide EvalAtom;
  }

  lemma AndStart(t: Table, s: string, i: nat, e: nat, v: Int64)
    requires i <= e <= |s| && EvalAtom(t, s, i) == Read(v, e)
    ensures EvalAnd(t, s, i) == AndTail(t, s, SkipBlanks(s, e), v)
  {
    hide EvalAtom, AndTail;
  }

  /** After a printed `&&` chain the evaluator is about to look for more of it. */
  lemma {:induction false} AndRead(t: Table, s: string, i: nat, c: Cond)
    requires Printable(c) && At(s, i, Print(c, 1)) && Ends(s, i + |Print(c, 1)|)
    ensures EvalAnd(t, s, i) == AndTail(t, s, SkipBlanks(s, i + |Print(c, 1)|), Denote(t, c))
    decreases c, if c.Or? then 7 else 2
  {
    hide EvalAtom, EvalAnd, AndTail, Denote, Printable, At, SkipBlanks;
    if c.And? {
      ChainRead(t, s, i, c);
    } else {
      assert Print(c, 1) == Print(c, 2);
      AtomRead(t, s, i, c);
      AndStart(t, s, i, i + |Print(c, 1)|, Denote(t, c));
    }
  }

  lemma {:induction false} OrRead(t: Table, s: string, i: nat, c: Cond)
    requires Printable(c) && c.Or? && At(s, i, Print(c, 0))
    requires Ends(s, i + |Print(c, 0)|) && NoAnd(s, SkipBlanks(s, i + |Print(c, 0)|))
    ensures EvalExpr(t, s, i) == OrTail(t, s, SkipBlanks(s, i + |Print(c, 0)|), Denote(t, c))
    decreases c, 3
  {
    hide EvalAnd, EvalExpr, AndTail, OrTail, NameValue, NumberAt, Find, At, SkipBlanks;
    var l, r := Print(c.l, 0), Print(c.r, 1);
    var m := i + |l|;
    var e := SkipBlanks(s, m + 2 + |r|);
    AtSplit(s, i, l, "||" + r);
    AtSplit(s, m, "||", r);
    AtElement(s, m, "||", 0);
    AtElement(s, m, "||", 1);
    NoBlanks(s, m);
    ExprRead(t, s, i, c.l);
    AndRead(t, s, m + 2, c.r);
    AndDone(t, s, e, Denote(t, c.r));
    OrStep(t, s, m, Denote(t, c.l), e, Denote(t, c.r));
    SkippedTwice(s, m + 2 + |r|);
  }

  lemma OrStep(t: Table, s: string, m: nat, v: Int64, e: nat, w: Int64)
    requires Have(s, m, '|') && Have(s, m + 1, '|') && e <= |s|
    requires EvalAnd(t, s, m + 2) == Read(w, e)
    ensures OrTail(t, s, m, v) == OrTail(t, s, SkipBlanks(s, e), Bool(v != 0 || w != 0))
  {
    hide EvalAnd;
  }

  lemma AndDone(t: Table, s: string, e: nat, v: Int64)
    requires e <= |s| && NoAnd(s, e)
    ensures AndTail(t, s, e, v) == Read(v, e)
  {
  }

  lemma SkippedTwice(s: string, e: nat)
    requires e <= |s|
    ensures SkipBlanks(s, SkipBlanks(s, e)) == SkipBlanks(s, e)
  {
  }

  /** The same for `||` chains. */
  lemma {:induction false} ExprRead(t: Table, s: string, i: nat, c: Cond)
    requires Printable(c) && At(s, i, Print(c, 0)) && Ends(s, i + |Print(c, 0)|)
    requires NoAnd(s, SkipBlanks(s, i + |Print(c, 0)|))
    ensures EvalExpr(t, s, i) == OrTail(t, s, SkipBlanks(s, i + |Print(c, 0)|), Denote(t, c))
    decreases c, 4
  {
    hide EvalAnd, AndTail, Denote, Printable, SkipBlanks;
    if c.Or? {
      OrRead(t, s, i, c);
    } else {
      var e := i + |Print(c, 0)|;
      assert Print(c, 0) == Print(c, 1);
      AndRead(t, s, i, c);
      AndDone(t, s, SkipBlanks(s, e), Denote(t, c));
      SkippedTwice(s, e);
    }
  }

  /** Text after an expression that is no more of it: it goes on no word or numeral, and the
      first thing in it that is not blank is no operator of the evaluator. */
  predicate CannotContinue(text: string, tail: string) {
    && Ends(text + tail, |text|)
    && NoAnd(tail, SkipBlanks(tail, 0))
    && NoOr(tail, SkipBlanks(tail, 0))
  }

  lemma {:induction false} BlanksMoved(text: string, tail: string, k: nat)
    requires k <= |tail|
    ensures SkipBlanks(text + tail, |text| + k) == |text| + SkipBlanks(tail, k)
    decreases |tail| - k
  {
    assert k < |tail| ==> (text + tail)[|text| + k] == tail[k];
    if k < |tail| && IsBlank(tail[k]) { BlanksMoved(text, tail, k + 1); }
  }

  /** Evaluating the printed text of an expression gives its meaning under the macro table,
      whatever follows that cannot continue it, and the cursor stops at the first thing
      there that is not blank: an `==`, which the evaluator does not know, is ignored with
      all that comes after it. */
  lemma EqualityIgnored(t: Table, c: Cond, tail: string)
    requires Printable(c) && CannotContinue(Print(c, 0), tail)
    ensures EvalExpr(t, Print(c, 0) + tail, 0) == Read(Denote(t, c), |Print(c, 0)| + SkipBlanks(tail, 0))
  {
    hide Print, Denote, Printable, EvalExpr, CannotContinue, OrTail;
    var text := Print(c, 0);
    var s := text + tail;
    assert At(s, 0, text);
    TailEnds(text, tail);
    ExprRead(t, s, 0, c);
    OrEnds(t, s, |text| + SkipBlanks(tail, 0), Denote(t, c));
  }

  lemma TailEnds(text: string, tail: string)
    requires CannotContinue(text, tail)
    ensures var s, k := text + tail, |text| + SkipBlanks(tail, 0);
      Ends(s, |text|) && SkipBlanks(s, |text|) == k <= |s| && NoAnd(s, k) && NoOr(s, k)
  {
    hide SkipBlanks, Ends;
    BlanksMoved(text, tail, 0);
  }

  lemma OrEnds(t: Table, s: string, e: nat, v: Int64)
    requires e <= |s| && NoOr(s, e)
    ensures OrTail(t, s, e, v) == Read(v, e)
  {
  }

  /** With nothing after it the cursor is left at the end. */
  lemma EvalUndoesPrint(t: Table, c: Cond)
    requires Printable(c)
    ensures EvalExpr(t, Print(c, 0), 0) == Read(Denote(t, c), |Print(c, 0)|)
  {
    hide Print, Denote, Printable, EvalExpr;
    assert Print(c, 0) + "" == Print(c, 0);
    EqualityIgnored(t, c, "");
  }

  /** For example, `1 == 2` is just `1`, and the cursor stays before the rest. */
  lemma EqualityExample(t: Table)
    ensures EvalExpr(t, "1 == 2", 0) == Read(1, 2)
  {
    var c, tail := Num("1"), " == 2";
    assert NumberAt("1", 0, 1, 10) == 1 && SkipBlanks(tail, 0) == 1;
    assert Print(c, 0) == "1" && "1" + tail == "1 == 2";
    EqualityIgnored(t, c, tail);
  }
}
