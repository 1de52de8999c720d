/** Numbers as the `#if` evaluator reads them, from the C notation they are written in. */
module IfNumbers {
  import opened Syntax
  import opened Seqs
  import opened Chars
  import opened Macros
  import opened IfEval

  /** A number by the values of its digits: decimal, octal after a `0`, or hexadecimal after
      `0x` or `0X`, whose digits above 9 may be capitals. */
  datatype Notation = Decimal | Octal | Hex(prefix: char, capitals: bool)

  type Digit = d: nat | d < 16

  function BaseOf(k: Notation): nat {
    match k
    case Decimal => 10
    case Octal => 8
    case Hex(_, _) => 16
  }

  function DigitText(k: Notation, d: Digit): char {
    if k.Hex? && k.capitals then "0123456789ABCDEF"[d] else "0123456789abcdef"[d]
  }

  predicate DigitsOk(k: Notation, ds: seq<Digit>) {
    && (forall i :: 0 <= i < |ds| ==> ds[i] < BaseOf(k))
    && match k
       case Decimal => ds != [] && ds[0] != 0
       case Octal => true
       case Hex(prefix, _) => ds != [] && (prefix == 'x' || prefix == 'X')
  }

  function DigitsText(k: Notation, ds: seq<Digit>): (r: string)
    ensures |r| == |ds|
    ensures forall i :: 0 <= i < |ds| ==> r[i] == DigitText(k, ds[i])
  {
    seq(|ds|, i requires 0 <= i < |ds| => DigitText(k, ds[i]))
  }

  function NumberText(k: Notation, ds: seq<Digit>): string {
    match k
    case Decimal => DigitsText(k, ds)
    case Octal => "0" + DigitsText(k, ds)
    case Hex(prefix, _) => ['0', prefix] + DigitsText(k, ds)
  }

  function Power(base: nat, n: nat): nat {
    if n == 0 then 1 else base * Power(base, n - 1)
  }

  /** Each digit counts for its place. */
  function Worth(ds: seq<nat>, base: nat): nat {
    if ds == [] then 0 else ds[0] * Power(base, |ds| - 1) + Worth(ds[1..], base)
  }

  /** What may follow the number: no further digit of it, and after a lone `0` no `x` with a
      hexadecimal digit. */
  predicate Stops(k: Notation, ds: seq<Digit>, rest: string) {
    && (rest == "" || DigitValue(rest[0]) >= BaseOf(k))
    && (k.Octal? && ds == [] && |rest| >= 2 && (rest[0] == 'x' || rest[0] == 'X') ==> DigitValue(rest[1]) == 16)
  }

  lemma {:induction false} WorthLast(ds: seq<nat>, base: nat)
    requires ds != []
    ensures Worth(ds, base) == Worth(ds[..|ds| - 1], base) * base + ds[|ds| - 1]
    decreases |ds|
  {
    var n := |ds| - 1;
    if n == 0 {
      assert ds[1..] == [] && ds[..0] == [];
    } else {
      WorthLast(ds[1..], base);
      assert ds[1..][..n - 1] == ds[..n][1..];
      var low := Worth(ds[..n][1..], base);
      assert Worth(ds[..n], base) == ds[0] * Power(base, n - 1) + low;
      Distribute(ds[0], Power(base, n - 1), low, base);
    }
  }

  lemma Distribute(d: nat, p: nat, low: nat, base: nat)
    ensures (d * p + low) * base == d * (base * p) + low * base
  {
  }

  predicate DigitsFit(k: Notation, ds: seq<Digit>) {
    forall i :: 0 <= i < |ds| ==> ds[i] < BaseOf(k)
  }

  lemma DigitWorth(k: Notation, d: Digit)
    ensures DigitValue(DigitText(k, d)) == d
  {
    DigitsSpelled(DigitText(k, d), d);
  }

  lemma LastDigit(s: string, i: nat, j: nat, base: nat)
    requires i < j <= |s|
    ensures NumberAt(s, i, j, base) == NumberAt(s, i, j - 1, base) * base + DigitValue(s[j - 1])
  {
    hide DigitValue;
  }

  /** The text without its last digit, and that digit. */
  lemma DigitsCut(k: Notation, ds: seq<Digit>)
    requires ds != [] && DigitsFit(k, ds)
    ensures var n := |ds| - 1;
      DigitsFit(k, ds[..n]) && DigitsText(k, ds) == DigitsText(k, ds[..n]) + [DigitText(k, ds[n])]
  {
    hide DigitText;
    var n := |ds| - 1;
    assert DigitsText(k, ds)[..n] == DigitsText(k, ds[..n]);
  }

  /** The digits from `i` on are worth what they are worth. */
  lemma {:induction false} NumberWorth(s: string, i: nat, k: Notation, ds: seq<Digit>)
    requires DigitsFit(k, ds) && At(s, i, DigitsText(k, ds))
    ensures NumberAt(s, i, i + |ds|, BaseOf(k)) == Worth(ds, BaseOf(k))
    decreases |ds|
  {
    hide DigitValue, DigitText, DigitsText, Worth, BaseOf, NumberAt;
    if ds == [] {
      NoDigits(s, i, BaseOf(k));
    } else {
      var n := |ds| - 1;
      DigitsCut(k, ds);
      var last := DigitText(k, ds[n]);
      AtSplit(s, i, DigitsText(k, ds[..n]), [last]);
      AtElement(s, i + n, [last], 0);
      NumberWorth(s, i, k, ds[..n]);
      WorthLast(ds, BaseOf(k));
      DigitWorth(k, ds[n]);
      LastDigit(s, i, i + |ds|, BaseOf(k));
    }
  }

  lemma NoDigits(s: string, i: nat, base: nat)
    requires i <= |s|
    ensures NumberAt(s, i, i, base) == 0 && Worth([], base) == 0
  {
  }


  // ------------------------------------------------------------------ reading

  lemma {:induction false} DigitsRun(s: string, i: nat, j: nat, base: nat)
    requires i <= j <= |s| && (forall k :: i <= k < j ==> DigitValue(s[k]) < base)
    requires j < |s| ==> DigitValue(s[j]) >= base
    ensures DigitsEnd(s, i, base) == j
    decreases j - i
  {
    hide DigitValue;
    if i < j { DigitsRun(s, i + 1, j, base); }
  }

  /** The digits at `i`, and what ends them. */
  lemma DigitsRead(s: string, i: nat, k: Notation, ds: seq<Digit>, rest: string)
    requires DigitsFit(k, ds) && i <= |s| && s[i..] == DigitsText(k, ds) + rest
    requires rest == "" || DigitValue(rest[0]) >= BaseOf(k)
    ensures DigitsEnd(s, i, BaseOf(k)) == i + |ds| <= |s|
    ensures NumberAt(s, i, i + |ds|, BaseOf(k)) == Worth(ds, BaseOf(k))
  {
    hide DigitValue, DigitText, NumberAt, Worth, BaseOf, DigitsEnd;
    var text := DigitsText(k, ds);
    assert s[i..][..|ds|] == text;
    assert At(s, i, text);
    forall j | i <= j < i + |ds| ensures DigitValue(s[j]) < BaseOf(k) {
      AtElement(s, i, text, j - i);
      DigitWorth(k, ds[j - i]);
    }
    if rest != "" { assert s[i..][|ds|] == rest[0]; }
    DigitsRun(s, i, i + |ds|, BaseOf(k));
    NumberWorth(s, i, k, ds);
  }

  lemma ReadStep(s: string, i: nat, start: nat, base: nat, end: nat, n: nat)
    requires i <= |s| && BaseAt(s, i) == (start, base) && DigitsEnd(s, start, base) == end
    requires NumberAt(s, start, end, base) == n
    ensures ReadUnsigned(s, i) == (n, end)
  {
    hide BaseAt, DigitsEnd, NumberAt;
  }

  /** A number is read whole, and is worth what its digits are worth. */
  lemma UnsignedRead(s: string, i: nat, k: Notation, ds: seq<Digit>, rest: string)
    requires DigitsOk(k, ds) && i <= |s| && s[i..] == NumberText(k, ds) + rest && Stops(k, ds, rest)
    ensures ReadUnsigned(s, i) == (Worth(ds, BaseOf(k)), i + |NumberText(k, ds)|)
  {
    hide DigitText, Worth, DigitsOk, Stops, ReadUnsigned, DigitsText;
    match k
    case Decimal => DecimalRead(s, i, ds, rest);
    case Octal => OctalRead(s, i, ds, rest);
    case Hex(prefix, _) =>
      assert (['0', prefix] + DigitsText(k, ds)) + rest == ['0', prefix] + (DigitsText(k, ds) + rest);
      HexRead(s, i, k, ds, rest);
  }

  lemma DecimalRead(s: string, i: nat, ds: seq<Digit>, rest: string)
    requires DigitsOk(Decimal, ds) && i <= |s| && s[i..] == DigitsText(Decimal, ds) + rest && Stops(Decimal, ds, rest)
    ensures ReadUnsigned(s, i) == (Worth(ds, 10), i + |ds|)
  {
    hide DigitText, NumberAt, Worth, DigitsEnd, BaseAt, DigitValue, Stops, ReadUnsigned, DigitsText;
    StopsHere(Decimal, ds, rest);
    DecimalBase(s, i, ds, rest);
    DigitsRead(s, i, Decimal, ds, rest);
    ReadStep(s, i, i, 10, i + |ds|, Worth(ds, 10));
  }

  lemma HexRead(s: string, i: nat, k: Notation, ds: seq<Digit>, rest: string)
    requires k.Hex? && DigitsOk(k, ds) && i <= |s|
    requires s[i..] == ['0', k.prefix] + (DigitsText(k, ds) + rest) && Stops(k, ds, rest)
    ensures ReadUnsigned(s, i) == (Worth(ds, 16), i + 2 + |ds|)
  {
    hide DigitText, NumberAt, Worth, DigitsEnd, BaseAt, DigitValue, Stops, ReadUnsigned, DigitsText;
    StopsHere(k, ds, rest);
    HexBase(s, i, k, ds, rest);
    Dropped(s, i, ['0', k.prefix], DigitsText(k, ds) + rest);
    DigitsRead(s, i + 2, k, ds, rest);
    ReadStep(s, i, i + 2, 16, i + 2 + |ds|, Worth(ds, 16));
  }

  lemma OctalRead(s: string, i: nat, ds: seq<Digit>, rest: string)
    requires DigitsOk(Octal, ds) && i <= |s| && s[i..] == ("0" + DigitsText(Octal, ds)) + rest && Stops(Octal, ds, rest)
    ensures ReadUnsigned(s, i) == (Worth(ds, 8), i + 1 + |ds|)
  {
    hide DigitText, NumberAt, Worth, DigitsEnd, BaseAt, DigitValue, Stops, ReadUnsigned, DigitsText;
    StopsHere(Octal, ds, rest);
    OctalBase(s, i, ds, rest);
    ZeroFirst(ds);
    DigitsRead(s, i, Octal, [0] + ds, rest);
    ReadStep(s, i, i, 8, i + 1 + |ds|, Worth(ds, 8));
  }

  lemma StopsHere(k: Notation, ds: seq<Digit>, rest: string)
    requires Stops(k, ds, rest)
    ensures rest == "" || DigitValue(rest[0]) >= BaseOf(k)
  {
  }

  lemma DecimalBase(s: string, i: nat, ds: seq<Digit>, rest: string)
    requires DigitsOk(Decimal, ds) && i <= |s| && s[i..] == DigitsText(Decimal, ds) + rest
    ensures BaseAt(s, i) == (i, 10)
  {
    hide DigitText, DigitValue;
    assert s[i..][0] == DigitText(Decimal, ds[0]);
    DigitWorth(Decimal, ds[0]);
    DigitsSpelled('0', 0);
    assert s[i] != '0';
  }

  lemma OctalBase(s: string, i: nat, ds: seq<Digit>, rest: string)
    requires DigitsOk(Octal, ds) && i <= |s| && s[i..] == ("0" + DigitsText(Octal, ds)) + rest && Stops(Octal, ds, rest)
    ensures BaseAt(s, i) == (i, 8)
  {
    hide DigitText;
    assert s[i..][0] == '0';
    if i + 2 < |s| {
      assert s[i..][1] == s[i + 1] && s[i..][2] == s[i + 2];
      if ds != [] {
        assert s[i + 1] == DigitText(Octal, ds[0]);
        DigitWorth(Octal, ds[0]);
      } else {
        assert s[i + 1] == rest[0] && s[i + 2] == rest[1];
      }
    }
  }

  lemma HexBase(s: string, i: nat, k: Notation, ds: seq<Digit>, rest: string)
    requires k.Hex? && DigitsOk(k, ds) && i <= |s| && s[i..] == ['0', k.prefix] + (DigitsText(k, ds) + rest)
    ensures BaseAt(s, i) == (i + 2, 16)
  {
    hide DigitText, DigitValue;
    assert s[i..][0] == '0' && s[i..][1] == k.prefix && s[i..][2] == DigitText(k, ds[0]);
    DigitWorth(k, ds[0]);
  }

  /** A `0` in front counts for nothing. */
  lemma ZeroFirst(ds: seq<Digit>)
    requires DigitsOk(Octal, ds)
    ensures Worth([0] + ds, 8) == Worth(ds, 8) && DigitsFit(Octal, [0] + ds)
    ensures DigitsText(Octal, [0] + ds) == "0" + DigitsText(Octal, ds)
  {
    assert ([0] + ds)[1..] == ds;
  }

  // ------------------------------------------------------------------ the value of a name

  predicate Spaces(b: string) {
    forall k :: 0 <= k < |b| ==> b[k] in [' ', '\t', '\n', '\r', '\U{0B}', '\U{0C}']
  }

  /** As near to `n` as a 64-bit integer gets. */
  function Clamped(n: int): int {
    if n < -9223372036854775808 then -9223372036854775808
    else if n > 9223372036854775807 then 9223372036854775807
    else n
  }

  datatype Sign = Unsigned | Plus | Minus

  function SignText(sign: Sign): string {
    match sign
    case Unsigned => ""
    case Plus => "+"
    case Minus => "-"
  }

  lemma {:induction false} SpacesSkipped(s: string, i: nat, b: string, rest: string)
    requires i <= |s| && s[i..] == b + rest && Spaces(b) && (rest == "" || !Spaces([rest[0]]))
    ensures SkipSpace(s, i) == i + |b|
    decreases |b|
  {
    if b == "" {
      if rest != "" { assert s[i..][0] == rest[0]; }
    } else {
      assert s[i..][0] == b[0];
      assert s[i + 1..] == s[i..][1..] == b[1..] + rest;
      SpacesSkipped(s, i + 1, b[1..], rest);
    }
  }

  /** The body of a macro that starts with a number is worth that number. */
  lemma LeadingNumber(b: string, sign: Sign, k: Notation, ds: seq<Digit>, rest: string)
    requires Spaces(b) && DigitsOk(k, ds) && Stops(k, ds, rest)
    ensures LeadingInt(b + (SignText(sign) + (NumberText(k, ds) + rest)))
      == Clamped(if sign.Minus? then -(Worth(ds, BaseOf(k)) as int) else Worth(ds, BaseOf(k)))
  {
    hide ReadUnsigned, SkipSpace, Worth, NumberText, Stops, Spaces;
    var number := NumberText(k, ds) + rest;
    var s := b + (SignText(sign) + number);
    assert s[0..] == s;
    NumberFirst(k, ds, rest);
    SignFirst(sign, number);
    SpacesSkipped(s, 0, b, SignText(sign) + number);
    var i := |b| + |SignText(sign)|;
    assert s[|b|..] == SignText(sign) + number;
    assert s[i..] == number;
    UnsignedRead(s, i, k, ds, rest);
  }

  lemma NumberFirst(k: Notation, ds: seq<Digit>, rest: string)
    requires DigitsOk(k, ds)
    ensures var number := NumberText(k, ds) + rest;
      number != "" && !Spaces([number[0]]) && number[0] != '+' && number[0] != '-'
  {
    hide DigitText;
    var c := (NumberText(k, ds) + rest)[0];
    if k.Decimal? { assert c == DigitText(k, ds[0]); DigitWorth(k, ds[0]); }
    assert DigitValue(c) < 16;
    assert [c][0] == c;
  }

  lemma SignFirst(sign: Sign, number: string)
    requires number != "" && !Spaces([number[0]])
    ensures var text := SignText(sign) + number; text != "" && !Spaces([text[0]])
  {
    var c := (SignText(sign) + number)[0];
    assert [c][0] == c;
  }

  /** One that starts with none is worth 0. */
  lemma NoLeadingNumber(b: string, sign: Sign, rest: string)
    requires Spaces(b) && (rest == "" || DigitValue(rest[0]) >= 10)
    requires sign.Unsigned? ==> rest == "" || (!Spaces([rest[0]]) && rest[0] != '+' && rest[0] != '-')
    ensures LeadingInt(b + (SignText(sign) + rest)) == 0
  {
    hide ReadUnsigned, SkipSpace, Spaces, DigitValue;
    var s := b + (SignText(sign) + rest);
    assert s[0..] == s;
    if !sign.Unsigned? {
      SignNoSpace(sign, rest);
    }
    SpacesSkipped(s, 0, b, SignText(sign) + rest);
    var i := |b| + |SignText(sign)|;
    assert s[|b|..] == SignText(sign) + rest;
    assert s[i..] == rest;
    NothingRead(s, i);
  }

  lemma SignNoSpace(sign: Sign, rest: string)
    requires !sign.Unsigned?
    ensures var text := SignText(sign) + rest; text != "" && !Spaces([text[0]])
  {
    var c := (SignText(sign) + rest)[0];
    assert [c][0] == c;
  }

  lemma NothingRead(s: string, i: nat)
    requires i <= |s| && (i < |s| ==> DigitValue(s[i]) >= 10)
    ensures ReadUnsigned(s, i) == (0, i)
  {
    if i < |s| { DigitsSpelled(s[i], 0); }
  }

  // ------------------------------------------------------------------ whole expressions

  /** A name by itself is worth the number its macro starts with; 0 if it is no macro, or one
      with parameters. */
  lemma NameDecides(t: Table, id: string)
    requires IsWord(id) && |id| <= 127 && id != "defined"
    ensures EvalExpr(t, id, 0) ==
            Read(if Find(t, id).Some? && !Find(t, id).value.isFunc then LeadingInt(Find(t, id).value.body) else 0, |id|)
  {
    hide Find, LeadingInt, WordEndWithin, IsIdStart, IsDigit, IsIdCont;
    WordFirst(id[0]);
    assert At(id, 0, id);
    WordRead(id, 0, id);
    var e := WordEndWithin(id, 0, NAME_MAX);
    assert id[0..e] == id;
    assert EvalAtom(t, id, 0) == Read(NameValue(t, id), |id|);
    AtEnd(t, id, EvalAtom(t, id, 0).v);
  }

  lemma WordFirst(c: char)
    requires IsIdStart(c)
    ensures c != '!' && c != '(' && !IsDigit(c) && !IsBlank(c)
  {
  }

  /** So is a number. */
  lemma NumberDecides(t: Table, k: Notation, ds: seq<Digit>)
    requires DigitsOk(k, ds)
    ensures EvalExpr(t, NumberText(k, ds), 0) == Read(Clamped(Worth(ds, BaseOf(k))), |NumberText(k, ds)|)
  {
    hide ReadUnsigned, Worth, NumberText, DigitValue;
    var s := NumberText(k, ds);
    assert s[0..] == s + "";
    UnsignedRead(s, 0, k, ds, "");
    NumberStarts(k, ds);
    AtEnd(t, s, EvalAtom(t, s, 0).v);
  }

  lemma NumberStarts(k: Notation, ds: seq<Digit>)
    requires DigitsOk(k, ds)
    ensures var s := NumberText(k, ds); s != "" && IsDigit(s[0]) && s[0] != '!' && s[0] != '(' && !IsBlank(s[0])
  {
    hide DigitText;
    if k.Decimal? {
      DigitWorth(k, ds[0]);
      DigitsSpelled(NumberText(k, ds)[0], ds[0]);
      DigitSpelled(NumberText(k, ds)[0]);
      assert DigitText(k, ds[0]) == "0123456789abcdef"[ds[0]] by { DecimalDigit(ds[0]); }
    }
  }

  lemma DecimalDigit(d: Digit)
    ensures DigitText(Decimal, d) == "0123456789abcdef"[d]
  {
  }

  lemma AtEnd(t: Table, s: string, v: Int64)
    ensures SkipBlanks(s, |s|) == |s| && AndTail(t, s, |s|, v) == Read(v, |s|) && OrTail(t, s, |s|, v) == Read(v, |s|)
  {
  }

  /** A name of more than 127 characters is cut, and the rest of it stops the evaluation. */
  lemma LongNameStops(t: Table, id: string)
    requires IsWord(id) && |id| > 127
    ensures EvalExpr(t, id, 0).next == 127
  {
    hide Find, LeadingInt, WordEnd, WordEndWithin, IsIdStart, IsDigit, IsIdCont;
    WordFirst(id[0]);
    WordEndAt(id, 0, |id|);
    assert WordEndWithin(id, 0, 127) == 127;
    WordContinues(id[127]);
    var v := NameValue(t, id[0..127]);
    assert |id[0..127]| == 127 && id[0..127] != "defined";
    assert SkipBlanks(id, 0) == 0 && SkipBlanks(id, 127) == 127;
    assert EvalAtom(t, id, 0) == Read(v, 127);
    assert EvalAnd(t, id, 0) == Read(v, 127);
  }

  lemma WordContinues(c: char)
    requires IsIdCont(c)
    ensures !IsBlank(c) && c != '&' && c != '|'
  {
  }
}
