/** Character classes of the C locale, and runs of characters in a text. */
module Chars {

  predicate IsDigit(c: char) {
    '0' <= c <= '9'
  }

  predicate IsAlpha(c: char) {
    'a' <= c <= 'z' || 'A' <= c <= 'Z'
  }

  predicate IsIdStart(c: char) {
    c == '_' || IsAlpha(c)
  }

  predicate IsIdCont(c: char) {
    c == '_' || IsAlpha(c) || IsDigit(c)
  }

  predicate IsBlank(c: char) {
    c == ' ' || c == '\t'
  }

  /** The character at `i` is `c`. */
  predicate Have(s: string, i: nat, c: char) {
    i < |s| && s[i] == c
  }

  /** The value of a digit in base 16; 16 for anything else. */
  function DigitValue(c: char): (d: nat)
    ensures d <= 16
  {
    if '0' <= c <= '9' then c as int - '0' as int
    else if 'a' <= c <= 'f' then c as int - 'a' as int + 10
    else if 'A' <= c <= 'F' then c as int - 'A' as int + 10
    else 16
  }

  /** The number that the digits from `i` to `j` write. */
  function NumberAt(s: string, i: nat, j: nat, base: nat): nat
    requires i <= j <= |s|
    decreases j - i
  {
    if i == j then 0 else NumberAt(s, i, j - 1, base) * base + DigitValue(s[j - 1])
  }

  /** The first position from `i` on that is not blank. */
  function SkipBlanks(s: string, i: nat): (j: nat)
    requires i <= |s|
    ensures i <= j <= |s|
    ensures j < |s| ==> !IsBlank(s[j])
    ensures forall k :: i <= k < j ==> IsBlank(s[k])
    decreases |s| - i
  {
    if i < |s| && IsBlank(s[i]) then SkipBlanks(s, i + 1) else i
  }

  /** The end of the run of identifier characters from `i` on. */
  function WordEnd(s: string, i: nat): (j: nat)
    requires i <= |s|
    ensures i <= j <= |s|
    ensures j < |s| ==> !IsIdCont(s[j])
    ensures forall k :: i <= k < j ==> IsIdCont(s[k])
    decreases |s| - i
  {
    if i < |s| && IsIdCont(s[i]) then WordEnd(s, i + 1) else i
  }

  /** The same, but no longer than `max` characters: the size of a fixed buffer. */
  function WordEndWithin(s: string, i: nat, max: nat): (j: nat)
    requires i <= |s|
    ensures i <= j <= WordEnd(s, i) && j <= i + max
    ensures j == i + max || j == WordEnd(s, i)
    decreases |s| - i
  {
    if i < |s| && IsIdCont(s[i]) && max > 0 then WordEndWithin(s, i + 1, max - 1) else i
  }

  /** The runs are found where they are. */
  lemma {:induction false} WordEndAt(s: string, i: nat, j: nat)
    requires i <= j <= |s|
    requires forall k :: i <= k < j ==> IsIdCont(s[k])
    requires j < |s| ==> !IsIdCont(s[j])
    ensures WordEnd(s, i) == j
    decreases j - i
  {
    if i < j { WordEndAt(s, i + 1, j); }
  }

  predicate IsWord(w: string) {
    |w| > 0 && IsIdStart(w[0]) && forall k :: 0 <= k < |w| ==> IsIdCont(w[k])
  }

  /** What is left of a text after a part of it. */
  lemma Dropped(s: string, i: nat, a: string, b: string)
    requires i <= |s| && s[i..] == a + b
    ensures i + |a| <= |s| && s[i + |a|..] == b && s[i..i + |a|] == a
    ensures a != "" ==> s[i] == a[0]
  {
    assert s[i..][|a|..] == b && s[i..][..|a|] == a;
    if a != "" { assert s[i..][0] == a[0]; }
  }

  lemma DroppedChars(s: string, i: nat, a: string, b: string)
    requires i <= |s| && s[i..] == a + b
    ensures i + |a| <= |s|
    ensures forall k :: i <= k < i + |a| ==> s[k] == a[k - i]
    ensures b != "" ==> i + |a| < |s| && s[i + |a|] == b[0]
    ensures b == "" ==> i + |a| == |s|
  {
    assert forall k :: i <= k < i + |a| ==> s[k] == s[i..][k - i];
    if b != "" { assert s[i..][|a|] == b[0]; }
  }

  // ------------------------------------------------------------ the classes, spelled out

  const DIGITS: string := "0123456789"
  const LOWER_LETTERS: string := "abcdefghijklmnopqrstuvwxyz"
  const CAPITALS: string := "ABCDEFGHIJKLMNOPQRSTUVWXYZ"

  lemma DigitSpelled(c: char)
    ensures IsDigit(c) <==> c in DIGITS
  {
    if IsDigit(c) { assert DIGITS[c as int - '0' as int] == c; }
  }

  lemma LetterSpelled(c: char)
    ensures 'a' <= c <= 'z' <==> c in LOWER_LETTERS
  {
    if 'a' <= c <= 'z' { assert LOWER_LETTERS[c as int - 'a' as int] == c; }
  }

  lemma CapitalSpelled(c: char)
    ensures 'A' <= c <= 'Z' <==> c in CAPITALS
  {
    if 'A' <= c <= 'Z' { assert CAPITALS[c as int - 'A' as int] == c; }
  }

  lemma ClassesSpelled(c: char)
    ensures IsIdStart(c) <==> c == '_' || c in LOWER_LETTERS || c in CAPITALS
    ensures IsIdCont(c) <==> c == '_' || c in LOWER_LETTERS || c in CAPITALS || c in DIGITS
    ensures IsBlank(c) <==> c in [' ', '\t']
  {
    hide DIGITS, LOWER_LETTERS, CAPITALS;
    DigitSpelled(c);
    LetterSpelled(c);
    CapitalSpelled(c);
  }

  /** A digit is worth its place among the digits, capital or not, and nothing else is a digit. */
  lemma DigitsSpelled(c: char, k: nat)
    requires k < 16
    ensures DigitValue(c) == k <==> c == "0123456789abcdef"[k] || c == "0123456789ABCDEF"[k]
  {
  }
}
