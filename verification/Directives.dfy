/** What a source line says to the preprocessor. */
module Directives {
  import opened Syntax
  import opened Chars
  import opened Macros

  const KEYWORD_MAX: nat := 31
  const NAME_MAX: nat := 127

  datatype Directive =
    | Plain(text: string)
    | Include(arg: string)
    | Define(name: string, macro: Macro)
    | Undef(name: string)
    | Ifdef(name: string)
    | Ifndef(name: string)
    | HashIf(expr: string)
    | HashElif(expr: string)
    | HashElse
    | HashEndif
    | ErrorLine
    | PassThrough(text: string)
    | Ignored

  /** A name, cut to the size of the buffer; it may be empty and may start with a digit. */
  function NameAt(s: string, i: nat): string
    requires i <= |s|
  {
    s[i..WordEndWithin(s, i, NAME_MAX)]
  }

  /** The parameters of a function-like macro after `(`, and where they end. */
  function ReadParams(s: string, i: nat): (r: (seq<string>, nat))
    requires i <= |s|
    ensures i <= r.1 <= |s|
    decreases |s| - i, 1
  {
    ParamsFrom(s, SkipBlanks(s, i))
  }

  /** The same, past the blanks. */
  function ParamsFrom(s: string, j: nat): (r: (seq<string>, nat))
    requires j <= |s|
    ensures j <= r.1 <= |s|
    decreases |s| - j, 0
  {
    if j < |s| && s[j] == ')' then ([], j + 1)
    else
      var e := WordEndWithin(s, j, NAME_MAX);
      if e == j then ([], j)
      else
        var k := SkipBlanks(s, e);
        var r := ReadParams(s, if k < |s| && s[k] == ',' then k + 1 else k);
        ([s[j..e]] + r.0, r.1)
  }

  function ReadDefine(s: string): Directive {
    var e := WordEndWithin(s, 0, NAME_MAX);
    var isFunc := e < |s| && s[e] == '(';
    var r := if isFunc then ReadParams(s, e + 1) else ([], e);
    Define(s[..e], Macro(isFunc, r.0, s[SkipBlanks(s, r.1)..]))
  }

  /** The directive that a keyword and its argument make; `whole` is the line from its `#`. */
  function DirectiveOf(keyword: string, arg: string, whole: string): Directive {
    if keyword == "include" then Include(arg)
    else if keyword == "define" then ReadDefine(arg)
    else if keyword == "undef" then Undef(NameAt(arg, 0))
    else if keyword == "ifdef" then Ifdef(NameAt(arg, 0))
    else if keyword == "ifndef" then Ifndef(NameAt(arg, 0))
    else if keyword == "if" then HashIf(arg)
    else if keyword == "elif" then HashElif(arg)
    else if keyword == "else" then HashElse
    else if keyword == "endif" then HashEndif
    else if keyword == "error" then ErrorLine
    else if keyword == "pragma" || keyword == "line" then PassThrough(whole)
    else Ignored
  }

  /** The directive of a line; a line that does not start with `#` is plain text. */
  function Classify(line: string): Directive {
    var p := SkipBlanks(line, 0);
    if p == |line| || line[p] != '#' then Plain(line)
    else
      var q := SkipBlanks(line, p + 1);
      var e := WordEndWithin(line, q, KEYWORD_MAX);
      DirectiveOf(line[q..e], line[SkipBlanks(line, e)..], "#" + line[p + 1..])
  }

  /** The path between quotes, or between angle brackets, of an `#include`. */
  function IncludeSpec(arg: string): Option<(string, bool)> {
    if arg == "" || (arg[0] != '"' && arg[0] != '<') then None
    else
      var close := if arg[0] == '"' then '"' else '>';
      var e := FirstOf(arg, 1, close);
      if e == |arg| then None else Some((arg[1..e], close == '>'))
  }

  /** The first position of `c` from `i` on, or the end. */
  function FirstOf(s: string, i: nat, c: char): (j: nat)
    requires i <= |s|
    ensures i <= j <= |s| && (j < |s| ==> s[j] == c)
    decreases |s| - i
  {
    if i == |s| || s[i] == c then i else FirstOf(s, i + 1, c)
  }

  /** It is where it is. */
  lemma {:induction false} FirstOfAt(s: string, i: nat, j: nat, c: char)
    requires i <= j <= |s| && (forall k :: i <= k < j ==> s[k] != c) && (j < |s| ==> s[j] == c)
    ensures FirstOf(s, i, c) == j
    decreases j - i
  {
    if i < j { FirstOfAt(s, i + 1, j, c); }
  }
}
